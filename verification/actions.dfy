/** The adb input adapter: `ADBConfig`, `ADBController` and its four
    operations. Each operation turns an input intent into the argument
    vector of one `adb` process and reports whether that process exited
    with status 0. The process itself is a parameter: `exec` maps an
    argument vector to the exit status the system reports for it. */
module Actions {
  import opened Optional
  import opened Decimal
  import opened ShellWords

  datatype Point = Point(x: int, y: int)

  /** `ADBConfig`. `adbPath` is `None` until the controller resolves it. */
  datatype Config = Config(
    tapCoords: Point,
    swipeStart: Point,
    swipeEnd: Point,
    swipeDurationMs: int,
    adbPath: Option<string>)

  /** `ADBConfig()` with every field at its default. */
  const DefaultConfig: Config :=
    Config(Point(100, 100), Point(100, 300), Point(300, 300), 200, None)

  /** `ADBController`: it holds one configuration and nothing else. */
  datatype Controller = Controller(config: Config)

  /** Python truthiness of an `Optional[str]`: neither `None` nor "". */
  predicate IsTruthy(s: Option<string>) {
    s.Some? && s.value != ""
  }

  /** `ADBController(config)`. `whichAdb` is what the search of PATH for
      "adb" returned. A configuration object is always truthy, so only a
      missing one is replaced by the defaults; then the adb path is resolved
      when it is missing or empty, and no other field is written. */
  function NewController(config: Option<Config>, whichAdb: Option<string>): (ctrl: Controller)
    ensures IsTruthy(ctrl.config.adbPath)
    ensures var base := config.GetOr(DefaultConfig);
      && ctrl.config.tapCoords == base.tapCoords
      && ctrl.config.swipeStart == base.swipeStart
      && ctrl.config.swipeEnd == base.swipeEnd
      && ctrl.config.swipeDurationMs == base.swipeDurationMs
      && (IsTruthy(base.adbPath) ==> ctrl.config.adbPath == base.adbPath)
      && (!IsTruthy(base.adbPath) && IsTruthy(whichAdb) ==> ctrl.config.adbPath == whichAdb)
      && (!IsTruthy(base.adbPath) && !IsTruthy(whichAdb) ==> ctrl.config.adbPath == Some("adb"))
    ensures config.None? ==>
      && ctrl.config.tapCoords == Point(100, 100)
      && ctrl.config.swipeStart == Point(100, 300)
      && ctrl.config.swipeEnd == Point(300, 300)
      && ctrl.config.swipeDurationMs == 200
  {
    var base := if config.Some? then config.value else DefaultConfig;
    if base.adbPath.Some? && base.adbPath.value != "" then Controller(base)
    else
      var found := if whichAdb.Some? && whichAdb.value != "" then whichAdb.value else "adb";
      Controller(base.(adbPath := Some(found)))
  }

  /** The four input intents, with every parameter already resolved. */
  datatype Command =
    | TapCommand(x: int, y: int)
    | SwipeCommand(x1: int, y1: int, x2: int, y2: int, durationMs: int)
    | BackCommand
    | HomeCommand

  /** The command text each operation hands to `_run`: its f-string. */
  function CommandText(cmd: Command): string {
    match cmd
    case TapCommand(x, y) =>
      "shell input tap " + IntToString(x) + " " + IntToString(y)
    case SwipeCommand(x1, y1, x2, y2, d) =>
      "shell input swipe " + IntToString(x1) + " " + IntToString(y1) + " "
        + IntToString(x2) + " " + IntToString(y2) + " " + IntToString(d)
    case BackCommand => "shell input keyevent KEYCODE_BACK"
    case HomeCommand => "shell input keyevent KEYCODE_HOME"
  }

  /** The fixed words that name an intent. */
  function Verb(cmd: Command): seq<string> {
    match cmd
    case TapCommand(_, _) => ["shell", "input", "tap"]
    case SwipeCommand(_, _, _, _, _) => ["shell", "input", "swipe"]
    case BackCommand => ["shell", "input", "keyevent", "KEYCODE_BACK"]
    case HomeCommand => ["shell", "input", "keyevent", "KEYCODE_HOME"]
  }

  /** The integers an intent carries, in the order its command writes them. */
  function Operands(cmd: Command): seq<int> {
    match cmd
    case TapCommand(x, y) => [x, y]
    case SwipeCommand(x1, y1, x2, y2, d) => [x1, y1, x2, y2, d]
    case BackCommand => []
    case HomeCommand => []
  }

  /** The arguments after the executable: the fixed words, then the
      rendered integers. */
  function CommandTokens(cmd: Command): seq<string> {
    Verb(cmd) + Numerals(Operands(cmd))
  }

  /** A rendered integer is a single shell word. */
  lemma IntTokenIsWord(n: int)
    ensures IsWord(IntToString(n))
  {
    var s := IntToString(n);
    IntToStringChars(n);
    forall i | 0 <= i < |s|
      ensures !IsSpecial(s[i]) && !IsBlank(s[i])
    {
      assert IsDigit(s[i]) || s[i] == '-';
    }
  }

  /** The tokens of a tap, spelled out. */
  lemma TapTokens(x: int, y: int)
    ensures CommandTokens(TapCommand(x, y)) == ["shell", "input", "tap", IntToString(x), IntToString(y)]
  {
    assert Numerals([x, y]) == [IntToString(x), IntToString(y)];
  }

  /** The tokens of a swipe, spelled out. */
  lemma SwipeTokens(x1: int, y1: int, x2: int, y2: int, d: int)
    ensures CommandTokens(SwipeCommand(x1, y1, x2, y2, d))
         == ["shell", "input", "swipe", IntToString(x1), IntToString(y1),
             IntToString(x2), IntToString(y2), IntToString(d)]
  {
    var ns := Numerals([x1, y1, x2, y2, d]);
    assert ns == [IntToString(x1), IntToString(y1), IntToString(x2), IntToString(y2), IntToString(d)];
  }

  /** Every token is a single shell word, so splitting keeps it whole. */
  lemma TokensAreWords(cmd: Command)
    ensures AllWords(CommandTokens(cmd))
  {
    LiteralWords();
    match cmd
    case TapCommand(x, y) =>
      TapTokensAreWords(x, y);
    case SwipeCommand(x1, y1, x2, y2, d) =>
      SwipeTokensAreWords(x1, y1, x2, y2, d);
    case BackCommand =>
      assert CommandTokens(cmd) == ["shell", "input", "keyevent", "KEYCODE_BACK"];
    case HomeCommand =>
      assert CommandTokens(cmd) == ["shell", "input", "keyevent", "KEYCODE_HOME"];
  }

  lemma TapTokensAreWords(x: int, y: int)
    ensures AllWords(CommandTokens(TapCommand(x, y)))
  {
    TapTokens(x, y);
    LiteralWords();
    IntTokenIsWord(x);
    IntTokenIsWord(y);
  }

  lemma SwipeTokensAreWords(x1: int, y1: int, x2: int, y2: int, d: int)
    ensures AllWords(CommandTokens(SwipeCommand(x1, y1, x2, y2, d)))
  {
    SwipeTokens(x1, y1, x2, y2, d);
    LiteralWords();
    IntTokenIsWord(x1);
    IntTokenIsWord(y1);
    IntTokenIsWord(x2);
    IntTokenIsWord(y2);
    IntTokenIsWord(d);
  }

  /** The fixed words of the four commands are shell words. */
  lemma LiteralWords()
    ensures IsWord("shell") && IsWord("input") && IsWord("tap") && IsWord("swipe")
    ensures IsWord("keyevent") && IsWord("KEYCODE_BACK") && IsWord("KEYCODE_HOME")
  {
  }

  /** Joining the tokens with single spaces rebuilds the command text: the
      f-string writes exactly these words, in this order. */
  lemma CommandTextIsJoin(cmd: Command)
    ensures Join(CommandTokens(cmd)) == CommandText(cmd)
  {
    match cmd
    case TapCommand(x, y) =>
      TapTokens(x, y);
      TapTextIsJoin(IntToString(x), IntToString(y));
    case SwipeCommand(x1, y1, x2, y2, d) =>
      SwipeTokens(x1, y1, x2, y2, d);
      SwipeTextIsJoin(IntToString(x1), IntToString(y1), IntToString(x2), IntToString(y2), IntToString(d));
    case BackCommand =>
      assert CommandTokens(cmd) == ["shell", "input", "keyevent", "KEYCODE_BACK"];
      KeyTextIsJoin("KEYCODE_BACK");
    case HomeCommand =>
      assert CommandTokens(cmd) == ["shell", "input", "keyevent", "KEYCODE_HOME"];
      KeyTextIsJoin("KEYCODE_HOME");
  }

  /** The three fixed leading words join to "shell input <verb>". */
  lemma PrefixIsJoin(verb: string)
    ensures Join(["shell", "input", verb]) == "shell input " + verb
  {
    var w := ["shell", "input", verb];
    assert w[1..] == ["input", verb];
    assert w[1..][1..] == [verb];
    assert Join(w[1..]) == "input " + verb;
  }

  lemma TapTextIsJoin(x: string, y: string)
    ensures Join(["shell", "input", "tap", x, y]) == "shell input tap " + x + " " + y
  {
    var w3 := ["shell", "input", "tap"];
    PrefixIsJoin("tap");
    var w4 := w3 + [x];
    var w5 := w4 + [y];
    JoinSnoc(w3, x);
    assert Join(w4) == "shell input tap " + x;
    JoinSnoc(w4, y);
    assert w5 == ["shell", "input", "tap", x, y];
  }

  lemma SwipeTextIsJoin(x1: string, y1: string, x2: string, y2: string, d: string)
    ensures Join(["shell", "input", "swipe", x1, y1, x2, y2, d])
         == "shell input swipe " + x1 + " " + y1 + " " + x2 + " " + y2 + " " + d
  {
    var w3 := ["shell", "input", "swipe"];
    PrefixIsJoin("swipe");
    var w4 := w3 + [x1];
    var w5 := w4 + [y1];
    var w6 := w5 + [x2];
    var w7 := w6 + [y2];
    var w8 := w7 + [d];
    JoinSnoc(w3, x1);
    assert Join(w4) == "shell input swipe " + x1;
    JoinSnoc(w4, y1);
    JoinSnoc(w5, x2);
    JoinSnoc(w6, y2);
    JoinSnoc(w7, d);
    assert w8 == ["shell", "input", "swipe", x1, y1, x2, y2, d];
  }

  lemma KeyTextIsJoin(key: string)
    ensures Join(["shell", "input", "keyevent", key]) == "shell input keyevent " + key
  {
    var w3 := ["shell", "input", "keyevent"];
    PrefixIsJoin("keyevent");
    var w4 := w3 + [key];
    JoinSnoc(w3, key);
    assert Join(w4) == "shell input keyevent " + key;
    assert w4 == ["shell", "input", "keyevent", key];
  }

  /** An argument vector read back into the executable and the intent. */
  datatype Invocation = Invocation(executable: string, command: Command)

  /** Recovers the intent from the arguments after the executable; only the
      four shapes, with canonical integers, are accepted. */
  function ParseCommand(tokens: seq<string>): Option<Command> {
    if tokens == ["shell", "input", "keyevent", "KEYCODE_BACK"] then Some(BackCommand)
    else if tokens == ["shell", "input", "keyevent", "KEYCODE_HOME"] then Some(HomeCommand)
    else if |tokens| < 3 then None
    else match ParseNumerals(tokens[3..])
      case None => None
      case Some(ns) =>
        if tokens[..3] == ["shell", "input", "tap"] && |ns| == 2 then
          Some(TapCommand(ns[0], ns[1]))
        else if tokens[..3] == ["shell", "input", "swipe"] && |ns| == 5 then
          Some(SwipeCommand(ns[0], ns[1], ns[2], ns[3], ns[4]))
        else None
  }

  /** Recovers the executable and the intent from an argument vector. */
  function ParseArgv(argv: seq<string>): Option<Invocation> {
    if |argv| == 0 then None
    else match ParseCommand(argv[1..])
      case None => None
      case Some(cmd) => Some(Invocation(argv[0], cmd))
  }

  /** Reading the tokens of an intent gives the intent back, so distinct
      intents never share an argument vector. */
  lemma ParseCommandOfTokens(cmd: Command)
    ensures ParseCommand(CommandTokens(cmd)) == Some(cmd)
  {
    match cmd
    case TapCommand(x, y) =>
      ParseTapTokens(x, y);
    case SwipeCommand(x1, y1, x2, y2, d) =>
      ParseSwipeTokens(x1, y1, x2, y2, d);
    case BackCommand =>
      assert CommandTokens(cmd) == ["shell", "input", "keyevent", "KEYCODE_BACK"];
    case HomeCommand =>
      assert CommandTokens(cmd) == ["shell", "input", "keyevent", "KEYCODE_HOME"];
  }

  lemma ParseTapTokens(x: int, y: int)
    ensures ParseCommand(CommandTokens(TapCommand(x, y))) == Some(TapCommand(x, y))
  {
    var tokens := CommandTokens(TapCommand(x, y));
    ParseNumeralsOfNumerals([x, y]);
    assert tokens[..3] == ["shell", "input", "tap"];
    assert tokens[3..] == Numerals([x, y]);
    assert tokens[2] != "keyevent";
  }

  lemma ParseSwipeTokens(x1: int, y1: int, x2: int, y2: int, d: int)
    ensures ParseCommand(CommandTokens(SwipeCommand(x1, y1, x2, y2, d))) == Some(SwipeCommand(x1, y1, x2, y2, d))
  {
    var tokens := CommandTokens(SwipeCommand(x1, y1, x2, y2, d));
    ParseNumeralsOfNumerals([x1, y1, x2, y2, d]);
    assert tokens[..3] == ["shell", "input", "swipe"];
    assert tokens[3..] == Numerals([x1, y1, x2, y2, d]);
    assert tokens[2] != "keyevent" && tokens[2] != "tap";
  }

  /** Every token sequence the reader accepts is the rendering of what it
      read: the reader and the renderer are inverse on the accepted shapes. */
  lemma TokensOfParseCommand(tokens: seq<string>, cmd: Command)
    requires ParseCommand(tokens) == Some(cmd)
    ensures CommandTokens(cmd) == tokens
  {
    if tokens == ["shell", "input", "keyevent", "KEYCODE_BACK"] {
      assert cmd == BackCommand;
    } else if tokens == ["shell", "input", "keyevent", "KEYCODE_HOME"] {
      assert cmd == HomeCommand;
    } else {
      var ns := ParseNumerals(tokens[3..]).value;
      if tokens[..3] == ["shell", "input", "tap"] && |ns| == 2 {
        assert cmd == TapCommand(ns[0], ns[1]);
      } else {
        assert cmd == SwipeCommand(ns[0], ns[1], ns[2], ns[3], ns[4]);
      }
      OperandTokens(tokens, cmd, ns);
    }
  }

  /** A command whose fixed words open `tokens` and whose integers parse
      from the rest has exactly `tokens` as its tokens. */
  lemma OperandTokens(tokens: seq<string>, cmd: Command, ns: seq<int>)
    requires |tokens| >= 3 && |Verb(cmd)| == 3 && tokens[..3] == Verb(cmd)
    requires ParseNumerals(tokens[3..]) == Some(ns) && Operands(cmd) == ns
    ensures CommandTokens(cmd) == tokens
  {
    NumeralsOfParseNumerals(tokens[3..], ns);
    assert tokens == tokens[..3] + tokens[3..];
  }

  /** The argument vector of one invocation: the adb path as its own
      argument, then the command's tokens. Reading it back recovers the
      path and the intent, whatever the path contains. */
  function Argv(path: Option<string>, cmd: Command): (argv: seq<string>)
    ensures ParseArgv(argv) == Some(Invocation(PathText(path), cmd))
  {
    var argv := [PathText(path)] + CommandTokens(cmd);
    assert argv[1..] == CommandTokens(cmd);
    ParseCommandOfTokens(cmd);
    argv
  }

  /** Any vector the reader accepts is the argument vector of what it read. */
  lemma ArgvOfParseArgv(argv: seq<string>, inv: Invocation)
    requires ParseArgv(argv) == Some(inv)
    ensures argv == [inv.executable] + CommandTokens(inv.command)
  {
    TokensOfParseCommand(argv[1..], inv.command);
    assert argv == [argv[0]] + argv[1..];
  }

  /** `f"{adb_path}"`: Python renders a `None` path as the text "None". */
  function PathText(path: Option<string>): string {
    match path
    case Some(p) => p
    case None => "None"
  }

  /** What `_run` hands to the process as written: the path
      and the command text joined by a space, then split into words again.
      Only the quote- and backslash-free case of that split is modelled. */
  function RunArgv(path: Option<string>, cmd: Command): (argv: seq<string>)
    requires IsPlain(PathText(path))
    ensures AllWords(argv)
  {
    TokensAreWords(cmd);
    SplitJoin(CommandTokens(cmd));
    CommandTextIsJoin(cmd);
    PlainConcat(" ", CommandText(cmd));
    PlainConcat(PathText(path), " " + CommandText(cmd));
    assert PathText(path) + " " + CommandText(cmd) == PathText(path) + (" " + CommandText(cmd));
    Split(PathText(path) + " " + CommandText(cmd))
  }

  /** The as-written split gives the intended vector exactly when the adb
      path is a single shell word; a path with a blank in it, or an empty
      one, loses its place as the first argument. */
  lemma RunArgvAgreesIff(path: Option<string>, cmd: Command)
    requires IsPlain(PathText(path))
    ensures RunArgv(path, cmd) == Argv(path, cmd) <==> IsWord(PathText(path))
  {
    var p := PathText(path);
    var tokens := CommandTokens(cmd);
    if IsWord(p) {
      TokensAreWords(cmd);
      CommandTextIsJoin(cmd);
      assert AllWords([p] + tokens);
      SplitJoin([p] + tokens);
      assert ([p] + tokens)[1..] == tokens;
      assert Join([p] + tokens) == p + " " + Join(tokens);
    } else {
      assert Argv(path, cmd)[0] == p;
    }
  }

  /** `tap(x, y)`: each omitted coordinate comes from
      `tap_coords`, a supplied one is used as it is, and the vector is the
      one `_run` produces whenever the adb path is a single shell word. */
  function TapArgs(config: Config, x: Option<int>, y: Option<int>): (argv: seq<string>)
    ensures var tx, ty := x.GetOr(config.tapCoords.x), y.GetOr(config.tapCoords.y);
      && argv == [PathText(config.adbPath), "shell", "input", "tap", IntToString(tx), IntToString(ty)]
      && ParseArgv(argv) == Some(Invocation(PathText(config.adbPath), TapCommand(tx, ty)))
      && (IsWord(PathText(config.adbPath)) ==> RunArgv(config.adbPath, TapCommand(tx, ty)) == argv)
  {
    var cmd := TapCommand(x.GetOr(config.tapCoords.x), y.GetOr(config.tapCoords.y));
    TapTokens(cmd.x, cmd.y);
    if IsWord(PathText(config.adbPath)) then
      RunArgvAgreesIff(config.adbPath, cmd);
      Argv(config.adbPath, cmd)
    else Argv(config.adbPath, cmd)
  }

  /** `swipe(...)`: each of the five parameters independently
      falls back to its own configuration field, and the tokens follow the
      order x1, y1, x2, y2, duration. */
  function SwipeArgs(config: Config, x1: Option<int>, y1: Option<int>,
                     x2: Option<int>, y2: Option<int>, durationMs: Option<int>): (argv: seq<string>)
    ensures var sx1, sy1 := x1.GetOr(config.swipeStart.x), y1.GetOr(config.swipeStart.y);
      var sx2, sy2 := x2.GetOr(config.swipeEnd.x), y2.GetOr(config.swipeEnd.y);
      var d := durationMs.GetOr(config.swipeDurationMs);
      && argv == [PathText(config.adbPath), "shell", "input", "swipe",
                  IntToString(sx1), IntToString(sy1), IntToString(sx2), IntToString(sy2), IntToString(d)]
      && ParseArgv(argv) == Some(Invocation(PathText(config.adbPath), SwipeCommand(sx1, sy1, sx2, sy2, d)))
      && (IsWord(PathText(config.adbPath)) ==>
            RunArgv(config.adbPath, SwipeCommand(sx1, sy1, sx2, sy2, d)) == argv)
  {
    var cmd := SwipeCommand(
      x1.GetOr(config.swipeStart.x), y1.GetOr(config.swipeStart.y),
      x2.GetOr(config.swipeEnd.x), y2.GetOr(config.swipeEnd.y),
      durationMs.GetOr(config.swipeDurationMs));
    SwipeTokens(cmd.x1, cmd.y1, cmd.x2, cmd.y2, cmd.durationMs);
    if IsWord(PathText(config.adbPath)) then
      RunArgvAgreesIff(config.adbPath, cmd);
      Argv(config.adbPath, cmd)
    else Argv(config.adbPath, cmd)
  }

  /** `back()`: a fixed key event whatever the coordinates. */
  function BackArgs(config: Config): (argv: seq<string>)
    ensures argv == [PathText(config.adbPath), "shell", "input", "keyevent", "KEYCODE_BACK"]
    ensures ParseArgv(argv) == Some(Invocation(PathText(config.adbPath), BackCommand))
    ensures IsWord(PathText(config.adbPath)) ==> RunArgv(config.adbPath, BackCommand) == argv
  {
    assert CommandTokens(BackCommand) == ["shell", "input", "keyevent", "KEYCODE_BACK"];
    if IsWord(PathText(config.adbPath)) then
      RunArgvAgreesIff(config.adbPath, BackCommand);
      Argv(config.adbPath, BackCommand)
    else Argv(config.adbPath, BackCommand)
  }

  /** `home()`: a fixed key event whatever the coordinates. */
  function HomeArgs(config: Config): (argv: seq<string>)
    ensures argv == [PathText(config.adbPath), "shell", "input", "keyevent", "KEYCODE_HOME"]
    ensures ParseArgv(argv) == Some(Invocation(PathText(config.adbPath), HomeCommand))
    ensures IsWord(PathText(config.adbPath)) ==> RunArgv(config.adbPath, HomeCommand) == argv
  {
    assert CommandTokens(HomeCommand) == ["shell", "input", "keyevent", "KEYCODE_HOME"];
    if IsWord(PathText(config.adbPath)) then
      RunArgvAgreesIff(config.adbPath, HomeCommand);
      Argv(config.adbPath, HomeCommand)
    else Argv(config.adbPath, HomeCommand)
  }

  /** `res.returncode == 0`. */
  predicate Succeeded(returncode: int) {
    returncode == 0
  }

  /** `ADBController.tap`: one invocation, true exactly when it exits 0. */
  function Tap(ctrl: Controller, x: Option<int>, y: Option<int>, exec: seq<string> -> int): (ok: bool)
    ensures var tx, ty := x.GetOr(ctrl.config.tapCoords.x), y.GetOr(ctrl.config.tapCoords.y);
      ok <==> exec([PathText(ctrl.config.adbPath), "shell", "input", "tap",
                    IntToString(tx), IntToString(ty)]) == 0
  {
    Succeeded(exec(TapArgs(ctrl.config, x, y)))
  }

  /** `ADBController.swipe`: one invocation, true exactly when it exits 0. */
  function Swipe(ctrl: Controller, x1: Option<int>, y1: Option<int>, x2: Option<int>,
                 y2: Option<int>, durationMs: Option<int>, exec: seq<string> -> int): (ok: bool)
    ensures var c := ctrl.config;
      ok <==> exec([PathText(c.adbPath), "shell", "input", "swipe",
                    IntToString(x1.GetOr(c.swipeStart.x)), IntToString(y1.GetOr(c.swipeStart.y)),
                    IntToString(x2.GetOr(c.swipeEnd.x)), IntToString(y2.GetOr(c.swipeEnd.y)),
                    IntToString(durationMs.GetOr(c.swipeDurationMs))]) == 0
  {
    Succeeded(exec(SwipeArgs(ctrl.config, x1, y1, x2, y2, durationMs)))
  }

  /** `ADBController.back`: one invocation, true exactly when it exits 0. */
  function Back(ctrl: Controller, exec: seq<string> -> int): (ok: bool)
    ensures ok <==> exec([PathText(ctrl.config.adbPath), "shell", "input", "keyevent", "KEYCODE_BACK"]) == 0
  {
    Succeeded(exec(BackArgs(ctrl.config)))
  }

  /** `ADBController.home`: one invocation, true exactly when it exits 0. */
  function Home(ctrl: Controller, exec: seq<string> -> int): (ok: bool)
    ensures ok <==> exec([PathText(ctrl.config.adbPath), "shell", "input", "keyevent", "KEYCODE_HOME"]) == 0
  {
    Succeeded(exec(HomeArgs(ctrl.config)))
  }

  /** A path made of two words around a space reaches the process as two
      arguments, ahead of the command's tokens. */
  lemma BlankInPathSplits(a: string, b: string, cmd: Command)
    requires IsWord(a) && IsWord(b)
    ensures IsPlain(a + " " + b)
    ensures RunArgv(Some(a + " " + b), cmd) == [a, b] + CommandTokens(cmd)
  {
    var tokens := CommandTokens(cmd);
    TokensAreWords(cmd);
    CommandTextIsJoin(cmd);
    assert Join([a, b]) == a + " " + b by {
      assert [a, b][1..] == [b];
    }
    JoinAppend([a, b], tokens);
    assert AllWords([a, b] + tokens);
    SplitJoin([a, b] + tokens);
  }

  /** An adb path found in a directory whose name has a space: `_run`
      splits it into two arguments, so the process started is
      "/opt/android" and the path's tail becomes its first argument. */
  lemma SpacedPathIsSplit()
    ensures var path := Some("/opt/android sdk/adb");
      && RunArgv(path, BackCommand)
         == ["/opt/android", "sdk/adb", "shell", "input", "keyevent", "KEYCODE_BACK"]
      && RunArgv(path, BackCommand) != Argv(path, BackCommand)
  {
    assert IsWord("/opt/android") && IsWord("sdk/adb");
    assert "/opt/android" + " " + "sdk/adb" == "/opt/android sdk/adb";
    BlankInPathSplits("/opt/android", "sdk/adb", BackCommand);
    assert CommandTokens(BackCommand) == ["shell", "input", "keyevent", "KEYCODE_BACK"];
  }

  /** A resolved configuration is left alone by a second construction:
      the constructor only fills in a missing adb path. */
  lemma ConstructionIsIdempotent(config: Option<Config>, whichAdb: Option<string>, again: Option<string>)
    ensures var ctrl := NewController(config, whichAdb);
      NewController(Some(ctrl.config), again) == ctrl
  {
  }

  /** `back()` and `home()` depend on the adb path alone: two
      configurations that differ only in coordinates or duration give the
      same vectors. */
  lemma KeyEventsIgnoreCoordinates(c1: Config, c2: Config)
    requires c1.adbPath == c2.adbPath
    ensures BackArgs(c1) == BackArgs(c2)
    ensures HomeArgs(c1) == HomeArgs(c2)
    ensures BackArgs(c1) != HomeArgs(c2)
  {
  }

  /** Supplied tap coordinates reach the process unchanged, negative and
      off-screen values included: reading the vector back gives them. */
  lemma TapPassesCoordinatesThrough(config: Config, x: int, y: int)
    ensures ParseArgv(TapArgs(config, Some(x), Some(y))) == Some(Invocation(PathText(config.adbPath), TapCommand(x, y)))
    ensures x < 0 ==> TapArgs(config, Some(x), Some(y))[4][0] == '-'
  {
  }

  /** The renderings of the default coordinates. */
  lemma DefaultNumerals()
    ensures IntToString(100) == "100" && IntToString(200) == "200" && IntToString(300) == "300"
    ensures IntToString(50) == "50" && IntToString(60) == "60" && IntToString(70) == "70"
    ensures IntToString(80) == "80" && IntToString(500) == "500"
  {
    assert NatToString(1) == "1" && NatToString(2) == "2" && NatToString(3) == "3";
    assert NatToString(5) == "5" && NatToString(6) == "6" && NatToString(7) == "7" && NatToString(8) == "8";
    assert NatToString(10) == NatToString(1) + "0";
    assert NatToString(20) == NatToString(2) + "0";
    assert NatToString(30) == NatToString(3) + "0";
    assert NatToString(50) == NatToString(5) + "0";
    assert NatToString(100) == NatToString(10) + "0";
    assert NatToString(200) == NatToString(20) + "0";
    assert NatToString(300) == NatToString(30) + "0";
    assert NatToString(500) == NatToString(50) + "0";
    assert NatToString(60) == NatToString(6) + "0";
    assert NatToString(70) == NatToString(7) + "0";
    assert NatToString(80) == NatToString(8) + "0";
  }

  /** The documented invocations of a controller built with the defaults
      when adb is not on the search path. */
  lemma DefaultInvocations()
    ensures var c := NewController(None, None).config;
      && TapArgs(c, None, None) == ["adb", "shell", "input", "tap", "100", "100"]
      && SwipeArgs(c, None, None, None, None, None)
         == ["adb", "shell", "input", "swipe", "100", "300", "300", "300", "200"]
      && SwipeArgs(c, Some(50), Some(60), Some(70), Some(80), Some(500))
         == ["adb", "shell", "input", "swipe", "50", "60", "70", "80", "500"]
      && BackArgs(c) == ["adb", "shell", "input", "keyevent", "KEYCODE_BACK"]
      && HomeArgs(c) == ["adb", "shell", "input", "keyevent", "KEYCODE_HOME"]
  {
    DefaultNumerals();
  }
}
