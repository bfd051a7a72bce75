# topscreen adb input adapter, modelled in Dafny

topscreen shows a small overlay window over a mirrored Android screen. Its
buttons call `ADBController` (`overlay/actions.py`), which turns four input
intents into invocations of the external `adb` tool:

```
<adb> shell input tap <x> <y>
<adb> shell input swipe <x1> <y1> <x2> <y2> <duration_ms>
<adb> shell input keyevent KEYCODE_BACK
<adb> shell input keyevent KEYCODE_HOME
```

Each operation reports `true` exactly when the process exits with status 0.
This project models that adapter as pure functions and proves what it
promises:

- `optional.dfy`: `Option`, standing for Python's `Optional[...]`. `GetOr`
  is the `v if v is not None else default` idiom.
- `decimal.dfy`: how an f-string field writes an `int` (`IntToString`). It
  comes with an inverse (`ParseInt`, `ParseNumerals`), so "the integer
  reaches the process unchanged" is a round trip.
- `shell_words.dfy`: `shlex.split` on text that has no quotes and no
  backslashes (`Split`). It comes with the single-space join that an
  f-string performs (`Join`), and the round trip `Split(Join(ws)) == ws`.
- `actions.dfy`: `ADBConfig` (`Config`) and its defaults. It holds the
  constructor (`NewController`), the argument vectors of the four operations
  (`TapArgs`, `SwipeArgs`, `BackArgs`, `HomeArgs`) and the operations
  themselves (`Tap`, `Swipe`, `Back`, `Home`). It also holds a reader
  (`ParseArgv`) that recovers the executable and the intent from a vector.

The `adb` process is a parameter `exec: seq<string> -> int`. It gives the
exit status the system reports for an argument vector. The PATH lookup
`shutil.which("adb")` is a parameter `whichAdb: Option<string>`. Nothing is
executed.

Python's `f"{adb_path}"` writes `None` as the text `"None"`. `PathText`
models this, so the operations need no precondition on the path. After
construction the path is always a non-empty string.

`_run` joins the path and the command into one string and
splits it again with `shlex.split`. The as-written vector is `RunArgv`. It
is modelled only for paths without quotes and backslashes, the only case
where that split is plain whitespace splitting. The operations use `Argv`,
the path as its own argument followed by the command's tokens. Each
builder's contract proves that `Argv` equals the as-written `RunArgv`
whenever the path is a single shell word. `RunArgvAgreesIff` proves that it
differs for every other path without quotes or backslashes (see Findings).

## Model

| member | source | states |
|---|---|---|
| `Actions.NewController` | overlay/actions.py:32-35 | The adb path is non-empty afterwards. A truthy path given by the caller is kept. A missing or empty one becomes the PATH lookup result when that is truthy, else `"adb"`. Tap, swipe and duration fields are passed through untouched. A missing config means the defaults (100,100), (100,300), (300,300), 200 |
| `Actions.ConstructionIsIdempotent` | overlay/actions.py:32-35 | Constructing again from an already resolved config changes nothing: the constructor only fills in a missing path |
| `Actions.TapArgs` | overlay/actions.py:43-46 | The vector is `[adb, "shell","input","tap", x, y]`. Each coordinate is the supplied value if there is one, else its own `tap_coords` component. Reading the vector back gives `TapCommand(x, y)`. It equals what `_run`'s split produces when the path is one shell word |
| `Actions.TapPassesCoordinatesThrough` | overlay/actions.py:43-46 | Supplied coordinates reach the process unclamped and read back exactly. A negative x becomes a token starting with '-' |
| `Actions.SwipeArgs` | overlay/actions.py:57-62 | The vector is `[adb, "shell","input","swipe", x1, y1, x2, y2, duration]` in that order. Each of the five values is the supplied one or its own config field (`swipe_start`, `swipe_end`, `swipe_duration_ms`), independently of the others. It reads back as that `SwipeCommand` and agrees with `_run`'s split for a one-word path |
| `Actions.BackArgs` | overlay/actions.py:65-66 | Fixed vector `[adb, "shell","input","keyevent","KEYCODE_BACK"]`, which depends on the path alone. It equals `_run`'s split for a one-word path |
| `Actions.HomeArgs` | overlay/actions.py:69-70 | Fixed vector `[adb, "shell","input","keyevent","KEYCODE_HOME"]`, which depends on the path alone. It equals `_run`'s split for a one-word path |
| `Actions.KeyEventsIgnoreCoordinates` | overlay/actions.py:65-71 | Two configs with the same path give the same back and home vectors whatever their coordinates. Back and home never give the same vector |
| `Actions.Tap` | overlay/actions.py:43-47 | True if and only if the one process started with the tap vector exits with status 0. The vector is the corrected one (`Argv`); it equals `_run`'s split for a one-word path |
| `Actions.Swipe` | overlay/actions.py:49-63 | True if and only if the one process started with the swipe vector exits with status 0. The vector is the corrected one (`Argv`); it equals `_run`'s split for a one-word path |
| `Actions.Back` | overlay/actions.py:65-67 | True if and only if the one process started with the back vector exits with status 0. The vector is the corrected one (`Argv`); it equals `_run`'s split for a one-word path |
| `Actions.Home` | overlay/actions.py:69-71 | True if and only if the one process started with the home vector exits with status 0. The vector is the corrected one (`Argv`); it equals `_run`'s split for a one-word path |
| `Actions.DefaultInvocations` | overlay/actions.py:17-71 | With the default config and no adb on PATH: `tap()` gives `adb shell input tap 100 100`; `swipe()` gives `... swipe 100 300 300 300 200`; `swipe(50,60,70,80,500)` gives `... 50 60 70 80 500`; back and home give their key events |
| `Actions.CommandTextIsJoin` | overlay/actions.py:46-70 | Each command f-string is exactly its tokens joined by single spaces, in the token order |
| `Actions.TokensAreWords` | overlay/actions.py:46-70 | Every token of every command, including rendered integers, is one shell word, so the re-split never breaks or merges them |
| `Actions.RunArgv` | overlay/actions.py:37-41 | As written: the vector `shlex.split(f"{adb_path} {cmd}")`, whose entries are all single words |
| `Actions.RunArgvAgreesIff` | overlay/actions.py:38-40 | For a path without quotes or backslashes, the as-written split gives `[path] + tokens` if and only if the path is a single shell word |
| `Actions.BlankInPathSplits` | overlay/actions.py:38-40 | A path `a + " " + b` reaches the process as the two arguments `a`, `b` ahead of the command's tokens |
| `Actions.SpacedPathIsSplit` | overlay/actions.py:35-40 | Concrete case: path `/opt/android sdk/adb` and `back()` give the vector `["/opt/android", "sdk/adb", "shell", ...]`, not the intended one |
| `Actions.Argv` | overlay/actions.py:37-41 | Corrected vector `[path] + tokens`. Reading it back gives the path and the intent, for every path |
| `Actions.ArgvOfParseArgv` | overlay/actions.py:43-71 | Every vector the reader accepts is `[executable] + tokens` of what it read, so vector and intent determine each other |
| `Actions.ParseCommandOfTokens` | overlay/actions.py:43-71 | Reading the tokens of any intent gives that intent back, so distinct intents never share a command line |
| `Actions.TokensOfParseCommand` | overlay/actions.py:43-71 | Every token list the reader accepts is the rendering of the intent it read |
| `Decimal.IntToString` | overlay/actions.py:46 | The rendering of an int is non-empty and starts with '-' exactly when the int is negative |
| `Decimal.IntToStringChars` | overlay/actions.py:46 | A rendering is decimal digits with at most a leading minus sign |
| `Decimal.ParseIntToString` | overlay/actions.py:46 | Parsing a rendering gives the integer back: no clamping, no fixed width, negatives included (CPython's 4300-digit conversion limit is not modelled, see Left out) |
| `Decimal.ParseIntCanonical` | overlay/actions.py:46-62 | Whatever the parser accepts is the rendering of its value, so every int has exactly one token |
| `Decimal.IntToStringInjective` | overlay/actions.py:46-62 | Distinct integers render to distinct tokens |
| `Decimal.NatToString` | overlay/actions.py:46 | Digits of a natural number: non-empty, decimal digits, no leading zero, and "0" exactly for zero |
| `Decimal.NatToStringValue` | overlay/actions.py:46 | The digits written for n denote n |
| `Decimal.NatToStringOfDigits` | overlay/actions.py:46 | A canonical digit string is the rendering of its own value |
| `Decimal.ParseNumeralsOfNumerals` | overlay/actions.py:46-62 | Parsing a list of rendered integers gives the list back |
| `Decimal.NumeralsOfParseNumerals` | overlay/actions.py:46-62 | A parsed token list is the rendering of the integers parsed |
| `ShellWords.Split` | overlay/actions.py:40 | `shlex.split` on quote- and backslash-free text yields only non-empty words without whitespace |
| `ShellWords.SplitJoin` | overlay/actions.py:38-40 | Splitting the single-space join of shell words gives the words back, in order |
| `ShellWords.JoinSnoc` | overlay/actions.py:38 | Adding a word at the end of a join adds one space and the word |
| `ShellWords.JoinAppend` | overlay/actions.py:38 | Joining two runs of words puts one space between their joins |

## Left out

- Process start, waiting and output capture (`subprocess.run` with `capture_output=True, text=True`, line 41): this is operating-system I/O. The exit status is the abstract `exec` parameter.
- An executable that cannot be started: the source has no `try`/`except` around `subprocess.run`, so Python raises an `OSError` (`FileNotFoundError` for a missing file, `PermissionError` for a non-executable one) rather than returning `false`. The model follows the code and states no "never throws" property. `exec` is total, so an unstartable process is simply not modelled.
- `RunArgv`: it does not model general `shlex.split` (quotes, backslash escapes, `shlex` errors), because that library is foreign code. Paths with quotes or backslashes are outside its precondition. That includes Windows paths such as `C:\platform-tools\adb.exe`, whose backslashes the POSIX-mode split would also drop.
- `Decimal.IntToString`: renders every int. CPython refuses base-10 conversion of an int with more than `sys.get_int_max_str_digits()` digits (4300 by default), so `f"shell input tap {x} {y}"` raises `ValueError` for such an argument before any process starts, and the operation raises instead of returning. The model has no exception path and treats these arguments like any other int.
- Aliasing: `self.config = config or ADBConfig()` keeps the caller's object, so line 35 also writes the caller's `adb_path`. The model returns the resolved configuration as a new value.
- Arguments of other Python types (`bool`, `float`, strings) that the type hints do not enforce: the model takes `int` only.
- Hanging processes and timeouts: the source waits indefinitely, and the model has no notion of time.
- `overlay/window.py` (Qt window, buttons, shortcuts, dragging, colour flash), `main.py` (scrcpy process lifecycle and Qt event loop), `overlay/__init__.py` and `overlay/init.py` (import shims): these are UI, process lifecycle and module plumbing, with no behaviour of the adapter.
- The operations never write the configuration. In the model this holds by construction: every operation is a pure function of the controller, so it is not stated as a separate contract.

## Findings

| source | as written | input that shows it | evidently intended | confidence | as-written member | corrected member |
|---|---|---|---|---|---|---|
| overlay/actions.py:38-40 | the adb path and the command are joined into one string, then split again with `shlex.split` | an adb path from the PATH lookup whose directory name contains a space, e.g. `/opt/android sdk/adb`: `back()` starts `/opt/android` with arguments `sdk/adb shell input keyevent KEYCODE_BACK` | the resolved path is passed as one argument: `[adb_path, "shell", "input", ...]` | high that the split happens for such a path; not executed | `Actions.SpacedPathIsSplit` | `Actions.Argv` |
