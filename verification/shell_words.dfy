/** Splitting a command line into words the way POSIX-mode `shlex.split`
    does on text without quotes or backslashes, and the single-space join an
    f-string performs. On such text shlex only breaks words at runs of its
    whitespace characters and drops empty words. */
module ShellWords {

  /** The characters of `shlex.whitespace`. */
  predicate IsBlank(c: char) {
    c == ' ' || c == '\t' || c == '\r' || c == '\n'
  }

  /** Quote and escape characters: where shlex does more than split on
      whitespace, and which this module does not model. */
  predicate IsSpecial(c: char) {
    c == '\'' || c == '"' || c == '\\'
  }

  /** Text on which splitting is plain whitespace splitting. */
  predicate IsPlain(s: string) {
    forall i :: 0 <= i < |s| ==> !IsSpecial(s[i])
  }

  /** Text that shlex keeps as one word: non-empty, no whitespace, no quote
      or escape character. */
  predicate IsWord(s: string) {
    |s| > 0 && forall i :: 0 <= i < |s| ==> !IsSpecial(s[i]) && !IsBlank(s[i])
  }

  predicate AllWords(words: seq<string>) {
    forall k :: 0 <= k < |words| ==> IsWord(words[k])
  }

  /** The splitter's state: `pending` is the word read so far (empty between
      words); a blank ends a non-empty pending word. */
  function SplitFrom(s: string, pending: string): (words: seq<string>)
    requires IsPlain(s)
    requires pending == "" || IsWord(pending)
    ensures AllWords(words)
    decreases |s|
  {
    if |s| == 0 then
      (if pending == "" then [] else [pending])
    else if IsBlank(s[0]) then
      (if pending == "" then SplitFrom(s[1..], "") else [pending] + SplitFrom(s[1..], ""))
    else
      SplitFrom(s[1..], pending + [s[0]])
  }

  /** `shlex.split(s)` for text without quotes or backslashes. */
  function Split(s: string): (words: seq<string>)
    requires IsPlain(s)
    ensures AllWords(words)
  {
    SplitFrom(s, "")
  }

  /** The words separated by single spaces, as `f"{a} {b}"` builds them. */
  function Join(words: seq<string>): string
  {
    if |words| == 0 then ""
    else if |words| == 1 then words[0]
    else words[0] + " " + Join(words[1..])
  }

  /** Appending a word adds a space and the word at the end. */
  lemma {:induction false} JoinSnoc(words: seq<string>, w: string)
    requires |words| > 0
    ensures Join(words + [w]) == Join(words) + " " + w
    decreases |words|
  {
    if |words| == 1 {
      assert (words + [w])[1..] == [w];
    } else {
      assert (words + [w])[1..] == words[1..] + [w];
      JoinSnoc(words[1..], w);
    }
  }

  /** Joining two non-empty runs of words puts one space between them. */
  lemma {:induction false} JoinAppend(a: seq<string>, b: seq<string>)
    requires |a| > 0 && |b| > 0
    ensures Join(a + b) == Join(a) + " " + Join(b)
    decreases |a|
  {
    if |a| == 1 {
      assert (a + b)[1..] == b;
    } else {
      assert (a + b)[1..] == a[1..] + b;
      JoinAppend(a[1..], b);
    }
  }

  /** Reading a word continues the pending word. */
  lemma {:induction false} SplitThroughWord(w: string, rest: string, pending: string)
    requires w == "" || IsWord(w)
    requires pending == "" || IsWord(pending)
    requires IsPlain(rest)
    ensures IsPlain(w + rest)
    ensures SplitFrom(w + rest, pending) == SplitFrom(rest, pending + w)
    decreases |w|
  {
    if |w| == 0 {
      assert w + rest == rest;
      assert pending + w == pending;
    } else {
      var s := w + rest;
      assert s[0] == w[0] && !IsBlank(s[0]);
      assert s[1..] == w[1..] + rest;
      SplitThroughWord(w[1..], rest, pending + [w[0]]);
      assert pending + [w[0]] + w[1..] == pending + w;
    }
  }

  /** Splitting undoes joining, as long as every part is a single word. */
  lemma {:induction false} SplitJoin(words: seq<string>)
    requires AllWords(words)
    ensures IsPlain(Join(words))
    ensures Split(Join(words)) == words
    decreases |words|
  {
    if |words| == 0 {
    } else if |words| == 1 {
      SplitThroughWord(words[0], "", "");
      assert words[0] + "" == words[0];
      assert "" + words[0] == words[0];
      assert SplitFrom("", words[0]) == [words[0]];
    } else {
      var rest := Join(words[1..]);
      assert AllWords(words[1..]);
      SplitJoin(words[1..]);
      SplitThroughWord(words[0], " " + rest, "");
      assert words[0] + " " + rest == words[0] + (" " + rest);
      assert "" + words[0] == words[0];
      assert (" " + rest)[0] == ' ' && (" " + rest)[1..] == rest;
      assert SplitFrom(" " + rest, words[0]) == [words[0]] + SplitFrom(rest, "");
      assert words == [words[0]] + words[1..];
    }
  }

  /** Text without quotes or backslashes stays so when concatenated. */
  lemma PlainConcat(a: string, b: string)
    requires IsPlain(a) && IsPlain(b)
    ensures IsPlain(a + b)
  {
    var s := a + b;
    forall i | 0 <= i < |s|
      ensures !IsSpecial(s[i])
    {
      if i >= |a| {
        assert s[i] == b[i - |a|];
      }
    }
  }
}
