/** Decimal rendering of integers as Python's `str(int)` (and so an f-string
    `{x}` field) writes them, and the parser that inverts it. */
module Decimal {
  import opened Optional

  predicate IsDigit(c: char) {
    '0' <= c <= '9'
  }

  predicate AllDigits(s: string) {
    forall i :: 0 <= i < |s| ==> IsDigit(s[i])
  }

  function DigitValue(c: char): (d: nat)
    requires IsDigit(c)
    ensures d < 10
  {
    c as int - '0' as int
  }

  function DigitChar(d: nat): (c: char)
    requires d < 10
    ensures IsDigit(c) && DigitValue(c) == d
    ensures c == '0' <==> d == 0
  {
    ('0' as int + d) as char
  }

  /** The digit strings Python produces for a non-negative int: non-empty,
      decimal digits only, and no leading zero except for "0" itself. */
  predicate IsCanonical(s: string) {
    |s| > 0 && AllDigits(s) && (s[0] == '0' ==> |s| == 1)
  }

  /** Value of a string of decimal digits, most significant first. */
  function DigitsValue(s: string): nat
    requires AllDigits(s)
  {
    if |s| == 0 then 0 else DigitsValue(s[..|s| - 1]) * 10 + DigitValue(s[|s| - 1])
  }

  /** Decimal digits of a non-negative integer. */
  function NatToString(n: nat): (s: string)
    ensures IsCanonical(s)
    ensures s[0] == '0' <==> n == 0
    decreases n
  {
    if n < 10 then [DigitChar(n)] else NatToString(n / 10) + [DigitChar(n % 10)]
  }

  /** The digits denote the number they were written for. */
  lemma {:induction false} NatToStringValue(n: nat)
    ensures DigitsValue(NatToString(n)) == n
    decreases n
  {
    if n >= 10 {
      var s := NatToString(n);
      assert s[..|s| - 1] == NatToString(n / 10);
      NatToStringValue(n / 10);
    }
  }

  /** `str(n)`: a minus sign for negative numbers, then the digits of |n|.
      No clamping and no width. CPython's digit limit for base-10
      conversion is not modelled: here every int has a rendering. */
  function IntToString(n: int): (s: string)
    ensures |s| > 0
    ensures s[0] == '-' <==> n < 0
  {
    if n < 0 then "-" + NatToString(-n) else NatToString(n)
  }

  /** Parsing a rendering gives back the integer: nothing is lost, clamped
      or wrapped, negative values included. */
  lemma ParseIntToString(n: int)
    ensures ParseInt(IntToString(n)) == Some(n)
  {
    if n < 0 {
      var s := IntToString(n);
      assert s[1..] == NatToString(-n);
      NatToStringValue(-n);
    } else {
      NatToStringValue(n);
    }
  }

  /** A rendering is digits, with at most a leading minus sign. */
  lemma IntToStringChars(n: int)
    ensures var s := IntToString(n);
      forall i :: 0 <= i < |s| ==> IsDigit(s[i]) || (i == 0 && s[i] == '-')
  {
    if n < 0 {
      var s := IntToString(n);
      forall i | 0 < i < |s|
        ensures IsDigit(s[i])
      {
        assert s[i] == NatToString(-n)[i - 1];
      }
    }
  }

  /** `int(s)` restricted to the renderings `str` produces: canonical digits,
      optionally preceded by '-' when the magnitude is not zero. Anything
      else (empty, "+1", "007", "-0", " 1") is rejected. */
  function ParseInt(s: string): (r: Option<int>)
    ensures r.Some? ==> |s| > 0
  {
    if IsCanonical(s) then Some(DigitsValue(s))
    else if |s| >= 2 && s[0] == '-' && IsCanonical(s[1..]) && s[1] != '0' then
      Some(0 - DigitsValue(s[1..]) as int)
    else None
  }

  /** Canonical digit strings are exactly the renderings of their value. */
  lemma {:induction false} NatToStringOfDigits(s: string)
    requires IsCanonical(s)
    ensures NatToString(DigitsValue(s)) == s
    decreases |s|
  {
    var last := s[|s| - 1];
    if |s| == 1 {
      assert DigitsValue(s) == DigitValue(last) by {
        assert s[..0] == "";
      }
      assert DigitChar(DigitValue(last)) == last;
    } else {
      var init := s[..|s| - 1];
      assert IsCanonical(init);
      NatToStringOfDigits(init);
      var v := DigitsValue(init);
      // init does not start with '0', so its value is at least 1
      assert NatToString(v)[0] != '0';
      var n := DigitsValue(s);
      assert n == v * 10 + DigitValue(last);
      assert n / 10 == v && n % 10 == DigitValue(last);
      assert DigitChar(DigitValue(last)) == last;
      assert s == init + [last];
    }
  }

  /** The parser accepts only what the renderer writes: a parsed string is
      the rendering of its value, so every integer has exactly one token. */
  lemma ParseIntCanonical(s: string, n: int)
    requires ParseInt(s) == Some(n)
    ensures IntToString(n) == s
  {
    if IsCanonical(s) {
      NatToStringOfDigits(s);
    } else {
      NatToStringOfDigits(s[1..]);
      assert NatToString(-n)[0] != '0';
      assert n < 0;
      assert s == "-" + s[1..];
    }
  }

  /** Distinct integers render to distinct tokens. */
  lemma IntToStringInjective(a: int, b: int)
    requires IntToString(a) == IntToString(b)
    ensures a == b
  {
    ParseIntToString(a);
    ParseIntToString(b);
  }

  /** Each integer of `ns` rendered, in order. */
  function Numerals(ns: seq<int>): (ts: seq<string>)
    ensures |ts| == |ns|
    ensures forall i :: 0 <= i < |ns| ==> ts[i] == IntToString(ns[i])
  {
    if |ns| == 0 then [] else [IntToString(ns[0])] + Numerals(ns[1..])
  }

  /** Parses every token as an integer; fails if any token is not a
      rendering of one. */
  function ParseNumerals(ts: seq<string>): (r: Option<seq<int>>)
    ensures r.Some? ==> |r.value| == |ts|
  {
    if |ts| == 0 then Some([])
    else
      var head, tail := ParseInt(ts[0]), ParseNumerals(ts[1..]);
      if head.Some? && tail.Some? then Some([head.value] + tail.value) else None
  }

  /** Parsing rendered integers gives them back. */
  lemma {:induction false} ParseNumeralsOfNumerals(ns: seq<int>)
    ensures ParseNumerals(Numerals(ns)) == Some(ns)
    decreases |ns|
  {
    if |ns| > 0 {
      var ts := Numerals(ns);
      assert ts[0] == IntToString(ns[0]);
      ParseIntToString(ns[0]);
      assert ts[1..] == Numerals(ns[1..]);
      ParseNumeralsOfNumerals(ns[1..]);
      assert ParseNumerals(ts) == Some([ns[0]] + ns[1..]);
      assert [ns[0]] + ns[1..] == ns;
    }
  }

  /** Whatever parses is the rendering of what it parses to. */
  lemma {:induction false} NumeralsOfParseNumerals(ts: seq<string>, ns: seq<int>)
    requires ParseNumerals(ts) == Some(ns)
    ensures Numerals(ns) == ts
    decreases |ts|
  {
    if |ts| > 0 {
      var n := ParseInt(ts[0]).value;
      var rest := ParseNumerals(ts[1..]).value;
      assert ns == [n] + rest;
      ParseIntCanonical(ts[0], n);
      NumeralsOfParseNumerals(ts[1..], rest);
      assert ns[1..] == rest;
      assert ts == [ts[0]] + ts[1..];
    }
  }
}
