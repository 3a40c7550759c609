/** The parts of java.lang.String that the plugin relies on: `trim()`,
    `endsWith`, and the decimal rendering used by `"UNKNOWN_" + n`. */
module JavaStrings {

  import opened Options

  /** `String.trim()` removes every character whose code is at most U+0020. */
  predicate IsWhite(c: char) {
    c <= ' '
  }

  predicate AllWhite(s: string) {
    forall i :: 0 <= i < |s| ==> IsWhite(s[i])
  }

  /** A string that `trim()` leaves alone: empty, or neither end is white. */
  predicate Trimmed(s: string) {
    s == [] || (!IsWhite(s[0]) && !IsWhite(s[|s| - 1]))
  }

  /** Drops the white prefix; the result is a suffix of `s`. */
  function TrimLeading(s: string): (r: string)
    ensures |r| <= |s| && r == s[|s| - |r|..]
    ensures AllWhite(s[..|s| - |r|])
    ensures r == [] || !IsWhite(r[0])
    decreases |s|
  {
    if |s| > 0 && IsWhite(s[0]) then
      var t := s[1..];
      var r := TrimLeading(t);
      assert s[..|s| - |r|] == [s[0]] + t[..|t| - |r|];
      r
    else s
  }

  /** Drops the white suffix; the result is a prefix of `s`. */
  function TrimTrailing(s: string): (r: string)
    ensures |r| <= |s| && r == s[..|r|]
    ensures AllWhite(s[|r|..])
    ensures r == [] || !IsWhite(r[|r| - 1])
    decreases |s|
  {
    if |s| > 0 && IsWhite(s[|s| - 1]) then
      var t := s[..|s| - 1];
      var r := TrimTrailing(t);
      assert s[|r|..] == t[|r|..] + [s[|s| - 1]];
      r
    else s
  }

  /** Java's `s.trim()`. */
  function Trim(s: string): (r: string)
    ensures Trimmed(r)
    ensures |r| <= |s|
  {
    var t := TrimLeading(s);
    var r := TrimTrailing(t);
    assert r == [] || !IsWhite(r[0]) by {
      if r != [] {
        assert r[0] == t[0];
      }
    }
    r
  }

  /** Java's `s.endsWith(suffix)`. */
  predicate EndsWith(s: string, suffix: string) {
    |suffix| <= |s| && s[|s| - |suffix|..] == suffix
  }

  /** Java's `s.startsWith(prefix)`. */
  predicate StartsWith(s: string, prefix: string) {
    |prefix| <= |s| && s[..|prefix|] == prefix
  }

  /** A text whose first character differs from the prefix's does not
      start with it. */
  lemma DiffersAtStart(s: string, prefix: string)
    requires |s| > 0 && |prefix| > 0 && s[0] != prefix[0]
    ensures !StartsWith(s, prefix)
  {
    if |prefix| <= |s| {
      assert s[..|prefix|][0] == s[0];
    }
  }

  lemma {:induction false} TrimLeadingSkipsWhite(w: string, s: string)
    requires AllWhite(w)
    requires s == [] || !IsWhite(s[0])
    ensures TrimLeading(w + s) == s
    decreases |w|
  {
    if w == [] {
      assert w + s == s;
    } else {
      assert (w + s)[1..] == w[1..] + s;
      TrimLeadingSkipsWhite(w[1..], s);
    }
  }

  lemma {:induction false} TrimTrailingSkipsWhite(s: string, w: string)
    requires AllWhite(w)
    requires s == [] || !IsWhite(s[|s| - 1])
    ensures TrimTrailing(s + w) == s
    decreases |w|
  {
    if w == [] {
      assert s + w == s;
    } else {
      assert (s + w)[..|s + w| - 1] == s + w[..|w| - 1];
      TrimTrailingSkipsWhite(s, w[..|w| - 1]);
    }
  }

  /** `trim()` is fully characterised: whatever white padding surrounds a
      trimmed core, the core is what comes back. */
  lemma TrimRemovesPadding(w1: string, core: string, w2: string)
    requires AllWhite(w1) && AllWhite(w2) && Trimmed(core)
    ensures Trim(w1 + core + w2) == core
  {
    if core == [] {
      assert w1 + core + w2 == w1 + w2;
      assert AllWhite(w1 + w2);
      TrimLeadingSkipsWhite(w1 + w2, []);
      assert w1 + w2 + [] == w1 + w2;
    } else {
      assert w1 + core + w2 == w1 + (core + w2);
      TrimLeadingSkipsWhite(w1, core + w2);
      TrimTrailingSkipsWhite(core, w2);
    }
  }

  /** A string without padding is its own trim. */
  lemma TrimOfTrimmed(s: string)
    requires Trimmed(s)
    ensures Trim(s) == s
  {
    TrimRemovesPadding([], s, []);
    assert [] + s + [] == s;
  }

  /** `trim()` is idempotent. */
  lemma TrimIdempotent(s: string)
    ensures Trim(Trim(s)) == Trim(s)
  {
    TrimOfTrimmed(Trim(s));
  }

  function Digit(d: nat): (c: char)
    requires d < 10
    ensures '0' <= c <= '9'
  {
    "0123456789"[d]
  }

  function DigitValue(c: char): (d: nat)
    requires '0' <= c <= '9'
    ensures d < 10
  {
    (c as int - '0' as int) as nat
  }

  predicate IsDigits(s: string) {
    |s| > 0 && forall i :: 0 <= i < |s| ==> '0' <= s[i] <= '9'
  }

  /** Decimal digits of a non-negative number, most significant first. */
  function DecimalDigits(n: nat): (r: string)
    ensures IsDigits(r)
    decreases n
  {
    if n < 10 then [Digit(n)] else DecimalDigits(n / 10) + [Digit(n % 10)]
  }

  /** Java's `Integer.toString(n)`, the text `"UNKNOWN_" + n` appends. */
  function IntToString(n: int): (r: string)
    ensures |r| > 0
    ensures r[0] == '-' <==> n < 0
  {
    if n < 0 then "-" + DecimalDigits(-n) else DecimalDigits(n)
  }

  /** Reads back a non-empty run of decimal digits. */
  function ParseDigits(s: string): nat
    requires IsDigits(s)
    decreases |s|
  {
    if |s| == 1 then DigitValue(s[0])
    else ParseDigits(s[..|s| - 1]) * 10 + DigitValue(s[|s| - 1])
  }

  /** Reads back an optionally negative decimal number. */
  function ParseInt(s: string): Option<int> {
    if |s| > 0 && s[0] == '-' then
      if IsDigits(s[1..]) then Some(-(ParseDigits(s[1..]) as int)) else None
    else if IsDigits(s) then Some(ParseDigits(s))
    else None
  }

  lemma {:induction false} ParseDecimalDigits(n: nat)
    ensures ParseDigits(DecimalDigits(n)) == n
    decreases n
  {
    var s := DecimalDigits(n);
    if n < 10 {
      assert "0123456789"[n] as int - '0' as int == n;
    } else {
      assert s[..|s| - 1] == DecimalDigits(n / 10);
      ParseDecimalDigits(n / 10);
      var d := n % 10;
      assert "0123456789"[d] as int - '0' as int == d;
    }
  }

  /** A run of digits reads back as itself. */
  lemma ParseIntOfDigits(s: string)
    requires IsDigits(s)
    ensures ParseInt(s) == Some(ParseDigits(s) as int)
  {
    assert '0' <= s[0] <= '9';
  }

  /** A minus sign before a run of digits negates it. */
  lemma ParseIntOfNegated(digits: string)
    requires IsDigits(digits)
    ensures ParseInt("-" + digits) == Some(-(ParseDigits(digits) as int))
  {
    var s := "-" + digits;
    assert s[0] == '-';
    assert s[1..] == digits;
  }

  /** The digits of a non-negative number read back to it. */
  lemma NonNegativeRoundTrip(m: nat)
    ensures ParseInt(IntToString(m)) == Some(m)
  {
    assert IntToString(m) == DecimalDigits(m);
    ParseIntOfDigits(DecimalDigits(m));
    ParseDecimalDigits(m);
  }

  /** A minus sign before the digits of a number reads back to its negation. */
  lemma NegativeRoundTrip(m: nat)
    requires m > 0
    ensures ParseInt(IntToString(-(m as int))) == Some(-(m as int))
  {
    assert IntToString(-(m as int)) == "-" + DecimalDigits(m);
    ParseIntOfNegated(DecimalDigits(m));
    ParseDecimalDigits(m);
  }

  /** Integer rendering is inverted by ParseInt, hence injective. */
  lemma ParseIntToString(n: int)
    ensures ParseInt(IntToString(n)) == Some(n)
  {
    if n < 0 {
      NegativeRoundTrip(-n);
    } else {
      NonNegativeRoundTrip(n);
    }
  }
}
