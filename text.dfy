/**
 * The handful of Python string operations the converter and the scanners rely on:
 * `str.lower`, `startswith`/`endswith`, the substring test `w in f`, `str.strip`,
 * `";".join` and `str(int)`. `Split` and `ParseDecimal` are not used by the programs: they
 * are this model's inverses of the last two, there to state what the joined codec column
 * and a printed stream number determine.
 */
module Text {
  import opened Options

  // ---------------------------------------------------------------------------
  // Case

  /** `str.lower` on one character, restricted to ASCII letters. */
  function LowerChar(c: char): char {
    if 'A' <= c <= 'Z' then (c as int + 32) as char else c
  }

  /** `str.lower`: every character lowered, nothing added or removed. */
  function Lower(s: string): (r: string)
    ensures |r| == |s|
    ensures forall k :: 0 <= k < |s| ==> r[k] == LowerChar(s[k])
    ensures forall k :: 0 <= k < |r| ==> !('A' <= r[k] <= 'Z')
  {
    if s == [] then [] else [LowerChar(s[0])] + Lower(s[1..])
  }

  // ---------------------------------------------------------------------------
  // Prefixes, suffixes, substrings

  predicate StartsWith(s: string, prefix: string) {
    |prefix| <= |s| && s[..|prefix|] == prefix
  }

  predicate EndsWith(s: string, suffix: string) {
    |suffix| <= |s| && s[|s| - |suffix|..] == suffix
  }

  /** Python's `w in s` for strings: `w` occurs somewhere in `s` as a contiguous piece. */
  predicate Contains(s: string, w: string) {
    exists i :: 0 <= i <= |s| && StartsWith(s[i..], w)
  }

  // ---------------------------------------------------------------------------
  // Whitespace and `str.strip`

  /** The characters for which Python's `str.isspace` holds. */
  predicate IsSpace(c: char) {
    || c == ' ' || '\t' <= c <= '\r' || '\U{1C}' <= c <= '\U{1F}'
    || c == '\U{85}' || c == '\U{A0}' || c == '\U{1680}' || '\U{2000}' <= c <= '\U{200A}'
    || c == '\U{2028}' || c == '\U{2029}' || c == '\U{202F}' || c == '\U{205F}' || c == '\U{3000}'
  }

  /**
   * `str.strip()`: leading and trailing whitespace removed; the result neither starts nor
   * ends with whitespace (StripPadding says what was removed).
   */
  function Strip(s: string): (r: string)
    ensures r == [] || (!IsSpace(r[0]) && !IsSpace(r[|r| - 1]))
  {
    if s != [] && IsSpace(s[0]) then Strip(s[1..])
    else if s != [] && IsSpace(s[|s| - 1]) then Strip(s[..|s| - 1])
    else s
  }

  /**
   * What `str.strip()` removes is exactly a run of leading and a run of trailing whitespace:
   * the result is the piece of `s` between them.
   */
  lemma {:induction false} StripPadding(s: string)
    ensures exists lo :: PaddedAt(s, lo, Strip(s))
  {
    var r := Strip(s);
    if s != [] && IsSpace(s[0]) {
      StripPadding(s[1..]);
      var lo :| PaddedAt(s[1..], lo, r);
      PaddedAfterSpace(s, lo, r);
    } else if s != [] && IsSpace(s[|s| - 1]) {
      StripPadding(s[..|s| - 1]);
      var lo :| PaddedAt(s[..|s| - 1], lo, r);
      PaddedBeforeSpace(s, lo, r);
    } else {
      assert PaddedAt(s, 0, r);
    }
  }

  lemma PaddedAfterSpace(s: string, lo: int, r: string)
    requires s != [] && IsSpace(s[0]) && PaddedAt(s[1..], lo, r)
    ensures PaddedAt(s, lo + 1, r)
  {
    assert r == s[1..][lo..lo + |r|] == s[lo + 1..lo + 1 + |r|];
    assert forall k :: 1 <= k < |s| ==> s[k] == s[1..][k - 1];
  }

  lemma PaddedBeforeSpace(s: string, lo: int, r: string)
    requires s != [] && IsSpace(s[|s| - 1]) && PaddedAt(s[..|s| - 1], lo, r)
    ensures PaddedAt(s, lo, r)
  {
    assert r == s[..|s| - 1][lo..lo + |r|] == s[lo..lo + |r|];
    assert forall k :: 0 <= k < |s| - 1 ==> s[k] == s[..|s| - 1][k];
  }

  /** `r` sits in `s` at offset `lo` with only whitespace before and after it. */
  predicate PaddedAt(s: string, lo: int, r: string) {
    && 0 <= lo <= |s| - |r| && r == s[lo..lo + |r|]
    && (forall k :: 0 <= k < lo ==> IsSpace(s[k]))
    && (forall k :: lo + |r| <= k < |s| ==> IsSpace(s[k]))
  }

  // ---------------------------------------------------------------------------
  // `sep.join(xs)` and `s.split(sep)`

  /** Python's `sep.join(xs)` for a one-character separator (SplitJoin is its inverse). */
  function Join(sep: char, xs: seq<string>): (r: string)
    ensures xs == [] ==> r == ""
    ensures |xs| == 1 ==> r == xs[0]
    ensures xs != [] ==> StartsWith(r, xs[0]) && EndsWith(r, xs[|xs| - 1])
  {
    if xs == [] then ""
    else if |xs| == 1 then xs[0]
    else xs[0] + [sep] + Join(sep, xs[1..])
  }

  /** `s.split(sep)`: the pieces between separators, always at least one. */
  function Split(s: string, sep: char): (r: seq<string>)
    ensures |r| >= 1
  {
    if s == [] then [""]
    else
      var rest := Split(s[1..], sep);
      if s[0] == sep then [""] + rest else [[s[0]] + rest[0]] + rest[1..]
  }

  lemma {:induction false} SplitNoSeparator(x: string, sep: char)
    requires sep !in x
    ensures Split(x, sep) == [x]
  {
    if x != [] {
      SplitNoSeparator(x[1..], sep);
      assert [x[0]] + x[1..] == x;
    }
  }

  lemma {:induction false} SplitAfterPiece(x: string, sep: char, y: string)
    requires sep !in x
    ensures Split(x + [sep] + y, sep) == [x] + Split(y, sep)
  {
    if x == [] {
      assert x + [sep] + y == [sep] + y;
      assert ([sep] + y)[1..] == y;
    } else {
      var s := x + [sep] + y;
      assert s[0] == x[0] && s[1..] == x[1..] + [sep] + y;
      SplitAfterPiece(x[1..], sep, y);
      assert [x[0]] + x[1..] == x;
    }
  }

  /**
   * Splitting a join gives the pieces back, provided there was at least one piece and no
   * piece contains the separator.
   */
  lemma {:induction false} SplitJoin(sep: char, xs: seq<string>)
    requires xs != []
    requires forall k :: 0 <= k < |xs| ==> sep !in xs[k]
    ensures Split(Join(sep, xs), sep) == xs
  {
    if |xs| == 1 {
      SplitNoSeparator(xs[0], sep);
    } else {
      SplitJoin(sep, xs[1..]);
      SplitAfterPiece(xs[0], sep, Join(sep, xs[1..]));
      assert [xs[0]] + xs[1..] == xs;
    }
  }

  // ---------------------------------------------------------------------------
  // `str(n)` for integers, and reading it back

  predicate IsDigit(c: char) {
    '0' <= c <= '9'
  }

  function DigitChar(d: nat): (c: char)
    requires d < 10
    ensures IsDigit(c) && c as int - '0' as int == d
  {
    ('0' as int + d) as char
  }

  /** Decimal digits of a natural number, most significant first, with no leading zero. */
  function NatToDecimal(n: nat): (r: string)
    ensures r != []
    ensures forall k :: 0 <= k < |r| ==> IsDigit(r[k])
    ensures |r| > 1 ==> r[0] != '0'
  {
    if n < 10 then [DigitChar(n)] else NatToDecimal(n / 10) + [DigitChar(n % 10)]
  }

  /** `str(n)`: a minus sign exactly for negative numbers, then the digits. */
  function Decimal(n: int): (r: string)
    ensures r != []
    ensures r[0] == '-' <==> n < 0
  {
    if n < 0 then "-" + NatToDecimal(-n) else NatToDecimal(n)
  }

  /** The value of a string of decimal digits. */
  function DigitsValue(s: string): nat
    requires forall k :: 0 <= k < |s| ==> IsDigit(s[k])
  {
    if s == [] then 0
    else
      assert IsDigit(s[|s| - 1]);
      DigitsValue(s[..|s| - 1]) * 10 + (s[|s| - 1] as int - '0' as int)
  }

  /** The inverse of `str(n)`: an optional minus sign and one or more digits, read as a number. */
  function ParseDecimal(s: string): Option<int> {
    if s != [] && s[0] == '-' then
      if |s| >= 2 && forall k :: 1 <= k < |s| ==> IsDigit(s[k]) then Some(0 - DigitsValue(s[1..]) as int) else None
    else if s != [] && forall k :: 0 <= k < |s| ==> IsDigit(s[k]) then Some(DigitsValue(s))
    else None
  }

  lemma {:induction false} NatToDecimalValue(n: nat)
    ensures DigitsValue(NatToDecimal(n)) == n
  {
    if n >= 10 {
      NatToDecimalValue(n / 10);
      var r := NatToDecimal(n);
      assert r[..|r| - 1] == NatToDecimal(n / 10);
    }
  }

  /** `str(n)` read back is `n`. */
  lemma DecimalRoundTrip(n: int)
    ensures ParseDecimal(Decimal(n)) == Some(n)
  {
    if n < 0 {
      NatToDecimalValue(-n);
      assert Decimal(n)[1..] == NatToDecimal(-n);
    } else {
      NatToDecimalValue(n);
    }
  }

  /** Different numbers print differently, so different streams get different specifiers. */
  lemma DecimalInjective(m: int, n: int)
    requires m != n
    ensures Decimal(m) != Decimal(n)
  {
    DecimalRoundTrip(m);
    DecimalRoundTrip(n);
  }
}
