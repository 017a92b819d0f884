/** The string operations of the Rust standard library that the core relies
    on: `char::is_whitespace`, `str::trim`, `str::trim_end_matches`,
    `str::split`, `[String]::join`, ASCII lower-casing, `u16::from_str` and
    the decimal rendering of `{}`. Strings are sequences of Unicode scalar
    values, as Rust's `str` is when read char by char. */
module Text {
  import opened Wrappers
  import opened Ints

  // ---------------------------------------------------------------------
  // Whitespace and trimming
  // ---------------------------------------------------------------------

  /** `char::is_whitespace`: the characters with the Unicode White_Space
      property. */
  predicate IsWhitespace(c: char) {
    || ('\U{0009}' <= c <= '\U{000D}')
    || c == ' '
    || c == '\U{0085}'
    || c == '\U{00A0}'
    || c == '\U{1680}'
    || ('\U{2000}' <= c <= '\U{200A}')
    || c == '\U{2028}'
    || c == '\U{2029}'
    || c == '\U{202F}'
    || c == '\U{205F}'
    || c == '\U{3000}'
  }

  predicate AllWhitespace(s: string) {
    forall i :: 0 <= i < |s| ==> IsWhitespace(s[i])
  }

  /** `str::trim_start`: drops the longest all-whitespace prefix. */
  function TrimStart(s: string): (r: string)
    ensures |r| <= |s| && r == s[|s| - |r|..]
    ensures forall i :: 0 <= i < |s| - |r| ==> IsWhitespace(s[i])
    ensures r != [] ==> !IsWhitespace(r[0])
  {
    if s != [] && IsWhitespace(s[0]) then
      var r := TrimStart(s[1..]);
      assert s[1..][|s| - 1 - |r|..] == s[|s| - |r|..];
      r
    else s
  }

  /** `str::trim_end`: drops the longest all-whitespace suffix. */
  function TrimEnd(s: string): (r: string)
    ensures |r| <= |s| && r == s[..|r|]
    ensures forall i :: |r| <= i < |s| ==> IsWhitespace(s[i])
    ensures r != [] ==> !IsWhitespace(r[|r| - 1])
  {
    if s != [] && IsWhitespace(s[|s| - 1]) then TrimEnd(s[..|s| - 1]) else s
  }

  /** `s` neither starts nor ends with whitespace. */
  predicate Trimmed(s: string) {
    s != [] ==> !IsWhitespace(s[0]) && !IsWhitespace(s[|s| - 1])
  }

  /** `str::trim`: the text between the leading and trailing whitespace. */
  function Trim(s: string): (r: string)
    ensures Trimmed(r)
    ensures |r| <= |s|
  {
    var t := TrimStart(s);
    var r := TrimEnd(t);
    TrimBounds(s, t, r);
    r
  }

  lemma TrimBounds(s: string, t: string, r: string)
    requires t == TrimStart(s) && r == TrimEnd(t)
    ensures r == [] <==> AllWhitespace(s)
    ensures Trimmed(r)
    ensures |r| <= |s|
  {
    var p := |s| - |t|;
    if r != [] {
      assert r[0] == t[0] == s[p];
    }
  }

  /** The trim is empty exactly when the input holds whitespace only. */
  lemma TrimEmptyIffWhitespace(s: string)
    ensures Trim(s) == [] <==> AllWhitespace(s)
  {
    TrimBounds(s, TrimStart(s), TrimEnd(TrimStart(s)));
  }

  /** A string with no surrounding whitespace is its own trim. */
  lemma {:induction false} TrimOfTrimmed(s: string)
    requires Trimmed(s)
    ensures Trim(s) == s
  {
    assert TrimStart(s) == s;
  }

  /** `str::trim_end_matches(c)` for a single character `c`. */
  function TrimEndMatches(s: string, c: char): (r: string)
    ensures |r| <= |s| && r == s[..|r|]
    ensures forall i :: |r| <= i < |s| ==> s[i] == c
    ensures r != [] ==> r[|r| - 1] != c
  {
    if s != [] && s[|s| - 1] == c then TrimEndMatches(s[..|s| - 1], c) else s
  }

  /** Appending the trimmed character does not change the result. */
  lemma {:induction false} TrimEndMatchesAppend(s: string, c: char)
    ensures TrimEndMatches(s + [c], c) == TrimEndMatches(s, c)
  {
    assert (s + [c])[..|s + [c]| - 1] == s;
  }

  // ---------------------------------------------------------------------
  // Splitting and joining
  // ---------------------------------------------------------------------

  /** The position of the first occurrence of `c` in `s`. */
  function FirstIndex(s: string, c: char): (k: nat)
    requires c in s
    ensures k < |s| && s[k] == c && c !in s[..k]
  {
    if s[0] == c then 0
    else
      assert s == [s[0]] + s[1..];
      var k := FirstIndex(s[1..], c);
      assert s[..k + 1] == [s[0]] + s[1..][..k];
      k + 1
  }

  /** `[String]::join(sep)`. */
  function Join(xs: seq<string>, sep: string): string {
    if |xs| == 0 then []
    else if |xs| == 1 then xs[0]
    else xs[0] + sep + Join(xs[1..], sep)
  }

  /** `str::split(sep)` for a single character: the maximal separator-free
      pieces, always at least one, that join back to the input. */
  function Split(s: string, sep: char): (r: seq<string>)
    ensures |r| >= 1
    ensures forall i :: 0 <= i < |r| ==> sep !in r[i]
    ensures Join(r, [sep]) == s
    decreases |s|
  {
    if sep !in s then [s]
    else
      var k := FirstIndex(s, sep);
      var rest := Split(s[k + 1..], sep);
      assert s == s[..k] + [sep] + s[k + 1..];
      [s[..k]] + rest
  }

  /** The first piece of a split is the text before the first separator. */
  lemma SplitHead(s: string, sep: char)
    ensures Split(s, sep)[0] == if sep in s then s[..FirstIndex(s, sep)] else s
  {
  }

  lemma {:induction false} FirstIndexOfJoin(a: string, b: string, c: char)
    requires c !in a
    ensures c in a + [c] + b && FirstIndex(a + [c] + b, c) == |a|
  {
    var s := a + [c] + b;
    assert s[|a|] == c;
    var k := FirstIndex(s, c);
    assert k <= |a| by {
      assert forall j :: 0 <= j < k ==> s[..k][j] == s[j];
    }
    assert k >= |a| by {
      assert forall j :: 0 <= j < |a| ==> s[j] == a[j];
    }
  }

  /** Splitting a join recovers the pieces when none contains the separator. */
  lemma {:induction false} SplitJoin(xs: seq<string>, c: char)
    requires |xs| >= 1
    requires forall i :: 0 <= i < |xs| ==> c !in xs[i]
    ensures Split(Join(xs, [c]), c) == xs
  {
    if |xs| == 1 {
      assert Join(xs, [c]) == xs[0];
    } else {
      var tail := Join(xs[1..], [c]);
      var s := xs[0] + [c] + tail;
      assert Join(xs, [c]) == s;
      FirstIndexOfJoin(xs[0], tail, c);
      assert s[..|xs[0]|] == xs[0];
      assert s[|xs[0]| + 1..] == tail;
      assert Split(s, c) == [xs[0]] + Split(tail, c);
      SplitJoin(xs[1..], c);
      assert xs == [xs[0]] + xs[1..];
    }
  }

  /** Offset at which piece `i` starts inside `Join(xs, sep)`. */
  function PieceOffset(xs: seq<string>, sep: string, i: nat): nat
    requires i <= |xs|
  {
    if i == 0 then 0 else |xs[0]| + |sep| + PieceOffset(xs[1..], sep, i - 1)
  }

  lemma SliceAfterPrefix(a: string, b: string, i: nat, j: nat)
    requires i <= j <= |b|
    ensures (a + b)[|a| + i..|a| + j] == b[i..j]
  {
  }

  /** Every piece of a join sits, unchanged, at its offset: the joined text
      is the pieces in order with `sep` between neighbours. */
  lemma {:induction false} JoinPieceAt(xs: seq<string>, sep: string, i: nat)
    requires i < |xs|
    ensures PieceOffset(xs, sep, i) + |xs[i]| <= |Join(xs, sep)|
    ensures Join(xs, sep)[PieceOffset(xs, sep, i)..PieceOffset(xs, sep, i) + |xs[i]|] == xs[i]
  {
    if |xs| == 1 {
      assert Join(xs, sep)[0..|xs[0]|] == xs[0];
    } else if i == 0 {
      assert Join(xs, sep) == xs[0] + (sep + Join(xs[1..], sep));
    } else {
      var rest := Join(xs[1..], sep);
      var head := xs[0] + sep;
      assert Join(xs, sep) == head + rest;
      JoinPieceAt(xs[1..], sep, i - 1);
      var o := PieceOffset(xs[1..], sep, i - 1);
      assert xs[1..][i - 1] == xs[i];
      SliceAfterPrefix(head, rest, o, o + |xs[i]|);
    }
  }

  // ---------------------------------------------------------------------
  // Case
  // ---------------------------------------------------------------------

  /** Lower-casing of one character, for the ASCII letters. */
  function LowerAscii(c: char): char {
    if 'A' <= c <= 'Z' then (c as int + 32) as char else c
  }

  /** `str::to_lowercase`, restricted to ASCII letters. */
  function ToLower(s: string): (r: string)
    ensures |r| == |s|
    ensures forall i :: 0 <= i < |s| ==> r[i] == LowerAscii(s[i])
  {
    if s == [] then [] else [LowerAscii(s[0])] + ToLower(s[1..])
  }

  /** Equality up to ASCII case, character by character. */
  predicate EqualsIgnoreCase(a: string, b: string) {
    |a| == |b| && forall i :: 0 <= i < |a| ==> LowerAscii(a[i]) == LowerAscii(b[i])
  }

  // ---------------------------------------------------------------------
  // Decimal numbers
  // ---------------------------------------------------------------------

  predicate IsDigit(c: char) {
    '0' <= c <= '9'
  }

  predicate AllDigits(s: string) {
    forall i :: 0 <= i < |s| ==> IsDigit(s[i])
  }

  function DigitValue(c: char): nat
    requires IsDigit(c)
  {
    c as int - '0' as int
  }

  function DigitChar(d: nat): (c: char)
    requires d < 10
    ensures IsDigit(c) && DigitValue(c) == d
  {
    (d + '0' as int) as char
  }

  /** The value of a string of decimal digits, most significant first. */
  function DigitsValue(s: string): nat
    requires AllDigits(s)
  {
    if s == [] then 0 else DigitsValue(s[..|s| - 1]) * 10 + DigitValue(s[|s| - 1])
  }

  /** The digits after an optional leading `+`, as `from_str_radix` reads
      them for an unsigned type. */
  function UnsignedDigits(s: string): string {
    if |s| > 0 && s[0] == '+' then s[1..] else s
  }

  /** `u16::from_str`: an optional `+`, then one or more ASCII digits whose
      value fits in 16 bits; anything else (the empty string, a lone `+`, a
      `-`, a space, an overflow) is an error. */
  function ParseU16(s: string): (r: Option<U16>)
    ensures r.Some? ==>
              var d := UnsignedDigits(s);
              d != [] && AllDigits(d) && DigitsValue(d) == r.value
    ensures r.None? ==>
              var d := UnsignedDigits(s);
              d == [] || !AllDigits(d) || DigitsValue(d) > U16_MAX
  {
    var d := UnsignedDigits(s);
    if d != [] && AllDigits(d) && DigitsValue(d) <= U16_MAX then Some(DigitsValue(d)) else None
  }

  /** The decimal rendering of a natural number, without leading zeros. */
  function NatToString(n: nat): (r: string)
    ensures r != [] && AllDigits(r) && DigitsValue(r) == n
    ensures |r| > 1 ==> r[0] != '0'
  {
    if n < 10 then [DigitChar(n)]
    else
      var prefix := NatToString(n / 10);
      var r := prefix + [DigitChar(n % 10)];
      assert r[..|r| - 1] == prefix;
      r
  }

  /** Rendering a 16-bit number in decimal and parsing it back is the
      identity. */
  lemma ParseU16OfNatToString(n: U16)
    ensures ParseU16(NatToString(n)) == Some(n)
  {
    assert NatToString(n)[0] != '+' by {
      assert IsDigit(NatToString(n)[0]);
    }
  }
}
