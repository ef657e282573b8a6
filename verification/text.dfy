/** The pieces of Python and database string behaviour the core relies on:
    case-insensitive comparison (`name__iexact`), `str.strip()` as applied by
    a DRF `CharField`, and the decimal rendering of integers and of
    two-place `Decimal` amounts held as integer cents. */
module Text {

  // ---------------------------------------------------------------------------
  // Case folding

  /** Upper-cases the Latin letters and the basic Cyrillic alphabet (with Ё);
      every other character is left alone. This is the `UPPER(...)` the
      database applies on both sides of an `iexact` comparison. */
  function FoldChar(c: char): (u: char)
  {
    if 'a' <= c <= 'z' then (c as int - 32) as char
    else if '\U{430}' <= c <= '\U{44F}' then (c as int - 32) as char
    else if c == '\U{451}' then '\U{401}'
    else c
  }

  function Fold(s: string): (r: string)
    ensures |r| == |s|
    ensures forall i :: 0 <= i < |s| ==> r[i] == FoldChar(s[i])
  {
    seq(|s|, i requires 0 <= i < |s| => FoldChar(s[i]))
  }

  /** Case-insensitive equality of two names, as `name__iexact` decides it. */
  predicate SameFolded(a: string, b: string)
  {
    Fold(a) == Fold(b)
  }

  /** Folding twice is folding once, so `SameFolded` is an equivalence on names. */
  lemma FoldIdempotent(s: string)
    ensures Fold(Fold(s)) == Fold(s)
  {
  }

  lemma SameFoldedTransitive(a: string, b: string, c: string)
    requires SameFolded(a, b) && SameFolded(b, c)
    ensures SameFolded(a, c)
  {
  }

  // ---------------------------------------------------------------------------
  // Whitespace trimming (`str.strip()`)

  /** The characters for which Python's `str.isspace()` holds. */
  predicate IsSpace(c: char)
  {
    c == ' ' || '\t' <= c <= '\r' || '\U{1C}' <= c <= '\U{1F}'
    || c == '\U{85}' || c == '\U{A0}' || c == '\U{1680}'
    || '\U{2000}' <= c <= '\U{200A}' || c == '\U{2028}' || c == '\U{2029}'
    || c == '\U{202F}' || c == '\U{205F}' || c == '\U{3000}'
  }

  /** Every character of `t` is whitespace. */
  predicate AllSpace(t: string)
  {
    forall i :: 0 <= i < |t| ==> IsSpace(t[i])
  }

  /** Drops the leading whitespace: the result is a suffix of `s`, everything
      dropped is whitespace, and the result does not start with whitespace. */
  function TrimStart(s: string): (r: string)
    ensures |r| <= |s| && r == s[|s| - |r|..]
    ensures AllSpace(s[..|s| - |r|])
    ensures r == [] || !IsSpace(r[0])
  {
    if s != [] && IsSpace(s[0]) then
      var r := TrimStart(s[1..]);
      assert s[..|s| - |r|] == [s[0]] + s[1..][..|s| - 1 - |r|];
      r
    else s
  }

  /** Drops the trailing whitespace: the result is a prefix of `s`, everything
      dropped is whitespace, and the result does not end with whitespace. */
  function TrimEnd(s: string): (r: string)
    ensures |r| <= |s| && r == s[..|r|]
    ensures AllSpace(s[|r|..])
    ensures r == [] || !IsSpace(r[|r| - 1])
  {
    if s != [] && IsSpace(s[|s| - 1]) then
      var r := TrimEnd(s[..|s| - 1]);
      assert s[|r|..] == s[..|s| - 1][|r|..] + [s[|s| - 1]];
      r
    else s
  }

  /** `str.strip()`: no whitespace is left on either end, and the result is
      empty exactly when `s` is nothing but whitespace. `StripCutsSpace`
      adds that what is cut off is whitespace and nothing else. */
  function Strip(s: string): (r: string)
    ensures |r| <= |s|
    ensures r == [] <==> forall i :: 0 <= i < |s| ==> IsSpace(s[i])
    ensures r != [] ==> !IsSpace(r[0]) && !IsSpace(r[|r| - 1])
  {
    var t := TrimStart(s);
    var r := TrimEnd(t);
    assert t != [] ==> !IsSpace(s[|s| - |t|]) by {
      if t != [] { assert s[|s| - |t|] == t[0]; }
    }
    r
  }

  /** `Strip(s)` is `s` with whitespace cut off its two ends and nothing
      else: `s` is some whitespace, then `Strip(s)`, then some whitespace.
      With the ends `Strip` guarantees, this fixes the result uniquely. */
  lemma StripCutsSpace(s: string) returns (front: string, back: string)
    ensures AllSpace(front) && AllSpace(back)
    ensures s == front + Strip(s) + back
  {
    var t := TrimStart(s);
    var a, k := |s| - |t|, |TrimEnd(t)|;
    front, back := s[..a], t[k..];
    SplitAt(s, a);
    SplitAt(t, k);
    assert Strip(s) + back == t;
    JoinAssociates(front, Strip(s), back);
  }

  /** Joining three strings does not depend on which join comes first. */
  lemma JoinAssociates(x: string, y: string, z: string)
    ensures x + y + z == x + (y + z)
  {
  }

  /** Cutting a string at `k` and joining the halves gives it back. */
  lemma SplitAt(t: string, k: nat)
    requires k <= |t|
    ensures t == t[..k] + t[k..]
  {
  }

  /** A string with no whitespace at either end is its own `strip()`. */
  lemma StripUnpadded(s: string)
    requires s != [] && !IsSpace(s[0]) && !IsSpace(s[|s| - 1])
    ensures Strip(s) == s
  {
  }

  // ---------------------------------------------------------------------------
  // Decimal rendering

  predicate IsDigit(c: char)
  {
    '0' <= c <= '9'
  }

  predicate AllDigits(s: string)
  {
    forall i :: 0 <= i < |s| ==> IsDigit(s[i])
  }

  function Digit(d: nat): (c: char)
    requires d < 10
    ensures IsDigit(c) && c as int - '0' as int == d
  {
    (d + '0' as int) as char
  }

  /** The number a string of decimal digits denotes (most significant first). */
  function DigitsValue(s: string): nat
    requires AllDigits(s)
  {
    if s == [] then 0
    else 10 * DigitsValue(s[..|s| - 1]) + (s[|s| - 1] as int - '0' as int)
  }

  /** `str(n)` for a non-negative integer: decimal digits, no leading zero. */
  function DecimalString(n: nat): (s: string)
    ensures |s| >= 1 && AllDigits(s)
    ensures |s| > 1 ==> s[0] != '0'
  {
    if n < 10 then [Digit(n)] else DecimalString(n / 10) + [Digit(n % 10)]
  }

  /** Reading the rendered digits back gives the number. */
  lemma {:induction false} DecimalStringRoundTrip(n: nat)
    ensures DigitsValue(DecimalString(n)) == n
  {
    if n >= 10 {
      var s := DecimalString(n / 10);
      DecimalStringRoundTrip(n / 10);
      assert (s + [Digit(n % 10)])[..|s|] == s;
    }
  }

  /** `str(d)` for a `Decimal` with two decimal places held as `cents`:
      the whole units, a point, then exactly two digits. */
  function CentsString(cents: nat): (s: string)
    ensures |s| >= 4 && s[|s| - 3] == '.'
    ensures AllDigits(s[..|s| - 3]) && AllDigits(s[|s| - 2..])
  {
    DecimalString(cents / 100) + "." + [Digit(cents % 100 / 10), Digit(cents % 10)]
  }

  /** The units before the point and the two digits after it give the amount back. */
  lemma CentsStringRoundTrip(cents: nat)
    ensures var s := CentsString(cents);
      DigitsValue(s[..|s| - 3]) * 100 + DigitsValue(s[|s| - 2..]) == cents
  {
    var u := DecimalString(cents / 100);
    var s := CentsString(cents);
    assert s[..|s| - 3] == u;
    DecimalStringRoundTrip(cents / 100);
    var f := s[|s| - 2..];
    assert f == [Digit(cents % 100 / 10), Digit(cents % 10)];
    assert f[..1] == [Digit(cents % 100 / 10)];
    assert DigitsValue(f[..1][..0]) == 0;
  }
}
