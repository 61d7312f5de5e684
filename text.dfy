/**
 * Decimal text of `int` values as `std::ostream <<` writes them and `std::istream >>`
 * reads them back, under the flags the distributions set (decimal, no `skipws`):
 * an optional sign, then a maximal run of digits, failing when no digit follows or
 * the value does not fit in a 32-bit int.
 */
module Text {

  datatype Option<T> = None | Some(value: T)

  const MinInt: int := -0x8000_0000
  const MaxInt: int := 0x7fff_ffff

  predicate IsDigit(c: char) {
    '0' <= c <= '9'
  }

  /** What `std::isspace` accepts in the "C" locale. */
  predicate IsSpace(c: char) {
    c == ' ' || c == '\t' || c == '\n' || c == '\r' || c == '\U{B}' || c == '\U{C}'
  }

  predicate AllDigits(s: string) {
    forall i :: 0 <= i < |s| ==> IsDigit(s[i])
  }

  function DigitChar(k: nat): (c: char)
    requires k < 10
    ensures IsDigit(c) && (c as int) - ('0' as int) == k
  {
    (('0' as int) + k) as char
  }

  /** The decimal digits of n, most significant first, without leading zeros. */
  function NatText(n: nat): (r: string)
    ensures |r| >= 1 && AllDigits(r)
  {
    if n < 10 then [DigitChar(n)] else NatText(n / 10) + [DigitChar(n % 10)]
  }

  /** How `<<` writes an int: a leading '-' for negative values only. */
  function IntText(x: int): (r: string)
    ensures |r| >= 1
  {
    if x < 0 then "-" + NatText(-x) else NatText(x)
  }

  /** The value of a run of decimal digits. */
  function DigitsValue(ds: string): nat
    requires AllDigits(ds)
  {
    if |ds| == 0 then 0
    else DigitsValue(ds[..|ds| - 1]) * 10 + ((ds[|ds| - 1] as int) - ('0' as int))
  }

  /** The length of the run of digits that starts s. */
  function DigitRun(s: string): (k: nat)
    ensures k <= |s| && AllDigits(s[..k])
    ensures k < |s| ==> !IsDigit(s[k])
  {
    if |s| > 0 && IsDigit(s[0]) then
      var k := 1 + DigitRun(s[1..]);
      assert s[..k] == [s[0]] + s[1..][..k - 1];
      k
    else 0
  }

  /** `>> x` for an int: the value read and the text left over, or None on failure. */
  function ReadInt(s: string): (r: Option<(int, string)>)
    ensures r.Some? ==> MinInt <= r.value.0 <= MaxInt && |r.value.1| < |s|
  {
    var signLen := if |s| > 0 && (s[0] == '-' || s[0] == '+') then 1 else 0;
    var body := s[signLen..];
    var k := DigitRun(body);
    if k == 0 then None
    else
      var magnitude: int := DigitsValue(body[..k]);
      var x := if signLen == 1 && s[0] == '-' then -magnitude else magnitude;
      if MinInt <= x <= MaxInt then Some((x, body[k..])) else None
  }

  /** Skips leading white space, as utility::ignore_spaces does. */
  function SkipSpaces(s: string): (r: string)
    ensures |r| <= |s| && r == s[|s| - |r|..]
    ensures forall i :: 0 <= i < |s| - |r| ==> IsSpace(s[i])
    ensures |r| > 0 ==> !IsSpace(r[0])
  {
    if |s| > 0 && IsSpace(s[0]) then
      var r := SkipSpaces(s[1..]);
      assert forall i :: 1 <= i < |s| - |r| ==> s[i] == s[1..][i - 1];
      r
    else s
  }

  /** Expects the literal `lit` at the start of s (utility::delim), giving the rest. */
  function Expect(lit: string, s: string): (r: Option<string>)
    ensures r.Some? ==> lit + r.value == s
    ensures r.None? ==> !(|lit| <= |s| && s[..|lit|] == lit)
  {
    if |lit| <= |s| && s[..|lit|] == lit then Some(s[|lit|..]) else None
  }

  lemma {:induction false} NatTextValue(n: nat)
    ensures DigitsValue(NatText(n)) == n
  {
    if n >= 10 {
      var t := NatText(n);
      assert t[..|t| - 1] == NatText(n / 10);
      NatTextValue(n / 10);
    }
  }

  lemma {:induction false} DigitRunStopsAt(ds: string, rest: string)
    requires AllDigits(ds)
    requires rest == [] || !IsDigit(rest[0])
    ensures DigitRun(ds + rest) == |ds|
  {
    if |ds| > 0 {
      assert (ds + rest)[1..] == ds[1..] + rest;
      DigitRunStopsAt(ds[1..], rest);
    }
  }

  /** Reading back what `<<` wrote gives the same int and leaves the rest untouched. */
  lemma ReadIntText(x: int, rest: string)
    requires MinInt <= x <= MaxInt
    requires rest == [] || !IsDigit(rest[0])
    ensures ReadInt(IntText(x) + rest) == Some((x, rest))
  {
    var m: nat := if x < 0 then -x else x;
    var ds := NatText(m);
    DigitRunStopsAt(ds, rest);
    NatTextValue(m);
    assert (ds + rest)[..|ds|] == ds;
    assert (ds + rest)[|ds|..] == rest;
    if x < 0 {
      assert (("-" + ds) + rest)[1..] == ds + rest;
    }
  }

  /** Reading back what `<<` wrote fails for every value that does not fit an int. */
  lemma ReadIntRejectsOverflow(x: int, rest: string)
    requires x < MinInt || x > MaxInt
    requires rest == [] || !IsDigit(rest[0])
    ensures ReadInt(IntText(x) + rest) == None
  {
    var m: nat := if x < 0 then -x else x;
    var ds := NatText(m);
    DigitRunStopsAt(ds, rest);
    NatTextValue(m);
    assert (ds + rest)[..|ds|] == ds;
    if x < 0 {
      assert (("-" + ds) + rest)[1..] == ds + rest;
    }
  }
}
