/**
 * uniform_int_dist: integers drawn uniformly from [a, b), with the width d = b - a
 * cached in the parameter record (trng/uniform_int_dist.hpp).
 */
module UniformInt {
  import opened Numerics
  import opened Engines
  import opened Text

  /** param_type: the bounds and the cached width. */
  datatype Param = Param(a: int, b: int, d: int)

  /** The cache invariant every constructor and setter of param_type keeps. */
  predicate Consistent(p: Param) {
    p.d == p.b - p.a
  }

  /** `param_type(a, b)`: no check that a < b. */
  function MakeParam(a: int, b: int): (p: Param)
    ensures Consistent(p) && p.a == a && p.b == b
  {
    Param(a, b, b - a)
  }

  /** `param_type()`: a = 0, b = 1, a consistent record with a < b, so it has a support. */
  function DefaultParam(): (p: Param)
    ensures Consistent(p) && p.a < p.b
  {
    Param(0, 1, 1)
  }

  /** The setter `a(a_new)`: replaces a, recomputes d, keeps b. */
  function WithA(p: Param, aNew: int): (r: Param)
    ensures Consistent(r) && r.a == aNew && r.b == p.b
  {
    Param(aNew, p.b, p.b - aNew)
  }

  /** The setter `b(b_new)`: replaces b, recomputes d, keeps a. */
  function WithB(p: Param, bNew: int): (r: Param)
    ensures Consistent(r) && r.a == p.a && r.b == bNew
  {
    Param(p.a, bNew, bNew - p.a)
  }

  /** `operator==` on param_type compares a and b only. */
  predicate ParamEq(p1: Param, p2: Param) {
    p1.a == p2.a && p1.b == p2.b
  }

  /** Comparing a and b only is sound: consistent records with equal bounds are equal. */
  lemma ParamEqIsEquality(p1: Param, p2: Param)
    requires Consistent(p1) && Consistent(p2)
    ensures ParamEq(p1, p2) <==> p1 == p2
  {
  }

  function Min(p: Param): int {
    p.a
  }

  function Max(p: Param): int {
    p.b - 1
  }

  /** `operator()`: `static_cast<int>(d * uniformco(r)) + a`, from one engine word. */
  function Sample(p: Param, w: Word): int {
    Trunc(p.d as real * UniformCo(w)) + p.a
  }

  /** For a < b every draw lies in [min(), max()] = [a, b - 1] (exact arithmetic). */
  lemma SampleInSupport(p: Param, w: Word)
    requires Consistent(p) && p.a < p.b
    ensures Min(p) <= Sample(p, w) <= Max(p)
  {
    var u := UniformCo(w);
    var d := p.d as real;
    var x := d * u;
    assert d - x == d * (1.0 - u);
    PositiveProduct(d, 1.0 - u);
    assert 0.0 <= x < d;
  }

  lemma PositiveProduct(x: real, y: real)
    requires x > 0.0 && y > 0.0
    ensures x * y > 0.0
  {
  }

  function Pdf(p: Param, x: int): real
    requires Consistent(p)
  {
    if x < p.a || x >= p.b then 0.0 else 1.0 / p.d as real
  }

  /** For a < b the pdf is positive exactly on [min(), max()]. */
  lemma PdfPositiveOnSupport(p: Param, x: int)
    requires Consistent(p) && p.a < p.b
    ensures Pdf(p, x) > 0.0 <==> Min(p) <= x <= Max(p)
  {
  }

  function Cdf(p: Param, x: int): real
    requires Consistent(p)
  {
    if x < p.a then 0.0
    else if x >= p.b then 1.0
    else (x - p.a + 1) as real / p.d as real
  }

  /** pdf(lo) + ... + pdf(hi - 1). */
  function PdfSum(p: Param, lo: int, hi: int): real
    requires Consistent(p)
    decreases hi - lo
  {
    if hi <= lo then 0.0 else PdfSum(p, lo, hi - 1) + Pdf(p, hi - 1)
  }

  /** The pdf is 1/(b - a) on [a, b) and 0 elsewhere. */
  lemma PdfValues(p: Param, x: int)
    requires Consistent(p)
    ensures p.a <= x < p.b ==> Pdf(p, x) * (p.b - p.a) as real == 1.0
    ensures !(p.a <= x < p.b) ==> Pdf(p, x) == 0.0
  {
  }

  /** The cdf is the running sum of the pdf from a. */
  lemma {:induction false} CdfIsPdfSum(p: Param, x: int)
    requires Consistent(p) && p.a < p.b
    ensures Cdf(p, x) == PdfSum(p, p.a, x + 1)
    decreases x - p.a
  {
    if x >= p.a {
      CdfIsPdfSum(p, x - 1);
      if x < p.b {
        assert (x - p.a) as real / p.d as real + 1.0 / p.d as real == (x - p.a + 1) as real / p.d as real;
      }
    }
  }

  /** The pdf sums to 1 over the support. */
  lemma PdfSumsToOne(p: Param)
    requires Consistent(p) && p.a < p.b
    ensures PdfSum(p, p.a, p.b) == 1.0
  {
    CdfIsPdfSum(p, p.b - 1);
  }

  /** The cdf lies in [0, 1], is 0 below min(), 1 from max() on, and never decreases. */
  lemma CdfShape(p: Param, x: int, y: int)
    requires Consistent(p) && p.a < p.b
    ensures 0.0 <= Cdf(p, x) <= 1.0
    ensures x < Min(p) ==> Cdf(p, x) == 0.0
    ensures x >= Max(p) ==> Cdf(p, x) == 1.0
    ensures x <= y ==> Cdf(p, x) <= Cdf(p, y)
  {
    var d := p.d as real;
    if p.a <= x < p.b {
      DivMonotone((x - p.a + 1) as real, d, d);
    }
    if x <= y && p.a <= x && y < p.b {
      DivMonotone((x - p.a + 1) as real, (y - p.a + 1) as real, d);
    }
  }

  lemma DivMonotone(x: real, y: real, d: real)
    requires d > 0.0 && x <= y
    ensures x / d <= y / d
  {
    assert y / d - x / d == (y - x) / d;
  }

  // Text form.

  /** `<<` on param_type: `(a b)`. */
  function ParamText(p: Param): string {
    "(" + IntText(p.a) + " " + IntText(p.b) + ")"
  }

  /** `<<` on the distribution: `[uniform_int (a b)]`. */
  function DistText(p: Param): string {
    "[uniform_int " + ParamText(p) + "]"
  }

  /** `>>` on param_type: `(`, an int, ` `, an int, `)`; the record is built only if all of it was read. */
  function ReadParam(s: string): (r: Option<(Param, string)>)
    ensures r.Some? ==> Consistent(r.value.0)
    ensures r.Some? ==> MinInt <= r.value.0.a <= MaxInt && MinInt <= r.value.0.b <= MaxInt
    ensures r.Some? ==> |r.value.1| + 5 <= |s|
  {
    match Expect("(", s)
    case None => None
    case Some(s1) =>
      match ReadInt(s1)
      case None => None
      case Some((a, s2)) =>
        match Expect(" ", s2)
        case None => None
        case Some(s3) =>
          match ReadInt(s3)
          case None => None
          case Some((b, s4)) =>
            match Expect(")", s4)
            case None => None
            case Some(s5) => Some((MakeParam(a, b), s5))
  }

  /** `>>` on the distribution: white space, `[uniform_int `, a param_type, `]`. */
  function ReadDist(s: string): (r: Option<(Param, string)>)
    ensures r.Some? ==> Consistent(r.value.0)
    ensures r.Some? ==> MinInt <= r.value.0.a <= MaxInt && MinInt <= r.value.0.b <= MaxInt
    ensures r.Some? ==> |r.value.1| + 19 <= |s|
  {
    match Expect("[uniform_int ", SkipSpaces(s))
    case None => None
    case Some(s1) =>
      match ReadParam(s1)
      case None => None
      case Some((p, s2)) =>
        match Expect("]", s2)
        case None => None
        case Some(s3) => Some((p, s3))
  }

  lemma ExpectPrefix(lit: string, rest: string)
    ensures Expect(lit, lit + rest) == Some(rest)
  {
    assert (lit + rest)[..|lit|] == lit;
    assert (lit + rest)[|lit|..] == rest;
  }

  /** The steps of ReadParam, for any two texts that read back as a and b. */
  lemma ReadParamSteps(sa: string, sb: string, a: int, b: int, rest: string)
    requires ReadInt(sa + (" " + (sb + (")" + rest)))) == Some((a, " " + (sb + (")" + rest))))
    requires ReadInt(sb + (")" + rest)) == Some((b, ")" + rest))
    ensures ReadParam("(" + (sa + (" " + (sb + (")" + rest))))) == Some((MakeParam(a, b), rest))
  {
    ExpectPrefix("(", sa + (" " + (sb + (")" + rest))));
    ExpectPrefix(" ", sb + (")" + rest));
    ExpectPrefix(")", rest);
  }

  /** Reading back the text of a parameter record yields the same record and leaves the rest. */
  lemma ReadParamText(p: Param, rest: string)
    requires Consistent(p) && MinInt <= p.a <= MaxInt && MinInt <= p.b <= MaxInt
    ensures ReadParam(ParamText(p) + rest) == Some((p, rest))
  {
    var sa, sb := IntText(p.a), IntText(p.b);
    ReadIntText(p.a, " " + (sb + (")" + rest)));
    ReadIntText(p.b, ")" + rest);
    ReadParamSteps(sa, sb, p.a, p.b, rest);
    assert MakeParam(p.a, p.b) == p;
    var t := "(" + (sa + (" " + (sb + (")" + rest))));
    assert ReadParam(t) == Some((p, rest));
    Regroup("(", sa, " ", sb, ")", rest);
    assert ParamText(p) + rest == t;
  }

  /** Concatenation regrouped to the right, for strings the solver need not look into. */
  lemma Regroup(s1: string, s2: string, s3: string, s4: string, s5: string, rest: string)
    ensures s1 + s2 + s3 + s4 + s5 + rest == s1 + (s2 + (s3 + (s4 + (s5 + rest))))
  {
  }

  /** Reading back the text of a distribution yields the same parameters and leaves the rest. */
  lemma ReadDistText(p: Param, rest: string)
    requires Consistent(p) && MinInt <= p.a <= MaxInt && MinInt <= p.b <= MaxInt
    ensures ReadDist(DistText(p) + rest) == Some((p, rest))
  {
    var r2 := "]" + rest;
    var r1 := ParamText(p) + r2;
    assert DistText(p) + rest == "[uniform_int " + r1;
    assert SkipSpaces("[uniform_int " + r1) == "[uniform_int " + r1;
    ExpectPrefix("[uniform_int ", r1);
    ReadParamText(p, r2);
    ExpectPrefix("]", rest);
  }

  /** A distribution object: its parameter record, replaced or updated in place. */
  class UniformIntDist {
    var P: Param

    ghost predicate Valid()
      reads this
    {
      Consistent(P)
    }

    /** `uniform_int_dist(a, b)`. */
    constructor (a: int, b: int)
      ensures Valid() && P.a == a && P.b == b
    {
      P := MakeParam(a, b);
    }

    /** `uniform_int_dist(const param_type &)`. */
    constructor FromParam(p: Param)
      requires Consistent(p)
      ensures Valid() && P == p
    {
      P := p;
    }

    /** `reset()` has nothing to reset. */
    method Reset()
      ensures P == old(P)
    {
    }

    /** `param(p_new)`: replaces the whole record. */
    method SetParam(p: Param)
      requires Consistent(p)
      modifies this
      ensures Valid() && P == p
    {
      P := p;
    }

    /** `a(a_new)`: changes a, keeps b, and keeps the cached width in step. */
    method SetA(aNew: int)
      modifies this
      ensures Valid() && P.a == aNew && P.b == old(P.b)
    {
      P := WithA(P, aNew);
    }

    /** `b(b_new)`: changes b, keeps a, and keeps the cached width in step. */
    method SetB(bNew: int)
      modifies this
      ensures Valid() && P.b == bNew && P.a == old(P.a)
    {
      P := WithB(P, bNew);
    }

    /** `operator==` on distributions: equality of the parameter records. */
    predicate Equals(other: UniformIntDist)
      reads this, other
      ensures Valid() && other.Valid() ==> (Equals(other) <==> P == other.P)
    {
      ParamEq(P, other.P)
    }

    /** `>>` into the distribution: the parameters change only when the whole read succeeds. */
    method Read(input: string) returns (ok: bool)
      modifies this
      ensures ok == ReadDist(input).Some?
      ensures ok ==> Valid() && P == ReadDist(input).value.0
      ensures !ok ==> P == old(P)
    {
      match ReadDist(input)
      case None =>
        ok := false;
      case Some((p, _)) =>
        ok := true;
        P := p;
    }
  }
}
