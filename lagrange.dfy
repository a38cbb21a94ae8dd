/** The value `lagrangeInterpolate` computes (src/lib/secretSharing/sss.ts:59-78),
    written as functions, and the theorem that makes Shamir reconstruction
    work: when the shares lie on a polynomial with no more coefficients than
    there are shares, and their x coordinates are distinct, the interpolated
    value at any point is the polynomial's value there. */
module Lagrange {
  import opened Bytes
  import opened GF256
  import opened Polynomials
  import opened ShareTypes

  // ---------------------------------------------------------------------
  // The computation
  // ---------------------------------------------------------------------

  /** The product of (z - xj), in order, over the shares of ss whose x differs
      from xi: the numerator of the basis polynomial of xi at z, and its
      denominator when z is xi itself. */
  function BasisProduct(z: byte, ss: seq<Share>, xi: byte): byte {
    if |ss| == 0 then 1
    else
      var xj := ss[|ss| - 1].x;
      if xi != xj then Mul(BasisProduct(z, ss[..|ss| - 1], xi), Sub(z, xj))
      else BasisProduct(z, ss[..|ss| - 1], xi)
  }

  /** The denominator is never 0: it multiplies only factors xi - xj with
      xj != xi. */
  lemma {:induction false} DenominatorNonzero(ss: seq<Share>, xi: byte)
    ensures BasisProduct(xi, ss, xi) != 0
    decreases |ss|
  {
    if |ss| > 0 {
      DenominatorNonzero(ss[..|ss| - 1], xi);
      AddCancels(xi, ss[|ss| - 1].x);
    }
  }

  /** What share s contributes at z: its y times numerator over denominator. */
  function Term(z: byte, ss: seq<Share>, s: Share): byte {
    DenominatorNonzero(ss, s.x);
    Mul(s.y, Div(BasisProduct(z, ss, s.x), BasisProduct(s.x, ss, s.x)).value)
  }

  /** The accumulator of the reduce after its first k shares. */
  function PartialSum(z: byte, ss: seq<Share>, k: nat): byte
    requires k <= |ss|
  {
    if k == 0 then 0 else Add(PartialSum(z, ss, k - 1), Term(z, ss, ss[k - 1]))
  }

  /** The interpolated value at z. */
  function Interpolate(z: byte, ss: seq<Share>): byte {
    PartialSum(z, ss, |ss|)
  }

  // ---------------------------------------------------------------------
  // The basis terms at the shares' own points
  // ---------------------------------------------------------------------

  /** At the x of another share, the numerator has the factor 0. */
  lemma {:induction false} BasisProductAtOther(z: byte, ss: seq<Share>, xi: byte, m: nat)
    requires m < |ss| && ss[m].x == z && z != xi
    ensures BasisProduct(z, ss, xi) == 0
    decreases |ss|
  {
    var n := |ss| - 1;
    if m == n {
      AddSelf(z);
      MulZero(BasisProduct(z, ss[..n], xi));
    } else {
      BasisProductAtOther(z, ss[..n], xi, m);
      if xi != ss[n].x {
        MulZero(Sub(z, ss[n].x));
      }
    }
  }

  /** A share's own term at its own x is its y. */
  lemma TermAtOwnPoint(ss: seq<Share>, s: Share)
    ensures Term(s.x, ss, s) == s.y
  {
    var d := BasisProduct(s.x, ss, s.x);
    DenominatorNonzero(ss, s.x);
    var q := Div(d, d).value;
    MulOne(d);
    MulCancels(q, 1, d);
    MulOne(s.y);
  }

  /** A share's term at the x of a share with another x is 0. */
  lemma TermAtOtherPoint(ss: seq<Share>, s: Share, m: nat)
    requires m < |ss| && ss[m].x != s.x
    ensures Term(ss[m].x, ss, s) == 0
  {
    BasisProductAtOther(ss[m].x, ss, s.x, m);
    DenominatorNonzero(ss, s.x);
    MulZero(s.y);
  }

  lemma {:induction false} PartialSumAtPoint(ss: seq<Share>, m: nat, k: nat)
    requires DistinctXs(ss) && m < |ss| && k <= |ss|
    ensures PartialSum(ss[m].x, ss, k) == if m < k then ss[m].y else 0
    decreases k
  {
    if k > 0 {
      PartialSumAtPoint(ss, m, k - 1);
      var s := ss[k - 1];
      if k - 1 == m {
        TermAtOwnPoint(ss, s);
        AddZero(s.y);
      } else {
        TermAtOtherPoint(ss, s, m);
        AddZero(PartialSum(ss[m].x, ss, k - 1));
      }
    }
  }

  /** Interpolation passes through every share when the x coordinates are
      distinct. */
  lemma InterpolateAtPoint(ss: seq<Share>, m: nat)
    requires DistinctXs(ss) && m < |ss|
    ensures Interpolate(ss[m].x, ss) == ss[m].y
  {
    PartialSumAtPoint(ss, m, |ss|);
  }

  // ---------------------------------------------------------------------
  // The interpolated value as a polynomial
  // ---------------------------------------------------------------------

  /** The numerator of the basis of xi as a polynomial in z. */
  function BasisPoly(ss: seq<Share>, xi: byte): (p: Poly)
    ensures 0 < |p| <= |ss| + 1
  {
    if |ss| == 0 then [1]
    else
      var xj := ss[|ss| - 1].x;
      if xi != xj then MulLinear(BasisPoly(ss[..|ss| - 1], xi), xj)
      else BasisPoly(ss[..|ss| - 1], xi)
  }

  /** One of the shares is xi's own, so its basis has at most |ss| coefficients. */
  lemma {:induction false} BasisPolyShort(ss: seq<Share>, xi: byte, k: nat)
    requires k < |ss| && ss[k].x == xi
    ensures |BasisPoly(ss, xi)| <= |ss|
    decreases |ss|
  {
    if k < |ss| - 1 {
      BasisPolyShort(ss[..|ss| - 1], xi, k);
    }
  }

  lemma {:induction false} EvalBasisPoly(ss: seq<Share>, xi: byte, z: byte)
    ensures Eval(BasisPoly(ss, xi), z) == BasisProduct(z, ss, xi)
    decreases |ss|
  {
    if |ss| == 0 {
      EvalAtZero([1]);
      EvalFirst([1], z);
      assert [1][1..] == [];
      MulZero(z);
      AddZero(1);
    } else {
      var n := |ss| - 1;
      EvalBasisPoly(ss[..n], xi, z);
      if xi != ss[n].x {
        EvalMulLinear(BasisPoly(ss[..n], xi), ss[n].x, z);
        MulCommutes(Add(z, ss[n].x), BasisProduct(z, ss[..n], xi));
      }
    }
  }

  /** Share s's term as a polynomial: its basis scaled by y over the denominator. */
  function TermPoly(ss: seq<Share>, s: Share): Poly {
    DenominatorNonzero(ss, s.x);
    Scale(BasisPoly(ss, s.x), Mul(s.y, Inv(BasisProduct(s.x, ss, s.x)).value))
  }

  lemma EvalTermPoly(ss: seq<Share>, s: Share, z: byte)
    ensures Eval(TermPoly(ss, s), z) == Term(z, ss, s)
  {
    var d := BasisProduct(s.x, ss, s.x);
    DenominatorNonzero(ss, s.x);
    var v := Inv(d).value;
    var n := BasisProduct(z, ss, s.x);
    EvalScale(BasisPoly(ss, s.x), Mul(s.y, v), z);
    EvalBasisPoly(ss, s.x, z);
    DivIsMulInverse(n, d);
    MulAssociates(s.y, v, n);
    MulCommutes(v, n);
  }

  /** The first k terms summed as polynomials. */
  function SumPoly(ss: seq<Share>, k: nat): Poly
    requires k <= |ss|
  {
    if k == 0 then [] else AddPoly(SumPoly(ss, k - 1), TermPoly(ss, ss[k - 1]))
  }

  lemma {:induction false} SumPolyShort(ss: seq<Share>, k: nat)
    requires k <= |ss|
    ensures |SumPoly(ss, k)| <= |ss|
    decreases k
  {
    if k > 0 {
      SumPolyShort(ss, k - 1);
      BasisPolyShort(ss, ss[k - 1].x, k - 1);
    }
  }

  /** The first k terms summed as polynomials evaluate to the first k terms
      summed as values. */
  predicate EvalsToPartialSum(ss: seq<Share>, k: nat, z: byte)
    requires k <= |ss|
  {
    Eval(SumPoly(ss, k), z) == PartialSum(z, ss, k)
  }

  lemma {:induction false} EvalSumPoly(ss: seq<Share>, k: nat, z: byte)
    requires k <= |ss|
    ensures EvalsToPartialSum(ss, k, z)
    decreases k
  {
    if k > 0 {
      EvalSumPoly(ss, k - 1, z);
      EvalSumPolyStep(ss, k, z);
    }
  }

  lemma EvalSumPolyStep(ss: seq<Share>, k: nat, z: byte)
    requires 0 < k <= |ss| && EvalsToPartialSum(ss, k - 1, z)
    ensures EvalsToPartialSum(ss, k, z)
  {
    EvalTermPoly(ss, ss[k - 1], z);
    EvalAdd(SumPoly(ss, k - 1), TermPoly(ss, ss[k - 1]), z);
  }

  // ---------------------------------------------------------------------
  // The theorem
  // ---------------------------------------------------------------------

  function Xs(ss: seq<Share>): (xs: seq<byte>)
    ensures |xs| == |ss| && forall i :: 0 <= i < |ss| ==> xs[i] == ss[i].x
  {
    seq(|ss|, i requires 0 <= i < |ss| => ss[i].x)
  }

  /** Shares with distinct x coordinates on a polynomial with at most as many
      coefficients as there are shares interpolate to that polynomial. */
  lemma InterpolationRecovers(p: Poly, ss: seq<Share>, z: byte)
    requires DistinctXs(ss) && |p| <= |ss|
    requires forall i :: 0 <= i < |ss| ==> ss[i].y == Eval(p, ss[i].x)
    ensures Interpolate(z, ss) == Eval(p, z)
  {
    var L := SumPoly(ss, |ss|);
    var D := AddPoly(L, p);
    SumPolyShort(ss, |ss|);
    var xs := Xs(ss);
    forall i | 0 <= i < |xs|
      ensures Eval(D, xs[i]) == 0
    {
      EvalAdd(L, p, xs[i]);
      EvalSumPoly(ss, |ss|, xs[i]);
      InterpolateAtPoint(ss, i);
      AddSelf(ss[i].y);
    }
    ManyRootsVanish(D, xs, z);
    EvalAdd(L, p, z);
    EvalSumPoly(ss, |ss|, z);
    AddCancels(Interpolate(z, ss), Eval(p, z));
  }
}
