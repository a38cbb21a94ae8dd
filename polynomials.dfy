/** Polynomials over GF(2^8), held as coefficient lists with the constant term
    first, the layout `generateShares` gives them
    (src/lib/secretSharing/sss.ts:17).  The module proves what Lagrange
    interpolation needs: evaluation respects addition, scaling and
    multiplication by a linear factor, a root splits off a linear factor, and a
    polynomial with more distinct roots than coefficients vanishes everywhere. */
module Polynomials {
  import opened Bytes
  import opened GF256

  type Poly = seq<byte>

  // ---------------------------------------------------------------------
  // Field identities used below
  // ---------------------------------------------------------------------

  lemma MulZero(a: byte)
    ensures Mul(a, 0) == 0 && Mul(0, a) == 0
  {
  }

  /** Exchanging the middle terms of a sum of four. */
  lemma AddSwapMiddle(a: byte, b: byte, c: byte, d: byte)
    ensures Add(Add(a, b), Add(c, d)) == Add(Add(a, c), Add(b, d))
  {
    AddAssociates(a, b, Add(c, d));
    AddAssociates(b, c, d);
    AddCommutes(b, c);
    AddAssociates(c, b, d);
    AddAssociates(a, c, Add(b, d));
  }

  /** Multiplication by two factors in either order. */
  lemma MulSwap(a: byte, b: byte, c: byte)
    ensures Mul(a, Mul(b, c)) == Mul(b, Mul(a, c))
  {
    MulAssociates(a, b, c);
    MulCommutes(a, b);
    MulAssociates(b, a, c);
  }

  // ---------------------------------------------------------------------
  // Evaluation
  // ---------------------------------------------------------------------

  /** x^m, built one multiplication by x at a time. */
  function Power(x: byte, m: nat): byte {
    if m == 0 then 1 else Mul(Power(x, m - 1), x)
  }

  /** The value of p at x: the sum of p[k] x^k, accumulated from the constant
      term upwards. */
  function Eval(p: Poly, x: byte): byte {
    if |p| == 0 then 0 else Add(Eval(p[..|p| - 1], x), Mul(p[|p| - 1], Power(x, |p| - 1)))
  }

  /** Horner's rule: a polynomial is its constant term plus x times the rest. */
  lemma {:induction false} EvalCons(a: byte, q: Poly, x: byte)
    ensures Eval([a] + q, x) == Add(a, Mul(x, Eval(q, x)))
    decreases |q|
  {
    if |q| == 0 {
      assert ([a] + q)[..0] == [];
      MulOne(a);
      MulZero(x);
      AddZero(a);
    } else {
      var n := |q|;
      var q', l := q[..n - 1], q[n - 1];
      assert ([a] + q)[..n] == [a] + q';
      assert q[..n - 1] == q';
      EvalCons(a, q', x);
      var P := Power(x, n - 1);
      var A, B := Mul(x, Eval(q', x)), Mul(l, Power(x, n));
      MulDistributes(x, Eval(q', x), Mul(l, P));
      MulCommutes(x, Mul(l, P));
      MulAssociates(l, P, x);
      AddAssociates(a, A, B);
    }
  }

  lemma EvalFirst(p: Poly, x: byte)
    requires |p| > 0
    ensures Eval(p, x) == Add(p[0], Mul(x, Eval(p[1..], x)))
  {
    assert p == [p[0]] + p[1..];
    EvalCons(p[0], p[1..], x);
  }

  /** At 0 a polynomial is its constant term, the secret of a sharing. */
  lemma EvalAtZero(p: Poly)
    requires |p| > 0
    ensures Eval(p, 0) == p[0]
  {
    EvalFirst(p, 0);
    MulZero(Eval(p[1..], 0));
    AddZero(p[0]);
  }

  // ---------------------------------------------------------------------
  // Sum, scaling and a linear factor
  // ---------------------------------------------------------------------

  /** The coefficient-wise sum; the shorter list counts as padded with zeros. */
  function AddPoly(p: Poly, q: Poly): (r: Poly)
    ensures |r| == if |p| < |q| then |q| else |p|
  {
    if |p| == 0 then q
    else if |q| == 0 then p
    else [Add(p[0], q[0])] + AddPoly(p[1..], q[1..])
  }

  lemma {:induction false} EvalAdd(p: Poly, q: Poly, x: byte)
    ensures Eval(AddPoly(p, q), x) == Add(Eval(p, x), Eval(q, x))
    decreases |p|
  {
    if |p| == 0 {
      AddZero(Eval(q, x));
    } else if |q| == 0 {
      AddZero(Eval(p, x));
    } else {
      var r := AddPoly(p[1..], q[1..]);
      EvalAdd(p[1..], q[1..], x);
      EvalCons(Add(p[0], q[0]), r, x);
      EvalFirst(p, x);
      EvalFirst(q, x);
      MulDistributes(x, Eval(p[1..], x), Eval(q[1..], x));
      AddSwapMiddle(p[0], q[0], Mul(x, Eval(p[1..], x)), Mul(x, Eval(q[1..], x)));
    }
  }

  /** Every coefficient multiplied by s. */
  function Scale(p: Poly, s: byte): (r: Poly)
    ensures |r| == |p|
  {
    if |p| == 0 then [] else [Mul(s, p[0])] + Scale(p[1..], s)
  }

  lemma {:induction false} EvalScale(p: Poly, s: byte, x: byte)
    ensures Eval(Scale(p, s), x) == Mul(s, Eval(p, x))
    decreases |p|
  {
    if |p| == 0 {
      MulZero(s);
    } else {
      EvalScale(p[1..], s, x);
      EvalCons(Mul(s, p[0]), Scale(p[1..], s), x);
      EvalFirst(p, x);
      MulSwap(x, s, Eval(p[1..], x));
      MulDistributes(s, p[0], Mul(x, Eval(p[1..], x)));
    }
  }

  /** p times (X - c); over GF(2^8), X - c is X + c. */
  function MulLinear(p: Poly, c: byte): (r: Poly)
    ensures |r| == |p| + 1
  {
    AddPoly(Scale(p, c), [0] + p)
  }

  lemma EvalMulLinear(p: Poly, c: byte, x: byte)
    ensures Eval(MulLinear(p, c), x) == Mul(Add(x, c), Eval(p, x))
  {
    EvalAdd(Scale(p, c), [0] + p, x);
    EvalScale(p, c, x);
    EvalCons(0, p, x);
    AddZero(Mul(x, Eval(p, x)));
    MulDistributes(Eval(p, x), x, c);
    AddCommutes(Mul(c, Eval(p, x)), Mul(x, Eval(p, x)));
  }

  // ---------------------------------------------------------------------
  // Synthetic division and roots
  // ---------------------------------------------------------------------

  /** The quotient of p by (X + c). */
  function SynDiv(p: Poly, c: byte): (q: Poly)
    requires |p| > 0
    ensures |q| == |p| - 1
  {
    if |p| == 1 then [] else [Eval(p[1..], c)] + SynDiv(p[1..], c)
  }

  /** In a sum of characteristic 2, a term added twice drops out. */
  lemma AddRegroup(u: byte, v: byte, m: byte, a: byte)
    ensures Add(Add(Add(u, v), m), Add(a, v)) == Add(a, Add(m, u))
  {
    AddAssociates(u, v, m);
    AddCommutes(v, m);
    AddAssociates(u, m, v);
    AddSwapMiddle(Add(u, m), v, a, v);
    AddSelf(v);
    AddZero(Add(Add(u, m), a));
    AddCommutes(Add(u, m), a);
    AddCommutes(u, m);
  }

  /** The remainder theorem: p = (X + c) SynDiv(p, c) + p(c). */
  lemma {:induction false} Factor(p: Poly, c: byte, x: byte)
    requires |p| > 0
    ensures Eval(p, x) == Add(Mul(Add(x, c), Eval(SynDiv(p, c), x)), Eval(p, c))
    decreases |p|
  {
    var L := Add(x, c);
    if |p| == 1 {
      EvalFirst(p, x);
      EvalFirst(p, c);
      assert p[1..] == [];
      MulZero(x);
      MulZero(c);
      MulZero(L);
      AddZero(p[0]);
    } else {
      var a, p' := p[0], p[1..];
      var r', q' := Eval(p', c), SynDiv(p', c);
      var Q' := Eval(q', x);
      Factor(p', c, x);
      EvalFirst(p, x);
      EvalFirst(p, c);
      EvalCons(r', q', x);
      // x p'(x) = x (L Q' + r')
      MulDistributes(x, Mul(L, Q'), r');
      // L (r' + x Q') = L r' + L x Q'
      MulDistributes(L, r', Mul(x, Q'));
      MulDistributes(r', x, c);
      MulCommutes(L, r');
      MulCommutes(x, r');
      MulCommutes(c, r');
      MulSwap(L, x, Q');
      AddRegroup(Mul(x, r'), Mul(c, r'), Mul(x, Mul(L, Q')), a);
      AddCommutes(Mul(x, Mul(L, Q')), Mul(x, r'));
    }
  }

  /** A polynomial with at least as many distinct roots as coefficients is zero
      everywhere. */
  lemma {:induction false} ManyRootsVanish(p: Poly, xs: seq<byte>, z: byte)
    requires |p| <= |xs|
    requires forall i, j :: 0 <= i < j < |xs| ==> xs[i] != xs[j]
    requires forall i :: 0 <= i < |xs| ==> Eval(p, xs[i]) == 0
    ensures Eval(p, z) == 0
    decreases |xs|
  {
    if |p| > 0 {
      var c := xs[0];
      var q := SynDiv(p, c);
      var rest := xs[1..];
      forall i | 0 <= i < |rest|
        ensures Eval(q, rest[i]) == 0
      {
        var w := rest[i];
        assert w == xs[i + 1];
        Factor(p, c, w);
        AddZero(Mul(Add(w, c), Eval(q, w)));
        AddCancels(w, c);
      }
      ManyRootsVanish(q, rest, z);
      Factor(p, c, z);
      MulZero(Add(z, c));
      AddZero(0);
    }
  }
}
