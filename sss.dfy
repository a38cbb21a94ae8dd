/** Shamir's secret sharing of one byte (src/lib/secretSharing/sss.ts):
    generating shares on a random polynomial whose constant term is the
    secret, evaluating it, Lagrange interpolation at 0 and the checks that
    guard both directions. */
module Sss {
  import opened Errors
  import opened Bytes
  import opened GF256
  import opened Polynomials
  import opened ShareTypes
  import opened Lagrange

  const FINITE_FIELD_ORDER: int := 256

  // ---------------------------------------------------------------------
  // Generation
  // ---------------------------------------------------------------------

  /** The guard run before generating: the secret must be a field element,
      the threshold between 2 and the share count, and the share count
      below 255 (255 itself is rejected, so every index i + 1 is a nonzero
      byte).  The first failed check decides the error. */
  function ValidateGenerationParams(secret: int, threshold: int, numShares: int): (r: Result<byte>)
    ensures r.Ok? <==> 0 <= secret <= 255 && 2 <= threshold <= numShares < FINITE_FIELD_ORDER - 1
    ensures r.Ok? ==> r.value == secret
    ensures !(0 <= secret <= 255) ==> r == Err(GF256RangeError)
    ensures 0 <= secret <= 255 && (threshold < 2 || threshold > numShares) ==>
              r == Err(RangeError(ThresholdOutOfRange))
    ensures 0 <= secret <= 255 && 2 <= threshold <= numShares && numShares >= FINITE_FIELD_ORDER - 1 ==>
              r == Err(RangeError(ShareCountOutOfRange))
  {
    var s :- CheckRange(secret);
    if threshold < 2 || threshold > numShares then Err(RangeError(ThresholdOutOfRange))
    else if numShares < 2 || numShares >= FINITE_FIELD_ORDER - 1 then Err(RangeError(ShareCountOutOfRange))
    else Ok(s)
  }

  /** The sharing polynomial: the secret as constant term, then `degree`
      coefficients taken from the random source `draw`, in order. */
  function Coefficients(secret: byte, degree: nat, draw: nat -> byte): (c: Poly)
    ensures |c| == degree + 1 && c[0] == secret
  {
    [secret] + seq(degree, (k: int) requires 0 <= k => draw(k))
  }

  /** numShares shares of `secret`, any `threshold` of which recover it:
      share i is the point (i + 1, p(i + 1)) of the polynomial p of
      Coefficients(secret, threshold - 1, draw), so no generated share has
      x = 0. */
  function GenerateShares(secret: int, threshold: int, numShares: int, draw: nat -> byte): (r: Result<seq<Share>>)
    ensures r.Ok? <==> ValidateGenerationParams(secret, threshold, numShares).Ok?
    ensures r.Err? ==> r.error == ValidateGenerationParams(secret, threshold, numShares).error
    ensures r.Ok? ==> |r.value| == numShares && DistinctXs(r.value)
    ensures r.Ok? ==> forall i :: 0 <= i < numShares ==>
              r.value[i].x == i + 1 && r.value[i].x != 0 &&
              r.value[i].y == Eval(Coefficients(secret, threshold - 1, draw), i + 1)
  {
    match ValidateGenerationParams(secret, threshold, numShares)
    case Err(e) => Err(e)
    case Ok(s) =>
      var c := Coefficients(s, threshold - 1, draw);
      Ok(seq(numShares, i requires 0 <= i < numShares => Share(i + 1, Eval(c, i + 1))))
  }

  /** The loop of evalPolynomialAt: the sum of coefficient times power of x,
      the power kept in `term` and raised once per coefficient. */
  method EvalPolynomialAt(coefficients: Poly, x: byte) returns (y: byte)
    ensures y == Eval(coefficients, x)
  {
    y := 0;
    var term: byte := 1;
    var k := 0;
    while k < |coefficients|
      invariant 0 <= k <= |coefficients|
      invariant y == Eval(coefficients[..k], x)
      invariant term == Power(x, k)
    {
      EvalGrows(coefficients, k, x);
      y := Add(y, Mul(coefficients[k], term));
      term := Mul(term, x);
      k := k + 1;
    }
    assert coefficients[..k] == coefficients;
  }

  /** One more coefficient in evalPolynomialAt's sum. */
  lemma EvalGrows(p: Poly, k: nat, x: byte)
    requires k < |p|
    ensures Eval(p[..k + 1], x) == Add(Eval(p[..k], x), Mul(p[k], Power(x, k)))
  {
    assert p[..k + 1][..k] == p[..k];
  }

  // ---------------------------------------------------------------------
  // Reconstruction
  // ---------------------------------------------------------------------

  /** The nested loops of lagrangeInterpolate: for each share (xi, yi), in
      order, the products over the other shares of x - xj and xi - xj, and
      the accumulated sum of yi times their quotient. */
  method LagrangeInterpolate(x: byte, shares: seq<Share>) returns (value: byte)
    ensures value == Interpolate(x, shares)
  {
    value := 0;
    var i := 0;
    while i < |shares|
      invariant 0 <= i <= |shares|
      invariant value == PartialSum(x, shares, i)
    {
      var xi, yi := shares[i].x, shares[i].y;
      var numerator: byte := 1;
      var denominator: byte := 1;
      var j := 0;
      while j < |shares|
        invariant 0 <= j <= |shares|
        invariant numerator == BasisProduct(x, shares[..j], xi)
        invariant denominator == BasisProduct(xi, shares[..j], xi)
      {
        BasisProductGrows(x, shares, j, xi);
        BasisProductGrows(xi, shares, j, xi);
        var xj := shares[j].x;
        if xi != xj {
          numerator := Mul(numerator, Sub(x, xj));
          denominator := Mul(denominator, Sub(xi, xj));
        }
        j := j + 1;
      }
      assert shares[..j] == shares;
      DenominatorNonzero(shares, xi);
      var term := Mul(yi, Div(numerator, denominator).value);
      value := Add(value, term);
      i := i + 1;
    }
  }

  /** One more share in the products of lagrangeInterpolate's inner loop. */
  lemma BasisProductGrows(z: byte, ss: seq<Share>, j: nat, xi: byte)
    requires j < |ss|
    ensures BasisProduct(z, ss[..j + 1], xi) ==
              if xi != ss[j].x then Mul(BasisProduct(z, ss[..j], xi), Sub(z, ss[j].x))
              else BasisProduct(z, ss[..j], xi)
  {
    assert ss[..j + 1][..j] == ss[..j];
  }

  /** reconstructSecret: too few shares and repeated (x, y) pairs are
      errors; otherwise the first `threshold` shares are interpolated at 0.
      A threshold read from a header is a byte, so the contract gives the
      value only for a non-negative threshold; a negative one, which
      `slice` would count from the back, is left unspecified. */
  function ReconstructSecret(shares: seq<Share>, threshold: int): (r: Result<byte>)
    ensures |shares| < threshold ==> r == Err(PlainError(InsufficientShares))
    ensures |shares| >= threshold && !NoRepeatedShares(shares) ==> r == Err(PlainError(SharesNotUnique))
    ensures r.Ok? <==> |shares| >= threshold && NoRepeatedShares(shares)
    ensures r.Ok? && threshold >= 0 ==> r.value == Interpolate(0, shares[..threshold])
  {
    if |shares| < threshold then Err(PlainError(InsufficientShares))
    else if !SharesAreUnique(shares) then Err(PlainError(SharesNotUnique))
    else Ok(Interpolate(0, shares[..RelativeIndex(|shares|, threshold)]))
  }

  // ---------------------------------------------------------------------
  // The uniqueness check
  // ---------------------------------------------------------------------

  /** No share occurs twice: the meaning of sharesAreUnique. */
  predicate NoRepeatedShares(ss: seq<Share>) {
    forall i, j :: 0 <= i < j < |ss| ==> ss[i] != ss[j]
  }

  /** The decimal digits of n, as JavaScript prints a non-negative integer. */
  function Decimal(n: nat): (s: string)
    ensures 0 < |s| && (n >= 10 <==> |s| >= 2)
    ensures forall k :: 0 <= k < |s| ==> '0' <= s[k] <= '9'
  {
    if n < 10 then [Digit(n)] else Decimal(n / 10) + [Digit(n % 10)]
  }

  function Digit(d: nat): (c: char)
    requires d < 10
    ensures '0' <= c <= '9'
  {
    ['0', '1', '2', '3', '4', '5', '6', '7', '8', '9'][d]
  }

  lemma DigitInjective(a: nat, b: nat)
    requires a < 10 && b < 10 && Digit(a) == Digit(b)
    ensures a == b
  {
  }

  /** Different numbers print differently. */
  lemma {:induction false} DecimalInjective(a: nat, b: nat)
    requires Decimal(a) == Decimal(b)
    ensures a == b
    decreases a
  {
    var s := Decimal(a);
    if a < 10 {
      DigitInjective(a, b);
    } else {
      var n := |s| - 1;
      assert s[..n] == Decimal(a / 10) == Decimal(b / 10);
      assert s[n] == Digit(a % 10) == Digit(b % 10);
      DecimalInjective(a / 10, b / 10);
      DigitInjective(a % 10, b % 10);
    }
  }

  /** The Set key of a share: "`x`-`y`".  Its only dash separates the
      decimal x, before it, from the decimal y, after it. */
  function Key(s: Share): (k: string)
    ensures |k| == |Decimal(s.x)| + 1 + |Decimal(s.y)|
    ensures k[..|Decimal(s.x)|] == Decimal(s.x) && k[|Decimal(s.x)| + 1..] == Decimal(s.y)
    ensures forall i :: 0 <= i < |k| ==> (k[i] == '-' <==> i == |Decimal(s.x)|)
  {
    Decimal(s.x) + "-" + Decimal(s.y)
  }

  /** In digits, a dash and digits, the only dash is right after the first
      digits. */
  lemma DashAt(u: string, w: string, k: nat)
    requires forall i :: 0 <= i < |u| ==> '0' <= u[i] <= '9'
    requires forall i :: 0 <= i < |w| ==> '0' <= w[i] <= '9'
    requires k < |u + "-" + w| && (u + "-" + w)[k] == '-'
    ensures k == |u|
  {
  }

  /** Since decimals hold no '-', the key determines the share. */
  lemma KeyInjective(s: Share, t: Share)
    requires Key(s) == Key(t)
    ensures s == t
  {
    var u, v := Decimal(s.x), Decimal(t.x);
    assert Key(t)[|u|] == '-';
    DashAt(v, Decimal(t.y), |u|);
    assert u == Key(s)[..|u|] == Key(t)[..|u|] == v;
    assert Decimal(s.y) == Key(s)[|u| + 1..] == Key(t)[|u| + 1..] == Decimal(t.y);
    DecimalInjective(s.x, t.x);
    DecimalInjective(s.y, t.y);
  }

  /** The Set built from the keys of the shares, one share at a time: it
      holds the key of every share, and no more keys than shares;
      `KeySetIsKeys` shows it holds nothing else. */
  function KeySet(ss: seq<Share>): (keys: set<string>)
    ensures forall s :: s in ss ==> Key(s) in keys
    ensures |keys| <= |ss|
  {
    if |ss| == 0 then {} else KeySet(ss[..|ss| - 1]) + {Key(ss[|ss| - 1])}
  }

  /** The image of a list of shares grows by the image of its last share. */
  lemma ImageOfAppend(ss: seq<Share>, f: Share -> string)
    requires |ss| > 0
    ensures (set s | s in ss :: f(s)) == (set s | s in ss[..|ss| - 1] :: f(s)) + {f(ss[|ss| - 1])}
  {
    var n := |ss| - 1;
    assert ss == ss[..n] + [ss[n]];
  }

  /** The Set is exactly the set of the shares' keys: nothing else is in it. */
  lemma {:induction false} KeySetIsKeys(ss: seq<Share>)
    ensures KeySet(ss) == set s | s in ss :: Key(s)
    decreases |ss|
  {
    if |ss| > 0 {
      KeySetIsKeys(ss[..|ss| - 1]);
      ImageOfAppend(ss, Key);
    }
  }

  /** sharesAreUnique: the Set of keys is as large as the list, which is
      the case exactly when no (x, y) pair repeats. */
  predicate SharesAreUnique(ss: seq<Share>): (unique: bool)
    ensures unique <==> NoRepeatedShares(ss)
  {
    KeySetSizeIff(ss);
    |KeySet(ss)| == |ss|
  }

  lemma {:induction false} KeySetMembers(ss: seq<Share>, s: Share)
    ensures Key(s) in KeySet(ss) <==> s in ss
    decreases |ss|
  {
    if |ss| > 0 {
      var n := |ss| - 1;
      KeySetMembers(ss[..n], s);
      if Key(s) == Key(ss[n]) {
        KeyInjective(s, ss[n]);
      }
      assert ss == ss[..n] + [ss[n]];
    }
  }

  /** Appending a share adds a key exactly when the share is new. */
  lemma KeySetGrows(ss: seq<Share>)
    requires |ss| > 0
    ensures |KeySet(ss)| == |KeySet(ss[..|ss| - 1])| + if ss[|ss| - 1] in ss[..|ss| - 1] then 0 else 1
  {
    var n := |ss| - 1;
    var A, k := KeySet(ss[..n]), Key(ss[n]);
    KeySetMembers(ss[..n], ss[n]);
    assert KeySet(ss) == A + {k};
    if k in A {
      assert A + {k} == A;
    } else {
      assert |A + {k}| == |A| + 1;
    }
  }

  /** A list has no repeats when its front has none and its last share is new. */
  lemma NoRepeatsGrow(ss: seq<Share>)
    requires |ss| > 0
    ensures NoRepeatedShares(ss) <==>
              NoRepeatedShares(ss[..|ss| - 1]) && ss[|ss| - 1] !in ss[..|ss| - 1]
  {
    var n := |ss| - 1;
    var p := ss[..n];
    if ss[n] in p {
      var i :| 0 <= i < n && p[i] == ss[n];
      assert ss[i] == ss[n];
    } else if !NoRepeatedShares(p) {
      var i, j :| 0 <= i < j < n && p[i] == p[j];
      assert ss[i] == ss[j];
    } else {
      forall i, j | 0 <= i < j < |ss|
        ensures ss[i] != ss[j]
      {
        assert ss[i] == p[i];
        if j < n {
          assert ss[j] == p[j];
        }
      }
    }
  }

  /** The key Set has one key per share exactly when no share repeats. */
  lemma {:induction false} KeySetSizeIff(ss: seq<Share>)
    ensures |KeySet(ss)| <= |ss|
    ensures |KeySet(ss)| == |ss| <==> NoRepeatedShares(ss)
    decreases |ss|
  {
    if |ss| > 0 {
      KeySetSizeIff(ss[..|ss| - 1]);
      KeySetGrows(ss);
      NoRepeatsGrow(ss);
    }
  }

  // ---------------------------------------------------------------------
  // The scheme recovers the secret
  // ---------------------------------------------------------------------

  /** Any `threshold` or more distinct shares of one generation, in any
      order, reconstruct the secret. */
  lemma ReconstructRecovers(secret: int, threshold: int, numShares: int, draw: nat -> byte, picked: seq<Share>)
    requires GenerateShares(secret, threshold, numShares, draw).Ok?
    requires forall i :: 0 <= i < |picked| ==> picked[i] in GenerateShares(secret, threshold, numShares, draw).value
    requires NoRepeatedShares(picked) && |picked| >= threshold
    ensures ReconstructSecret(picked, threshold) == Ok(secret)
  {
    var all := GenerateShares(secret, threshold, numShares, draw).value;
    var c := Coefficients(secret, threshold - 1, draw);
    var sub := picked[..threshold];
    forall i, j | 0 <= i < j < |sub|
      ensures sub[i].x != sub[j].x
    {
      var a :| 0 <= a < |all| && all[a] == sub[i];
      var b :| 0 <= b < |all| && all[b] == sub[j];
      assert sub[i] == picked[i] && sub[j] == picked[j];
    }
    forall i | 0 <= i < |sub|
      ensures sub[i].y == Eval(c, sub[i].x)
    {
      var a :| 0 <= a < |all| && all[a] == sub[i];
    }
    InterpolationRecovers(c, sub, 0);
    EvalAtZero(c);
  }

  /** Only the first `threshold` shares are interpolated: shares appended
      after them change nothing, as long as no share repeats. */
  lemma ReconstructIgnoresLaterShares(shares: seq<Share>, more: seq<Share>, threshold: int)
    requires 0 <= threshold <= |shares|
    requires NoRepeatedShares(shares + more)
    ensures ReconstructSecret(shares + more, threshold) == ReconstructSecret(shares, threshold)
  {
    assert (shares + more)[..threshold] == shares[..threshold];
    assert forall i, j :: 0 <= i < j < |shares| ==> shares[i] == (shares + more)[i] && shares[j] == (shares + more)[j];
  }

  /** All the shares of a generation reconstruct its secret. */
  lemma GenerateThenReconstruct(secret: int, threshold: int, numShares: int, draw: nat -> byte)
    requires GenerateShares(secret, threshold, numShares, draw).Ok?
    ensures ReconstructSecret(GenerateShares(secret, threshold, numShares, draw).value, threshold) == Ok(secret)
  {
    var all := GenerateShares(secret, threshold, numShares, draw).value;
    ReconstructRecovers(secret, threshold, numShares, draw, all);
  }

  /** The uniqueness check compares whole (x, y) pairs: two shares with one x
      and different y pass it, and reconstruction then returns a value
      rather than an error. */
  lemma ConflictingSharesAccepted()
    ensures ReconstructSecret([Share(1, 5), Share(1, 7)], 2).Ok?
  {
    var ss := [Share(1, 5), Share(1, 7)];
    assert ss[0] != ss[1];
    assert NoRepeatedShares(ss);
  }
}
