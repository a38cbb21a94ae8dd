/** Bitwise exclusive or on naturals, with the laws the field arithmetic needs. */
module Bitwise {
  /** Bitwise exclusive or of two naturals, the `^` of the library's
      JavaScript on its byte-sized numbers: the low bits differ or not, and
      the remaining bits are combined the same way. */
  function Xor(a: nat, b: nat): nat
    decreases a + b
  {
    if a == 0 && b == 0 then 0
    else 2 * Xor(a / 2, b / 2) + (if a % 2 == b % 2 then 0 else 1)
  }

  /** The low bit of an exclusive or, and the exclusive or of what is left. */
  lemma XorBits(a: nat, b: nat)
    ensures Xor(a, b) % 2 == (if a % 2 == b % 2 then 0 else 1)
    ensures Xor(a, b) / 2 == Xor(a / 2, b / 2)
  {
    Halves(Xor(a / 2, b / 2), if a % 2 == b % 2 then 0 else 1);
  }

  /** Division by two undoes doubling and adding a bit. */
  lemma Halves(q: nat, r: nat)
    requires r < 2
    ensures (2 * q + r) % 2 == r && (2 * q + r) / 2 == q
  {
  }

  /** A natural is determined by its low bit and the rest. */
  lemma BitsDetermine(x: nat, y: nat)
    requires x % 2 == y % 2 && x / 2 == y / 2
    ensures x == y
  {
  }

  /** Exclusive or is commutative and associative, every number is its own
      inverse and 0 is neutral. */
  lemma {:induction false} XorCommutes(a: nat, b: nat)
    ensures Xor(a, b) == Xor(b, a)
    decreases a + b
  {
    if a + b != 0 {
      XorCommutes(a / 2, b / 2);
    }
  }

  lemma {:induction false} XorAssociates(a: nat, b: nat, c: nat)
    ensures Xor(Xor(a, b), c) == Xor(a, Xor(b, c))
    decreases a + b + c
  {
    if a + b + c != 0 {
      XorBits(a, b);
      XorBits(Xor(a, b), c);
      XorBits(b, c);
      XorBits(a, Xor(b, c));
      XorAssociates(a / 2, b / 2, c / 2);
      BitsDetermine(Xor(Xor(a, b), c), Xor(a, Xor(b, c)));
    }
  }

  lemma {:induction false} XorSelf(a: nat)
    ensures Xor(a, a) == 0
    decreases a
  {
    if a != 0 {
      XorSelf(a / 2);
    }
  }

  lemma {:induction false} XorZero(a: nat)
    ensures Xor(a, 0) == a && Xor(0, a) == a
    decreases a
  {
    if a != 0 {
      XorZero(a / 2);
    }
  }

  /** Exclusive or of two n-bit numbers is an n-bit number. */
  lemma {:induction false} XorBelow(a: nat, b: nat, n: nat)
    requires a < Pow2(n) && b < Pow2(n)
    ensures Xor(a, b) < Pow2(n)
    decreases n
  {
    if a + b != 0 {
      XorBelow(a / 2, b / 2, n - 1);
    }
  }

  /** 2 to the n. */
  function Pow2(n: nat): nat {
    if n == 0 then 1 else 2 * Pow2(n - 1)
  }

  /** Adding 2h to x changes neither its low bit and adds h to its upper bits. */
  lemma ShiftHalf(h: nat, x: nat)
    ensures (2 * h + x) % 2 == x % 2 && (2 * h + x) / 2 == h + x / 2
  {
  }

  /** Below 2^k, exclusive or with 2^k sets bit k, which is adding 2^k. */
  lemma {:induction false} XorPow2(k: nat, x: nat)
    requires x < Pow2(k)
    ensures Xor(Pow2(k), x) == Pow2(k) + x
    decreases k
  {
    if k == 0 {
      XorZero(1);
    } else {
      var h := Pow2(k - 1);
      assert Pow2(k) == 2 * h;
      XorBits(2 * h, x);
      Halves(h, 0);
      XorPow2(k - 1, x / 2);
      ShiftHalf(h, x);
      BitsDetermine(Xor(2 * h, x), 2 * h + x);
    }
  }

  /** Exclusive or commutes with a shift to the left by one bit. */
  lemma XorDouble(a: nat, b: nat)
    ensures Xor(2 * a, 2 * b) == 2 * Xor(a, b)
  {
    XorBits(2 * a, 2 * b);
    BitsDetermine(Xor(2 * a, 2 * b), 2 * Xor(a, b));
  }

  lemma XorBelow128(x: nat, y: nat)
    requires x < 128 && y < 128
    ensures Xor(x, y) < 128
  {
    XorBelow(x, y, 7);
  }

  lemma XorBelow256(x: nat, y: nat)
    requires x < 256 && y < 256
    ensures Xor(x, y) < 256
  {
    XorBelow(x, y, 8);
  }

  /** Below 128, exclusive or with 128 sets bit 7. */
  lemma Xor128(x: nat)
    requires x < 128
    ensures Xor(128, x) == 128 + x
  {
    XorPow2(7, x);
  }

  /** Exclusive or splits into bit 7 and the bits below it. */
  lemma XorTop128(x: nat, y: nat)
    requires x < 128 && y < 128
    ensures Xor(128 + x, y) == 128 + Xor(x, y)
    ensures Xor(128 + x, 128 + y) == Xor(x, y)
  {
    Xor128(x);
    Xor128(y);
    XorBelow128(x, y);
    Xor128(Xor(x, y));
    XorAssociates(128, x, y);
    XorRearranges(128, x, 128, y);
    XorSelf(128);
    XorZero(Xor(x, y));
  }

  /** The four-term rearrangement used for linearity arguments. */
  lemma XorRearranges(a: nat, b: nat, c: nat, d: nat)
    ensures Xor(Xor(a, b), Xor(c, d)) == Xor(Xor(a, c), Xor(b, d))
  {
    XorAssociates(a, b, Xor(c, d));
    XorAssociates(b, c, d);
    XorCommutes(b, c);
    XorAssociates(c, b, d);
    XorAssociates(a, c, Xor(b, d));
  }

  /** Exclusive or is 0 only for equal arguments. */
  lemma {:induction false} XorZeroMeansEqual(a: nat, b: nat)
    requires Xor(a, b) == 0
    ensures a == b
    decreases a + b
  {
    if a + b != 0 {
      XorBits(a, b);
      XorZeroMeansEqual(a / 2, b / 2);
      BitsDetermine(a, b);
    }
  }

  // ---------------------------------------------------------------------
  // Bytes written out bit by bit
  // ---------------------------------------------------------------------

  /** The exclusive or of two bits. */
  function Differ(x: nat, y: nat): nat {
    if x == y then 0 else 1
  }

  /** The number with bits b7 (most significant) down to b0. */
  function FromBits(b7: nat, b6: nat, b5: nat, b4: nat, b3: nat, b2: nat, b1: nat, b0: nat): nat {
    b0 + 2 * (b1 + 2 * (b2 + 2 * (b3 + 2 * (b4 + 2 * (b5 + 2 * (b6 + 2 * b7))))))
  }

  /** One step of `XorOfBits`: the low bits of a and b, then what is left above them. */
  lemma XorBitStep(x: nat, y: nat, ha: nat, hb: nat, a: nat, b: nat)
    requires x < 2 && y < 2 && a == x + 2 * ha && b == y + 2 * hb
    ensures Xor(a, b) == Differ(x, y) + 2 * Xor(ha, hb)
  {
    Halves(ha, x);
    Halves(hb, y);
    XorBits(a, b);
    Halves(Xor(ha, hb), Differ(x, y));
    BitsDetermine(Xor(a, b), Differ(x, y) + 2 * Xor(ha, hb));
  }

  /** The exclusive or of two bytes given bit by bit is taken bit by bit. */
  lemma XorOfBits(a7: nat, a6: nat, a5: nat, a4: nat, a3: nat, a2: nat, a1: nat, a0: nat,
                  b7: nat, b6: nat, b5: nat, b4: nat, b3: nat, b2: nat, b1: nat, b0: nat)
    requires a7 < 2 && a6 < 2 && a5 < 2 && a4 < 2 && a3 < 2 && a2 < 2 && a1 < 2 && a0 < 2
    requires b7 < 2 && b6 < 2 && b5 < 2 && b4 < 2 && b3 < 2 && b2 < 2 && b1 < 2 && b0 < 2
    ensures Xor(FromBits(a7, a6, a5, a4, a3, a2, a1, a0), FromBits(b7, b6, b5, b4, b3, b2, b1, b0))
         == FromBits(Differ(a7, b7), Differ(a6, b6), Differ(a5, b5), Differ(a4, b4),
                     Differ(a3, b3), Differ(a2, b2), Differ(a1, b1), Differ(a0, b0))
  {
    var p7, q7 := a7, b7;
    var p6, q6 := a6 + 2 * p7, b6 + 2 * q7;
    var p5, q5 := a5 + 2 * p6, b5 + 2 * q6;
    var p4, q4 := a4 + 2 * p5, b4 + 2 * q5;
    var p3, q3 := a3 + 2 * p4, b3 + 2 * q4;
    var p2, q2 := a2 + 2 * p3, b2 + 2 * q3;
    var p1, q1 := a1 + 2 * p2, b1 + 2 * q2;
    var p0, q0 := FromBits(a7, a6, a5, a4, a3, a2, a1, a0), FromBits(b7, b6, b5, b4, b3, b2, b1, b0);
    XorBitStep(a0, b0, p1, q1, p0, q0);
    XorBitStep(a1, b1, p2, q2, p1, q1);
    XorBitStep(a2, b2, p3, q3, p2, q2);
    XorBitStep(a3, b3, p4, q4, p3, q3);
    XorBitStep(a4, b4, p5, q5, p4, q4);
    XorBitStep(a5, b5, p6, q6, p5, q5);
    XorBitStep(a6, b6, p7, q7, p6, q6);
    XorBitStep(a7, b7, 0, 0, p7, q7);
    XorZero(0);
  }
}
