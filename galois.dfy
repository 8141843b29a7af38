/**
 * Multiplication in GF(2^8) as AES uses it (FIPS 197, section 4.2): a byte is
 * a polynomial over GF(2) whose bit i is the coefficient of x^i, addition is
 * XOR, and products are reduced modulo m(x) = x^8 + x^4 + x^3 + x + 1.
 */
module GaloisField {

  /**
   * xtime (FIPS 197, section 4.2.1): multiplication by x. The byte is shifted
   * left and, when its high bit h was set, reduced by XORing 0x1B; 0x1B has
   * bits 0, 1, 3 and 4 set, so the reduction is h placed at those positions.
   */
  function Xtime(a: bv8): bv8 {
    var h := a >> 7;
    (a << 1) ^ h ^ (h << 1) ^ (h << 3) ^ (h << 4)
  }

  /**
   * Addition in GF(2^8) (FIPS 197, section 4.1): coefficient-wise addition
   * modulo 2, that is XOR. Proofs about sums of products refer to it by name.
   */
  function Add(a: bv8, b: bv8): bv8 {
    a ^ b
  }

  /** b divided by x, dropping the constant coefficient. */
  function Half(b: bv8): bv8 {
    b >> 1
  }

  /** a when the low bit of b is set and 0 otherwise, written without a branch. */
  function Term(a: bv8, b: bv8): bv8 {
    var m1 := b & 1;
    var m2 := m1 ^ (m1 << 1);
    var m4 := m2 ^ (m2 << 2);
    a & (m4 ^ (m4 << 4))
  }

  /**
   * The product a * b in GF(2^8), by shift and add: the low coefficient of b
   * contributes a, and the rest of b, divided by x, multiplies a * x.
   */
  function FieldMul(a: bv8, b: bv8): bv8
    decreases b
  {
    if b == 0 then 0 else Term(a, b) ^ FieldMul(Xtime(a), b >> 1)
  }

  // ---------------------------------------------------------------------
  // Facts about the building blocks

  lemma TermCases(a: bv8, b: bv8)
    ensures b & 1 != 0 ==> Term(a, b) == a
    ensures b & 1 == 0 ==> Term(a, b) == 0
  {
  }

  lemma XtimeCases(a: bv8)
    ensures a & 0x80 != 0 ==> Xtime(a) == (a << 1) ^ 0x1B
    ensures a & 0x80 == 0 ==> Xtime(a) == a << 1
  {
  }

  lemma XtimeLinear(x: bv8, y: bv8)
    ensures Xtime(x ^ y) == Xtime(x) ^ Xtime(y)
  {
  }

  lemma TermLinearLeft(x: bv8, y: bv8, z: bv8, b: bv8)
    requires z == x ^ y
    ensures Term(z, b) == Term(x, b) ^ Term(y, b)
  {
  }

  lemma TermLinearRight(c: bv8, x: bv8, y: bv8, z: bv8)
    requires z == x ^ y
    ensures Term(c, z) == Term(c, x) ^ Term(c, y)
  {
  }

  lemma HalfLinear(x: bv8, y: bv8, z: bv8)
    requires z == x ^ y
    ensures z >> 1 == (x >> 1) ^ (y >> 1)
  {
  }

  lemma TermXtime(a: bv8, b: bv8)
    ensures Term(Xtime(a), b) == Xtime(Term(a, b))
  {
  }

  /** The defining step of FieldMul holds for b == 0 too. */
  lemma Step(a: bv8, b: bv8, a1: bv8, b1: bv8)
    requires a1 == Xtime(a) && b1 == b >> 1
    ensures FieldMul(a, b) == Term(a, b) ^ FieldMul(a1, b1)
  {
    if b == 0 {
      assert Term(a, b) == 0;
    }
  }

  // ---------------------------------------------------------------------
  // Zero

  lemma MulZeroRight(a: bv8)
    ensures FieldMul(a, 0) == 0
  {
  }

  lemma {:induction false} MulZeroLeft(b: bv8)
    ensures FieldMul(0, b) == 0
    decreases b
  {
    if b != 0 {
      assert Xtime(0) == 0 && Term(0, b) == 0;
      MulZeroLeft(b >> 1);
    }
  }

  // ---------------------------------------------------------------------
  // Distributivity over XOR, in either argument

  /** One round of the induction for MulLinearLeft. */
  lemma StepLeft(x: bv8, y: bv8, z: bv8, b: bv8)
    requires z == x ^ y && b != 0
    ensures Xtime(z) == Xtime(x) ^ Xtime(y)
    ensures FieldMul(Xtime(z), b >> 1) == FieldMul(Xtime(x), b >> 1) ^ FieldMul(Xtime(y), b >> 1)
        ==> FieldMul(z, b) == FieldMul(x, b) ^ FieldMul(y, b)
  {
    XtimeLinear(x, y);
    TermLinearLeft(x, y, z, b);
  }

  lemma {:induction false} MulLinearLeft(x: bv8, y: bv8, z: bv8, b: bv8)
    requires z == x ^ y
    ensures FieldMul(z, b) == FieldMul(x, b) ^ FieldMul(y, b)
    decreases b
  {
    if b != 0 {
      StepLeft(x, y, z, b);
      MulLinearLeft(Xtime(x), Xtime(y), Xtime(z), b >> 1);
    }
  }

  /** One round of the induction for MulLinearRight. */
  lemma StepRight(c: bv8, x: bv8, y: bv8, z: bv8)
    requires z == x ^ y
    ensures z >> 1 == (x >> 1) ^ (y >> 1)
    ensures FieldMul(Xtime(c), z >> 1) == FieldMul(Xtime(c), x >> 1) ^ FieldMul(Xtime(c), y >> 1)
        ==> FieldMul(c, z) == FieldMul(c, x) ^ FieldMul(c, y)
  {
    hide *;
    var c1 := Xtime(c);
    HalfLinear(x, y, z);
    Step(c, z, c1, z >> 1);
    Step(c, x, c1, x >> 1);
    Step(c, y, c1, y >> 1);
    TermLinearRight(c, x, y, z);
    XorSwap(Term(c, x), Term(c, y), FieldMul(c1, x >> 1), FieldMul(c1, y >> 1));
  }

  lemma XorSwap(a: bv8, b: bv8, c: bv8, d: bv8)
    ensures (a ^ b) ^ (c ^ d) == (a ^ c) ^ (b ^ d)
  {
  }

  lemma {:induction false} MulLinearRight(c: bv8, x: bv8, y: bv8, z: bv8)
    requires z == x ^ y
    ensures FieldMul(c, z) == FieldMul(c, x) ^ FieldMul(c, y)
    decreases x
  {
    if x != 0 {
      StepRight(c, x, y, z);
      MulLinearRight(Xtime(c), x >> 1, y >> 1, z >> 1);
    } else {
      MulLinearRightBase(c, x, y, z);
    }
  }

  lemma MulLinearRightBase(c: bv8, x: bv8, y: bv8, z: bv8)
    requires z == x ^ y && x == 0
    ensures FieldMul(c, z) == FieldMul(c, x) ^ FieldMul(c, y)
  {
    assert z == y;
    MulZeroRight(c);
  }

  /** c * (x + y) == c * x + c * y */
  lemma MulDistributes(c: bv8, x: bv8, y: bv8)
    ensures FieldMul(c, Add(x, y)) == Add(FieldMul(c, x), FieldMul(c, y))
  {
    MulLinearRight(c, x, y, x ^ y);
  }

  /** (x + y) * c == x * c + y * c */
  lemma MulDistributesLeft(x: bv8, y: bv8, c: bv8)
    ensures FieldMul(Add(x, y), c) == Add(FieldMul(x, c), FieldMul(y, c))
  {
    MulLinearLeft(x, y, x ^ y, c);
  }

  // ---------------------------------------------------------------------
  // Multiplication by x, the unit, and commutativity

  lemma UnfoldXtimeLeft(a: bv8, b: bv8)
    ensures FieldMul(Xtime(a), b) == Xtime(Term(a, b)) ^ FieldMul(Xtime(Xtime(a)), b >> 1)
  {
    Step(Xtime(a), b, Xtime(Xtime(a)), b >> 1);
    TermXtime(a, b);
  }

  lemma UnfoldXtimeOuter(a: bv8, b: bv8)
    ensures Xtime(FieldMul(a, b)) == Xtime(Term(a, b)) ^ Xtime(FieldMul(Xtime(a), b >> 1))
  {
    Step(a, b, Xtime(a), b >> 1);
    XtimeLinear(Term(a, b), FieldMul(Xtime(a), b >> 1));
  }

  /** One round of the induction for MulXtimeLeft. */
  lemma StepXtimeLeft(a: bv8, b: bv8)
    ensures FieldMul(Xtime(Xtime(a)), b >> 1) == Xtime(FieldMul(Xtime(a), b >> 1))
        ==> FieldMul(Xtime(a), b) == Xtime(FieldMul(a, b))
  {
    UnfoldXtimeLeft(a, b);
    UnfoldXtimeOuter(a, b);
  }

  /** (x * a) * b == x * (a * b) */
  lemma {:induction false} MulXtimeLeft(a: bv8, b: bv8)
    ensures FieldMul(Xtime(a), b) == Xtime(FieldMul(a, b))
    decreases b
  {
    if b != 0 {
      StepXtimeLeft(a, b);
      MulXtimeLeft(Xtime(a), b >> 1);
    } else {
      MulZeroRight(a);
      MulZeroRight(Xtime(a));
      assert Xtime(0) == 0;
    }
  }

  lemma MulOneRight(a: bv8)
    ensures FieldMul(a, 1) == a
  {
    Step(a, 1, Xtime(a), 0);
    MulZeroRight(Xtime(a));
  }

  /** A byte is its low bit plus x times the byte shifted right. */
  lemma SplitLow(b: bv8)
    ensures Term(1, b) ^ Xtime(b >> 1) == b
    ensures Xtime(b >> 1) ^ (b & 1) == b
  {
  }

  /** One round of the induction for MulOneLeft. */
  lemma StepOneLeft(b: bv8)
    ensures FieldMul(1, b >> 1) == b >> 1 ==> FieldMul(1, b) == b
  {
    Step(1, b, Xtime(1), b >> 1);
    MulXtimeLeft(1, b >> 1);
    SplitLow(b);
  }

  lemma {:induction false} MulOneLeft(b: bv8)
    ensures FieldMul(1, b) == b
    decreases b
  {
    if b != 0 {
      StepOneLeft(b);
      MulOneLeft(b >> 1);
    } else {
      MulZeroRight(1);
    }
  }

  /** Multiplying by the low coefficient of b selects a or 0. */
  lemma MulLowBit(a: bv8, b: bv8)
    ensures FieldMul(b & 1, a) == Term(a, b)
  {
    TermCases(a, b);
    if b & 1 == 0 {
      MulZeroLeft(a);
    } else {
      assert b & 1 == 1;
      MulOneLeft(a);
    }
  }

  lemma UnfoldRight(a: bv8, b: bv8)
    ensures FieldMul(a, b) == Term(a, b) ^ Xtime(FieldMul(a, b >> 1))
  {
    Step(a, b, Xtime(a), b >> 1);
    MulXtimeLeft(a, b >> 1);
  }

  lemma UnfoldLeft(a: bv8, b: bv8)
    ensures FieldMul(b, a) == Term(a, b) ^ Xtime(FieldMul(b >> 1, a))
  {
    SplitLow(b);
    MulLinearLeft(Xtime(b >> 1), b & 1, b, a);
    MulXtimeLeft(b >> 1, a);
    MulLowBit(a, b);
  }

  /** a * b == b * a */
  lemma {:induction false} MulCommutative(a: bv8, b: bv8)
    ensures FieldMul(a, b) == FieldMul(b, a)
    decreases b
  {
    if b != 0 {
      UnfoldRight(a, b);
      UnfoldLeft(a, b);
      MulCommutative(a, b >> 1);
    } else {
      MulZeroRight(a);
      MulZeroLeft(a);
    }
  }

  // ---------------------------------------------------------------------
  // Associativity

  lemma HalfLess(b: bv8)
    requires b != 0
    ensures Half(b) < b
  {
  }

  /** The defining step of FieldMul, written with Add and Half. */
  lemma StepAdd(a: bv8, b: bv8)
    requires b != 0
    ensures FieldMul(a, b) == Add(Term(a, b), FieldMul(Xtime(a), Half(b)))
  {
  }

  /** a * (x * b) == (x * a) * b */
  lemma MulXtimeRight(a: bv8, b: bv8)
    ensures FieldMul(a, Xtime(b)) == FieldMul(Xtime(a), b)
  {
    hide *;
    MulCommutative(a, Xtime(b));
    MulXtimeLeft(b, a);
    MulCommutative(b, a);
    MulXtimeLeft(a, b);
  }

  /** Multiplying commutes with selecting on the low bit of b. */
  lemma MulTerm(x: bv8, y: bv8, b: bv8)
    ensures FieldMul(x, Term(y, b)) == Term(FieldMul(x, y), b)
  {
    hide FieldMul;
    TermCases(y, b);
    TermCases(FieldMul(x, y), b);
    if b & 1 == 0 {
      MulZeroRight(x);
    }
  }

  /**
   * (x * y) * b == x * (y * b), by induction on b. Each step only
   * rewrites with the facts above, so every definition stays hidden.
   */
  lemma {:induction false} MulAssociative(x: bv8, y: bv8, b: bv8)
    ensures FieldMul(FieldMul(x, y), b) == FieldMul(x, FieldMul(y, b))
    decreases b
  {
    hide *;
    if b != 0 {
      HalfLess(b);
      StepAdd(FieldMul(x, y), b);
      MulXtimeLeft(x, y);
      MulAssociative(Xtime(x), y, Half(b));
      StepAdd(y, b);
      MulDistributes(x, Term(y, b), FieldMul(Xtime(y), Half(b)));
      MulTerm(x, y, b);
      MulXtimeLeft(y, Half(b));
      MulXtimeRight(x, FieldMul(y, Half(b)));
    } else {
      MulZeroRight(FieldMul(x, y));
      MulZeroRight(y);
      MulZeroRight(x);
    }
  }

  // ---------------------------------------------------------------------
  // Products with the constants of the MixColumns matrices

  lemma MulBy2(v: bv8)
    ensures FieldMul(2, v) == Xtime(v)
  {
    MulCommutative(2, v);
    Step(v, 2, Xtime(v), 1);
    MulOneRight(Xtime(v));
  }

  lemma MulBy3(v: bv8)
    ensures FieldMul(3, v) == Xtime(v) ^ v
  {
    MulCommutative(3, v);
    Step(v, 3, Xtime(v), 1);
    MulOneRight(Xtime(v));
  }

  lemma MulBy9(v: bv8)
    ensures FieldMul(9, v) == Xtime(Xtime(Xtime(v))) ^ v
  {
    MulCommutative(9, v);
    Step(v, 9, Xtime(v), 4);
    Step(Xtime(v), 4, Xtime(Xtime(v)), 2);
    Step(Xtime(Xtime(v)), 2, Xtime(Xtime(Xtime(v))), 1);
    MulOneRight(Xtime(Xtime(Xtime(v))));
  }

  lemma MulBy11(v: bv8)
    ensures FieldMul(11, v) == Xtime(Xtime(Xtime(v))) ^ Xtime(v) ^ v
  {
    MulCommutative(11, v);
    Step(v, 11, Xtime(v), 5);
    Step(Xtime(v), 5, Xtime(Xtime(v)), 2);
    Step(Xtime(Xtime(v)), 2, Xtime(Xtime(Xtime(v))), 1);
    MulOneRight(Xtime(Xtime(Xtime(v))));
  }

  lemma MulBy13(v: bv8)
    ensures FieldMul(13, v) == Xtime(Xtime(Xtime(v))) ^ Xtime(Xtime(v)) ^ v
  {
    MulCommutative(13, v);
    Step(v, 13, Xtime(v), 6);
    Step(Xtime(v), 6, Xtime(Xtime(v)), 3);
    Step(Xtime(Xtime(v)), 3, Xtime(Xtime(Xtime(v))), 1);
    MulOneRight(Xtime(Xtime(Xtime(v))));
  }

  lemma MulBy14(v: bv8)
    ensures FieldMul(14, v) == Xtime(Xtime(Xtime(v))) ^ Xtime(Xtime(v)) ^ Xtime(v)
  {
    MulCommutative(14, v);
    Step(v, 14, Xtime(v), 7);
    Step(Xtime(v), 7, Xtime(Xtime(v)), 3);
    Step(Xtime(Xtime(v)), 3, Xtime(Xtime(Xtime(v))), 1);
    MulOneRight(Xtime(Xtime(Xtime(v))));
  }

  // ---------------------------------------------------------------------
  // gmult

  /** The k low bits of a byte, for k <= 8. */
  function LowMask(k: nat): bv8
    requires k <= 8
  {
    0xFF >> (8 - k)
  }

  /**
   * One round of the loop of GMult on b, the Java byte after i arithmetic
   * shifts: its low 8 - i bits are those of c, the same byte shifted
   * logically.
   */
  lemma ShiftStep(c: bv8, b: bv8, i: nat)
    requires i < 8 && b & LowMask(8 - i) == c
    ensures b & 1 == c & 1
    ensures ((b >> 1) | (b & 0x80)) & LowMask(7 - i) == c >> 1
  {
  }

  lemma ProductStep(p: bv8, a: bv8, c: bv8, p1: bv8, a1: bv8)
    requires p1 == p ^ Term(a, c) && a1 == Xtime(a)
    ensures p1 ^ FieldMul(a1, c >> 1) == p ^ FieldMul(a, c)
  {
    Step(a, c, a1, c >> 1);
  }

  /** The worked examples of FIPS 197 sections 4.2 and 4.2.1. */
  lemma FipsExamples()
    ensures FieldMul(0x57, 0x83) == 0xC1
    ensures FieldMul(0x57, 0x13) == 0xFE
  {
    assert FieldMul(0x38, 0x01) == 0x38;
    assert FieldMul(0x1C, 0x02) == 0x38;
    assert FieldMul(0x0E, 0x04) == 0x38;
    assert FieldMul(0x07, 0x08) == 0x38;
    assert FieldMul(0x8E, 0x10) == 0x38;
    assert FieldMul(0x47, 0x20) == 0x38;
    assert FieldMul(0xAE, 0x41) == 0x96;
    assert FieldMul(0x57, 0x83) == 0xC1;
    assert FieldMul(0x07, 0x01) == 0x07;
    assert FieldMul(0x8E, 0x02) == 0x07;
    assert FieldMul(0x47, 0x04) == 0x07;
    assert FieldMul(0xAE, 0x09) == 0xA9;
    assert FieldMul(0x57, 0x13) == 0xFE;
  }

  /**
   * gmult: eight rounds that add a into p when the low bit of b is set, then
   * multiply a by x (shift left, reduce by 0x1B when the high bit was set)
   * and shift the Java byte b right arithmetically.
   */
  method GMult(one: bv8, two: bv8) returns (p: bv8)
    ensures p == FieldMul(one, two)
  {
    hide FieldMul, Term, Xtime;
    var a, b := one, two;
    p := 0;
    var hbs: bv8 := 0;
    ghost var c := two;
    for i := 0 to 8
      invariant b & LowMask(8 - i) == c
      invariant p ^ FieldMul(a, c) == FieldMul(one, two)
    {
      ghost var p0, a0 := p, a;
      XtimeCases(a0);
      ShiftStep(c, b, i);
      TermCases(a, c);
      if b & 1 != 0 {
        p := p ^ a;
      }
      assert p == p0 ^ Term(a0, c);
      hbs := a & 0x80;
      a := a << 1;
      if hbs != 0 {
        a := a ^ 0x1B;
      }
      assert a == Xtime(a0);
      b := (b >> 1) | (b & 0x80);
      ProductStep(p0, a0, c, p, a);
      c := c >> 1;
    }
    MulZeroRight(a);
  }
}
