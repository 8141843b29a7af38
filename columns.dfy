/**
 * Four-byte words and 4 x 4 byte matrices over GF(2^8). Words serve both as
 * the columns of the state that MixColumns transforms and as the 32-bit
 * words of the key schedule. The lemmas show that applying two matrices in
 * turn is applying their product. This reduces "InvMixColumns undoes
 * MixColumns" to a computation on the two constant matrices.
 */
module ColumnAlgebra {
  import opened GaloisField

  /** Four bytes: a column of the state, or a word of the key schedule. */
  datatype Word = Word(c0: bv8, c1: bv8, c2: bv8, c3: bv8)

  /** A 4 x 4 matrix, row by row. */
  datatype Matrix = Matrix(r0: Word, r1: Word, r2: Word, r3: Word)

  /** p0 + p1 + p2 + p3, added left to right. */
  function Sum(p0: bv8, p1: bv8, p2: bv8, p3: bv8): bv8 {
    Add(Add(Add(p0, p1), p2), p3)
  }

  /** Byte-wise sum of two words. */
  function AddWord(u: Word, v: Word): Word {
    Word(Add(u.c0, v.c0), Add(u.c1, v.c1), Add(u.c2, v.c2), Add(u.c3, v.c3))
  }

  /** A matrix row times a column: four products in GF(2^8), summed. */
  function Dot(row: Word, x: Word): bv8 {
    Sum(FieldMul(row.c0, x.c0), FieldMul(row.c1, x.c1), FieldMul(row.c2, x.c2), FieldMul(row.c3, x.c3))
  }

  /** The matrix times a column. */
  function Apply(m: Matrix, x: Word): Word {
    Word(Dot(m.r0, x), Dot(m.r1, x), Dot(m.r2, x), Dot(m.r3, x))
  }

  /** Row i of a matrix. */
  function Row(m: Matrix, i: nat): Word
    requires i < 4
  {
    if i == 0 then m.r0 else if i == 1 then m.r1 else if i == 2 then m.r2 else m.r3
  }

  /** Column j of a matrix. */
  function Col(m: Matrix, j: nat): Word
    requires j < 4
  {
    if j == 0 then Word(m.r0.c0, m.r1.c0, m.r2.c0, m.r3.c0)
    else if j == 1 then Word(m.r0.c1, m.r1.c1, m.r2.c1, m.r3.c1)
    else if j == 2 then Word(m.r0.c2, m.r1.c2, m.r2.c2, m.r3.c2)
    else Word(m.r0.c3, m.r1.c3, m.r2.c3, m.r3.c3)
  }

  /** A row times a matrix: the row's product with each column. */
  function RowTimes(row: Word, m: Matrix): Word {
    Word(Dot(row, Col(m, 0)), Dot(row, Col(m, 1)), Dot(row, Col(m, 2)), Dot(row, Col(m, 3)))
  }

  /** The matrix product n m. */
  function Product(n: Matrix, m: Matrix): Matrix {
    Matrix(RowTimes(n.r0, m), RowTimes(n.r1, m), RowTimes(n.r2, m), RowTimes(n.r3, m))
  }

  const Identity: Matrix := Matrix(Word(1, 0, 0, 0), Word(0, 1, 0, 0), Word(0, 0, 1, 0), Word(0, 0, 0, 1))

  /** Every byte of w multiplied by c. */
  function Scale(c: bv8, w: Word): Word {
    Word(FieldMul(c, w.c0), FieldMul(c, w.c1), FieldMul(c, w.c2), FieldMul(c, w.c3))
  }

  /** Byte-wise sum of four words. */
  function SumWords(w0: Word, w1: Word, w2: Word, w3: Word): Word {
    Word(Sum(w0.c0, w1.c0, w2.c0, w3.c0), Sum(w0.c1, w1.c1, w2.c1, w3.c1),
         Sum(w0.c2, w1.c2, w2.c2, w3.c2), Sum(w0.c3, w1.c3, w2.c3, w3.c3))
  }

  // ---------------------------------------------------------------------
  // Rearranging sums. Every step below only rewrites with earlier facts,
  // so the definitions stay hidden and no bit-level reasoning is needed.

  lemma AddComm(p: bv8, q: bv8)
    ensures Add(p, q) == Add(q, p)
  {
  }

  lemma AddAssoc(p: bv8, q: bv8, r: bv8)
    ensures Add(Add(p, q), r) == Add(p, Add(q, r))
  {
  }

  /** (p + q) + (r + s) == (p + r) + (q + s) */
  lemma AddSwap(p: bv8, q: bv8, r: bv8, s: bv8)
    ensures Add(Add(p, q), Add(r, s)) == Add(Add(p, r), Add(q, s))
  {
    hide Add;
    AddAssoc(p, q, Add(r, s));
    AddAssoc(q, r, s);
    AddComm(q, r);
    AddAssoc(r, q, s);
    AddAssoc(p, r, Add(q, s));
  }

  /** A sum of four pairwise sums is the sum of the two four-term sums. */
  lemma SumAdd(a: bv8, b: bv8, c: bv8, d: bv8, e: bv8, f: bv8, g: bv8, h: bv8)
    ensures Sum(Add(a, e), Add(b, f), Add(c, g), Add(d, h)) == Add(Sum(a, b, c, d), Sum(e, f, g, h))
  {
    hide Add;
    AddSwap(a, e, b, f);
    AddSwap(Add(a, b), Add(e, f), c, g);
    AddSwap(Add(Add(a, b), c), Add(Add(e, f), g), d, h);
  }

  /** A 4 x 4 array of bytes sums to the same value row by row as column by column. */
  lemma SumTranspose(a0: bv8, a1: bv8, a2: bv8, a3: bv8, b0: bv8, b1: bv8, b2: bv8, b3: bv8,
                     c0: bv8, c1: bv8, c2: bv8, c3: bv8, d0: bv8, d1: bv8, d2: bv8, d3: bv8)
    ensures Sum(Sum(a0, a1, a2, a3), Sum(b0, b1, b2, b3), Sum(c0, c1, c2, c3), Sum(d0, d1, d2, d3))
         == Sum(Sum(a0, b0, c0, d0), Sum(a1, b1, c1, d1), Sum(a2, b2, c2, d2), Sum(a3, b3, c3, d3))
  {
    hide Add;
    SumAdd(Add(Add(a0, a1), a2), Add(Add(b0, b1), b2), Add(Add(c0, c1), c2), Add(Add(d0, d1), d2),
           a3, b3, c3, d3);
    SumAdd(Add(a0, a1), Add(b0, b1), Add(c0, c1), Add(d0, d1), a2, b2, c2, d2);
    SumAdd(a0, b0, c0, d0, a1, b1, c1, d1);
  }

  /** c (p0 + p1 + p2 + p3) == c p0 + c p1 + c p2 + c p3 */
  lemma MulSum(c: bv8, p0: bv8, p1: bv8, p2: bv8, p3: bv8)
    ensures FieldMul(c, Sum(p0, p1, p2, p3))
         == Sum(FieldMul(c, p0), FieldMul(c, p1), FieldMul(c, p2), FieldMul(c, p3))
  {
    hide Add, FieldMul;
    MulDistributes(c, Add(Add(p0, p1), p2), p3);
    MulDistributes(c, Add(p0, p1), p2);
    MulDistributes(c, p0, p1);
  }

  /** (p0 + p1 + p2 + p3) c == p0 c + p1 c + p2 c + p3 c */
  lemma SumMul(p0: bv8, p1: bv8, p2: bv8, p3: bv8, c: bv8)
    ensures FieldMul(Sum(p0, p1, p2, p3), c)
         == Sum(FieldMul(p0, c), FieldMul(p1, c), FieldMul(p2, c), FieldMul(p3, c))
  {
    hide Add, FieldMul;
    MulDistributesLeft(Add(Add(p0, p1), p2), p3, c);
    MulDistributesLeft(Add(p0, p1), p2, c);
    MulDistributesLeft(p0, p1, c);
  }

  // ---------------------------------------------------------------------
  // Matrix products

  /** c (w . x) == (c w) . x */
  lemma ScaleDot(c: bv8, w: Word, x: Word)
    ensures FieldMul(c, Dot(w, x)) == Dot(Scale(c, w), x)
  {
    hide FieldMul, Sum;
    MulSum(c, FieldMul(w.c0, x.c0), FieldMul(w.c1, x.c1), FieldMul(w.c2, x.c2), FieldMul(w.c3, x.c3));
    MulAssociative(c, w.c0, x.c0);
    MulAssociative(c, w.c1, x.c1);
    MulAssociative(c, w.c2, x.c2);
    MulAssociative(c, w.c3, x.c3);
  }

  /** w0 . x + w1 . x + w2 . x + w3 . x == (w0 + w1 + w2 + w3) . x */
  lemma DotSumWords(w0: Word, w1: Word, w2: Word, w3: Word, x: Word)
    ensures Sum(Dot(w0, x), Dot(w1, x), Dot(w2, x), Dot(w3, x)) == Dot(SumWords(w0, w1, w2, w3), x)
  {
    hide FieldMul, Sum;
    SumMul(w0.c0, w1.c0, w2.c0, w3.c0, x.c0);
    SumMul(w0.c1, w1.c1, w2.c1, w3.c1, x.c1);
    SumMul(w0.c2, w1.c2, w2.c2, w3.c2, x.c2);
    SumMul(w0.c3, w1.c3, w2.c3, w3.c3, x.c3);
    SumTranspose(FieldMul(w0.c0, x.c0), FieldMul(w0.c1, x.c1), FieldMul(w0.c2, x.c2), FieldMul(w0.c3, x.c3),
                 FieldMul(w1.c0, x.c0), FieldMul(w1.c1, x.c1), FieldMul(w1.c2, x.c2), FieldMul(w1.c3, x.c3),
                 FieldMul(w2.c0, x.c0), FieldMul(w2.c1, x.c1), FieldMul(w2.c2, x.c2), FieldMul(w2.c3, x.c3),
                 FieldMul(w3.c0, x.c0), FieldMul(w3.c1, x.c1), FieldMul(w3.c2, x.c2), FieldMul(w3.c3, x.c3));
  }

  /** A row times a matrix is the sum of the matrix rows scaled by the row's entries. */
  lemma RowTimesSum(row: Word, m: Matrix)
    ensures RowTimes(row, m) == SumWords(Scale(row.c0, m.r0), Scale(row.c1, m.r1), Scale(row.c2, m.r2), Scale(row.c3, m.r3))
  {
    hide FieldMul, Sum;
  }

  /** row . (m x) == (row m) . x */
  lemma DotApply(row: Word, m: Matrix, x: Word)
    ensures Dot(row, Apply(m, x)) == Dot(RowTimes(row, m), x)
  {
    hide FieldMul, Sum, Scale, SumWords;
    ScaleDot(row.c0, m.r0, x);
    ScaleDot(row.c1, m.r1, x);
    ScaleDot(row.c2, m.r2, x);
    ScaleDot(row.c3, m.r3, x);
    DotSumWords(Scale(row.c0, m.r0), Scale(row.c1, m.r1), Scale(row.c2, m.r2), Scale(row.c3, m.r3), x);
    RowTimesSum(row, m);
  }

  /** Applying m and then n is applying the product n m. */
  lemma ApplyProduct(n: Matrix, m: Matrix, x: Word)
    ensures Apply(n, Apply(m, x)) == Apply(Product(n, m), x)
  {
    hide Dot, RowTimes;
    DotApply(n.r0, m, x);
    DotApply(n.r1, m, x);
    DotApply(n.r2, m, x);
    DotApply(n.r3, m, x);
  }

  /** The identity matrix leaves every column unchanged. */
  lemma ApplyIdentity(x: Word)
    ensures Apply(Identity, x) == x
  {
    hide FieldMul;
    MulOneLeft(x.c0); MulOneLeft(x.c1); MulOneLeft(x.c2); MulOneLeft(x.c3);
    MulZeroLeft(x.c0); MulZeroLeft(x.c1); MulZeroLeft(x.c2); MulZeroLeft(x.c3);
  }

  /** If n m is the identity, n undoes m on every column. */
  lemma ApplyInverse(n: Matrix, m: Matrix, x: Word)
    requires Product(n, m) == Identity
    ensures Apply(n, Apply(m, x)) == x
  {
    hide Apply, Product;
    ApplyProduct(n, m, x);
    ApplyIdentity(x);
  }
}
