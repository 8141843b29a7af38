/**
 * The four round transformations of AES (FIPS 197 sections 5.1.1-5.1.4 and
 * 5.3.1-5.3.3) on a 4 x 4 state, each with the `inverse` flag of the
 * methods of `AES.java`, and the laws that make decryption undo encryption.
 */
module RoundTransforms {
  import opened AesErrors
  import opened AesTables
  import opened GaloisField
  import opened ColumnAlgebra

  /** A 4 x 4 matrix of bytes, indexed `s[row][col]`. */
  predicate IsState(s: seq<seq<bv8>>) {
    |s| == 4 && forall r | 0 <= r < 4 :: |s[r]| == 4
  }

  type State = s: seq<seq<bv8>> | IsState(s)
    witness [[0, 0, 0, 0], [0, 0, 0, 0], [0, 0, 0, 0], [0, 0, 0, 0]]

  /** The dimensions of a state, stated so that they can be used with IsState hidden. */
  lemma StateShape(s: State)
    ensures |s| == 4 && |s[0]| == 4 && |s[1]| == 4 && |s[2]| == 4 && |s[3]| == 4
  {
  }

  /** Two states are equal when all sixteen entries are. */
  lemma StateExt(s: State, t: State)
    requires forall r, c | 0 <= r < 4 && 0 <= c < 4 :: s[r][c] == t[r][c]
    ensures s == t
  {
    assert s[0] == t[0] && s[1] == t[1] && s[2] == t[2] && s[3] == t[3];
  }

  /** A state is the display of its sixteen entries. */
  lemma StateEntries(s: State)
    ensures s == [[s[0][0], s[0][1], s[0][2], s[0][3]],
                  [s[1][0], s[1][1], s[1][2], s[1][3]],
                  [s[2][0], s[2][1], s[2][2], s[2][3]],
                  [s[3][0], s[3][1], s[3][2], s[3][3]]]
  {
    assert s[0] == [s[0][0], s[0][1], s[0][2], s[0][3]];
    assert s[1] == [s[1][0], s[1][1], s[1][2], s[1][3]];
    assert s[2] == [s[2][0], s[2][1], s[2][2], s[2][3]];
    assert s[3] == [s[3][0], s[3][1], s[3][2], s[3][3]];
  }

  // ---------------------------------------------------------------- SubBytes

  /** One entry of SubBytes: the S-box, or the inverse S-box when decrypting. */
  function SubCell(x: bv8, inverse: bool): bv8 {
    if inverse then InvSubByte(x) else SubByte(x)
  }

  /** SubBytes / InvSubBytes: every entry goes through the (inverse) S-box. */
  function SubBytes(s: State, inverse: bool): (r: State)
    ensures forall i, j | 0 <= i < 4 && 0 <= j < 4 :: r[i][j] == SubCell(s[i][j], inverse)
  {
    seq(4, i requires 0 <= i < 4 => seq(4, j requires 0 <= j < 4 => SubCell(s[i][j], inverse)))
  }

  /** InvSubBytes undoes SubBytes on every state. */
  lemma InvSubBytesSubBytes(s: State)
    ensures SubBytes(SubBytes(s, false), true) == s
  {
    var t := SubBytes(SubBytes(s, false), true);
    forall r, c | 0 <= r < 4 && 0 <= c < 4
      ensures t[r][c] == s[r][c]
    {
      InvSubByteSubByte(s[r][c]);
    }
    StateExt(t, s);
  }

  /** SubBytes undoes InvSubBytes on every state. */
  lemma SubBytesInvSubBytes(s: State)
    ensures SubBytes(SubBytes(s, true), false) == s
  {
    var t := SubBytes(SubBytes(s, true), false);
    forall r, c | 0 <= r < 4 && 0 <= c < 4
      ensures t[r][c] == s[r][c]
    {
      SubByteInvSubByte(s[r][c]);
    }
    StateExt(t, s);
  }

  // --------------------------------------------------------------- ShiftRows

  /**
   * ShiftRows / InvShiftRows: row 0 stays, row r is rotated left by r places
   * when encrypting and right by r places when decrypting.
   */
  function ShiftRows(s: State, inverse: bool): (r: State)
    ensures forall c | 0 <= c < 4 :: r[0][c] == s[0][c]
    ensures !inverse ==> forall row, c | 0 <= row < 4 && 0 <= c < 4 :: r[row][c] == s[row][(c + row) % 4]
    ensures inverse ==> forall row, c | 0 <= row < 4 && 0 <= c < 4 :: r[row][c] == s[row][(c + 4 - row) % 4]
  {
    if !inverse then
      [[s[0][0], s[0][1], s[0][2], s[0][3]],
       [s[1][1], s[1][2], s[1][3], s[1][0]],
       [s[2][2], s[2][3], s[2][0], s[2][1]],
       [s[3][3], s[3][0], s[3][1], s[3][2]]]
    else
      [[s[0][0], s[0][1], s[0][2], s[0][3]],
       [s[1][3], s[1][0], s[1][1], s[1][2]],
       [s[2][2], s[2][3], s[2][0], s[2][1]],
       [s[3][1], s[3][2], s[3][3], s[3][0]]]
  }

  /** InvShiftRows undoes ShiftRows ... */
  lemma InvShiftRowsShiftRows(s: State)
    ensures ShiftRows(ShiftRows(s, false), true) == s
  {
    StateEntries(s);
  }

  /** ... and ShiftRows undoes InvShiftRows. */
  lemma ShiftRowsInvShiftRows(s: State)
    ensures ShiftRows(ShiftRows(s, true), false) == s
  {
    StateEntries(s);
  }

  // ------------------------------------------------------------- AddRoundKey

  /**
   * AddRoundKey: entry [row][col] is XORed with round-key byte col * 4 + row.
   * It fails with UnequalLengthError unless both dimensions of the state equal
   * roundKey.length / 4 (integer division), so any key of 16 to 19 bytes is
   * accepted and only its first 16 bytes are used.
   */
  function AddRoundKey(s: State, roundKey: seq<bv8>): (r: Result<State>)
    ensures r.Failure? <==> |roundKey| / 4 != 4
    ensures r.Failure? ==> r.error == UnequalLengthError
    ensures r.Success? ==> forall i, j | 0 <= i < 4 && 0 <= j < 4 ::
      r.value[j][i] == s[j][i] ^ roundKey[i * 4 + j]
  {
    if |s| != |roundKey| / 4 || |s[0]| != |roundKey| / 4 then
      Failure(UnequalLengthError)
    else
      Success(seq(4, j requires 0 <= j < 4 => seq(4, i requires 0 <= i < 4 => s[j][i] ^ roundKey[i * 4 + j])))
  }

  /** AddRoundKey with a 16-byte round key, which never fails. */
  function XorKey(s: State, roundKey: seq<bv8>): State
    requires |roundKey| == 16
  {
    AddRoundKey(s, roundKey).value
  }

  /** Adding the same round key twice gives back the state: AddRoundKey is its own inverse. */
  lemma AddRoundKeyTwice(s: State, roundKey: seq<bv8>)
    requires |roundKey| / 4 == 4
    ensures AddRoundKey(s, roundKey).Success?
    ensures AddRoundKey(AddRoundKey(s, roundKey).value, roundKey) == Success(s)
  {
    var t := AddRoundKey(AddRoundKey(s, roundKey).value, roundKey).value;
    StateExt(t, s);
  }

  /** The same, for the never-failing form used by the cipher. */
  lemma XorKeyTwice(s: State, roundKey: seq<bv8>)
    requires |roundKey| == 16
    ensures XorKey(XorKey(s, roundKey), roundKey) == s
  {
    AddRoundKeyTwice(s, roundKey);
  }

  // ------------------------------------------------------------- MixColumns

  /** Column i of the state: `mixColumns`'s `tmp` vector. */
  function ColumnOf(s: State, i: nat): Word
    requires i < 4
  {
    Word(s[0][i], s[1][i], s[2][i], s[3][i])
  }

  /** The state whose columns are w0, w1, w2 and w3. */
  function FromColumns(w0: Word, w1: Word, w2: Word, w3: Word): (r: State)
    ensures ColumnOf(r, 0) == w0 && ColumnOf(r, 1) == w1
    ensures ColumnOf(r, 2) == w2 && ColumnOf(r, 3) == w3
  {
    seq(4, row requires 0 <= row < 4 => [ByteOf(w0, row), ByteOf(w1, row), ByteOf(w2, row), ByteOf(w3, row)])
  }

  /** Byte k of a column. */
  function ByteOf(w: Word, k: nat): bv8
    requires k < 4
  {
    if k == 0 then w.c0 else if k == 1 then w.c1 else if k == 2 then w.c2 else w.c3
  }

  /** Two states with the same four columns are equal. */
  lemma ColumnsExt(s: State, t: State)
    requires ColumnOf(s, 0) == ColumnOf(t, 0) && ColumnOf(s, 1) == ColumnOf(t, 1)
    requires ColumnOf(s, 2) == ColumnOf(t, 2) && ColumnOf(s, 3) == ColumnOf(t, 3)
    ensures s == t
  {
    StateExt(s, t);
  }

  /** The matrix of MixColumns, or of InvMixColumns when decrypting. */
  function MixMatrix(inverse: bool): Matrix {
    if inverse then IN_COL_MAT else COL_MAT
  }

  /**
   * MixColumns / InvMixColumns: every column is multiplied by the matrix;
   * entry [r][i] of the result is row r of the matrix times column i, the
   * four gmult products XORed together.
   */
  function MixColumns(s: State, inverse: bool): (r: State)
    ensures forall i | 0 <= i < 4 :: ColumnOf(r, i) == Apply(MixMatrix(inverse), ColumnOf(s, i))
  {
    var m := MixMatrix(inverse);
    FromColumns(Apply(m, ColumnOf(s, 0)), Apply(m, ColumnOf(s, 1)), Apply(m, ColumnOf(s, 2)), Apply(m, ColumnOf(s, 3)))
  }

  /** Entry [r][i] of MixColumns, as `mixColumns` writes it. */
  lemma MixColumnsEntry(s: State, inverse: bool, r: nat, i: nat)
    requires r < 4 && i < 4
    ensures MixColumns(s, inverse)[r][i] == Dot(Row(MixMatrix(inverse), r), ColumnOf(s, i))
  {
    var t := MixColumns(s, inverse);
    var m := MixMatrix(inverse);
    hide MixColumns, FromColumns, Apply, Dot, MixMatrix;
    assert ColumnOf(t, i) == Apply(m, ColumnOf(s, i));
    ApplyByte(m, ColumnOf(s, i), r);
    ColumnByte(t, i, r);
  }

  /** Byte k of a matrix times a column is row k of the matrix times the column. */
  lemma ApplyByte(m: Matrix, x: Word, k: nat)
    requires k < 4
    ensures ByteOf(Apply(m, x), k) == Dot(Row(m, k), x)
  {
  }

  /** Byte r of column i is entry [r][i]. */
  lemma ColumnByte(s: State, i: nat, r: nat)
    requires i < 4 && r < 4
    ensures ByteOf(ColumnOf(s, i), r) == s[r][i]
  {
  }

  /** When both matrices undo each other, mixing with one and then the other is the identity. */
  lemma MixTwice(s: State, first: bool)
    requires Product(MixMatrix(!first), MixMatrix(first)) == Identity
    ensures MixColumns(MixColumns(s, first), !first) == s
  {
    var t := MixColumns(MixColumns(s, first), !first);
    hide *;
    ApplyInverse(MixMatrix(!first), MixMatrix(first), ColumnOf(s, 0));
    ApplyInverse(MixMatrix(!first), MixMatrix(first), ColumnOf(s, 1));
    ApplyInverse(MixMatrix(!first), MixMatrix(first), ColumnOf(s, 2));
    ApplyInverse(MixMatrix(!first), MixMatrix(first), ColumnOf(s, 3));
    ColumnsExt(t, s);
  }

  /** InvMixColumns undoes MixColumns ... */
  lemma InvMixColumnsMixColumns(s: State)
    ensures MixColumns(MixColumns(s, false), true) == s
  {
    InColMatColMat();
    hide Product;
    MixTwice(s, false);
  }

  /** ... and MixColumns undoes InvMixColumns. */
  lemma MixColumnsInvMixColumns(s: State)
    ensures MixColumns(MixColumns(s, true), false) == s
  {
    ColMatInColMat();
    hide Product;
    MixTwice(s, true);
  }
}
