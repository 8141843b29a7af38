/**
 * The AES-128 block cipher on one 16-byte block (FIPS 197, section 5.1 for
 * Cipher and section 5.3 for InvCipher), in the round order of the
 * `cipher` of `AES.java`, and the proof that each direction undoes the other.
 */
module BlockCipher {
  import opened RoundTransforms

  /** Number of rounds (Nr) of AES-128. */
  const Nr := 10

  /** getRoundKeyByNr: the 16 bytes of round key n, bytes 16n .. 16n + 15 of the expanded key. */
  function RoundKey(w: seq<bv8>, n: nat): (r: seq<bv8>)
    requires |w| == 176 && n <= Nr
    ensures |r| == 16 && forall i | 0 <= i < 16 :: r[i] == w[16 * n + i]
  {
    w[16 * n .. 16 * n + 16]
  }

  /** Round n of Cipher, 1 <= n < Nr: SubBytes, ShiftRows, MixColumns, AddRoundKey. */
  function EncryptRound(w: seq<bv8>, s: State, n: nat): State
    requires |w| == 176 && n <= Nr
  {
    XorKey(MixColumns(ShiftRows(SubBytes(s, false), false), false), RoundKey(w, n))
  }

  /** The state after the initial AddRoundKey and rounds 1 .. n of Cipher. */
  function EncryptRounds(w: seq<bv8>, s: State, n: nat): State
    requires |w| == 176 && n < Nr
    decreases n
  {
    if n == 0 then XorKey(s, RoundKey(w, 0))
    else EncryptRound(w, EncryptRounds(w, s, n - 1), n)
  }

  /** Round n of InvCipher, Nr > n >= 1: InvShiftRows, InvSubBytes, AddRoundKey, InvMixColumns. */
  function DecryptRound(w: seq<bv8>, s: State, n: nat): State
    requires |w| == 176 && n <= Nr
  {
    MixColumns(XorKey(SubBytes(ShiftRows(s, true), true), RoundKey(w, n)), true)
  }

  /** The state after the initial AddRoundKey (round key Nr) and rounds Nr - 1 down to n of InvCipher. */
  function DecryptRounds(w: seq<bv8>, s: State, n: nat): State
    requires |w| == 176 && 1 <= n <= Nr
    decreases Nr - n
  {
    if n == Nr then XorKey(s, RoundKey(w, Nr))
    else DecryptRound(w, DecryptRounds(w, s, n + 1), n)
  }

  /** cipher on the state: Cipher (Fig. 5), or InvCipher (Fig. 12) when inverse. */
  function CipherState(w: seq<bv8>, s: State, inverse: bool): State
    requires |w| == 176
  {
    if inverse then
      XorKey(SubBytes(ShiftRows(DecryptRounds(w, s, 1), true), true), RoundKey(w, 0))
    else
      XorKey(ShiftRows(SubBytes(EncryptRounds(w, s, Nr - 1), false), false), RoundKey(w, Nr))
  }

  // ---------------------------------------------------------------------
  // InvCipher undoes Cipher

  lemma EncryptRoundsStep(w: seq<bv8>, s: State, n: nat)
    requires |w| == 176 && 1 <= n < Nr
    ensures EncryptRounds(w, s, n) == EncryptRound(w, EncryptRounds(w, s, n - 1), n)
  {
  }

  lemma DecryptRoundsStep(w: seq<bv8>, s: State, n: nat)
    requires |w| == 176 && 1 <= n < Nr
    ensures DecryptRounds(w, s, n) == DecryptRound(w, DecryptRounds(w, s, n + 1), n)
  {
  }

  /** The number of rounds, stated so that it can be used with every definition hidden. */
  lemma RoundCount()
    ensures Nr == 10
  {
  }

  /** The definition of a round of Cipher ... */
  lemma EncryptRoundIs(w: seq<bv8>, s: State, n: nat)
    requires |w| == 176 && n <= Nr
    ensures EncryptRound(w, s, n) == XorKey(MixColumns(ShiftRows(SubBytes(s, false), false), false), RoundKey(w, n))
  {
  }

  /** ... and of a round of InvCipher. */
  lemma DecryptRoundIs(w: seq<bv8>, s: State, n: nat)
    requires |w| == 176 && n <= Nr
    ensures DecryptRound(w, s, n) == MixColumns(XorKey(SubBytes(ShiftRows(s, true), true), RoundKey(w, n)), true)
  {
  }

  /** Cipher begins with AddRoundKey 0 ... */
  lemma EncryptRoundsFirst(w: seq<bv8>, s: State)
    requires |w| == 176
    ensures EncryptRounds(w, s, 0) == XorKey(s, RoundKey(w, 0))
  {
  }

  /** ... and InvCipher with AddRoundKey Nr. */
  lemma DecryptRoundsFirst(w: seq<bv8>, s: State)
    requires |w| == 176
    ensures DecryptRounds(w, s, Nr) == XorKey(s, RoundKey(w, Nr))
  {
  }

  /** The last round of Cipher, which has no MixColumns ... */
  lemma CipherStateForward(w: seq<bv8>, s: State)
    requires |w| == 176
    ensures CipherState(w, s, false) == XorKey(ShiftRows(SubBytes(EncryptRounds(w, s, Nr - 1), false), false), RoundKey(w, Nr))
  {
  }

  /** ... and the last round of InvCipher. */
  lemma CipherStateInverse(w: seq<bv8>, s: State)
    requires |w| == 176
    ensures CipherState(w, s, true) == XorKey(SubBytes(ShiftRows(DecryptRounds(w, s, 1), true), true), RoundKey(w, 0))
  {
  }

  /** The first AddRoundKey of InvCipher undoes the last one of Cipher. */
  lemma DecryptFirstKey(w: seq<bv8>, s: State)
    requires |w| == 176
    ensures DecryptRounds(w, CipherState(w, s, false), Nr)
         == ShiftRows(SubBytes(EncryptRounds(w, s, Nr - 1), false), false)
  {
    var a := ShiftRows(SubBytes(EncryptRounds(w, s, Nr - 1), false), false);
    XorKeyTwice(a, RoundKey(w, Nr));
  }

  /** The state InvCipher has reached after its rounds down to n is the one Cipher had before SubBytes of round n. */
  lemma {:induction false} DecryptRoundsOfEncrypt(w: seq<bv8>, s: State, n: nat)
    requires |w| == 176 && 1 <= n <= Nr
    ensures DecryptRounds(w, CipherState(w, s, false), n)
         == ShiftRows(SubBytes(EncryptRounds(w, s, n - 1), false), false)
    decreases Nr - n
  {
    hide *;
    if n == Nr {
      DecryptFirstKey(w, s);
    } else {
      DecryptRoundsOfEncrypt(w, s, n + 1);
      DecryptRoundsStep(w, CipherState(w, s, false), n);
      EncryptRoundsStep(w, s, n);
      UndoEncryptRound(w, EncryptRounds(w, s, n - 1), n);
    }
  }

  /** InvShiftRows, InvSubBytes, AddRoundKey n and InvMixColumns undo round n of Cipher. */
  lemma UndoEncryptRound(w: seq<bv8>, e: State, n: nat)
    requires |w| == 176 && n <= Nr
    ensures DecryptRound(w, ShiftRows(SubBytes(EncryptRound(w, e, n), false), false), n)
         == ShiftRows(SubBytes(e, false), false)
  {
    var a := ShiftRows(SubBytes(e, false), false);
    var m := MixColumns(a, false);
    var k := RoundKey(w, n);
    var x := EncryptRound(w, e, n);
    assert x == XorKey(m, k);
    hide *;
    InvShiftRowsShiftRows(SubBytes(x, false));
    InvSubBytesSubBytes(x);
    XorKeyTwice(m, k);
    InvMixColumnsMixColumns(a);
  }

  /** cipher(cipher(s, false), true) == s for every expanded key. */
  lemma DecryptEncrypt(w: seq<bv8>, s: State)
    requires |w| == 176
    ensures CipherState(w, CipherState(w, s, false), true) == s
  {
    var c := CipherState(w, s, false);
    var e0 := EncryptRounds(w, s, 0);
    var k0 := RoundKey(w, 0);
    assert e0 == XorKey(s, k0);
    hide *;
    DecryptRoundsOfEncrypt(w, s, 1);
    InvShiftRowsShiftRows(SubBytes(e0, false));
    InvSubBytesSubBytes(e0);
    XorKeyTwice(s, k0);
  }

  // ---------------------------------------------------------------------
  // Cipher undoes InvCipher

  /** The first AddRoundKey of Cipher undoes the last one of InvCipher. */
  lemma EncryptFirstKey(w: seq<bv8>, c: State)
    requires |w| == 176
    ensures EncryptRounds(w, CipherState(w, c, true), 0)
         == SubBytes(ShiftRows(DecryptRounds(w, c, 1), true), true)
  {
    var a := SubBytes(ShiftRows(DecryptRounds(w, c, 1), true), true);
    XorKeyTwice(a, RoundKey(w, 0));
  }

  /** The state Cipher has reached after round n is the one InvCipher had after InvSubBytes of round n + 1. */
  lemma {:induction false} EncryptRoundsOfDecrypt(w: seq<bv8>, c: State, n: nat)
    requires |w| == 176 && n < Nr
    ensures EncryptRounds(w, CipherState(w, c, true), n)
         == SubBytes(ShiftRows(DecryptRounds(w, c, n + 1), true), true)
    decreases n
  {
    hide *;
    if n == 0 {
      EncryptFirstKey(w, c);
    } else {
      EncryptRoundsOfDecrypt(w, c, n - 1);
      EncryptRoundsStep(w, CipherState(w, c, true), n);
      DecryptRoundsStep(w, c, n);
      UndoDecryptRound(w, DecryptRounds(w, c, n + 1), n);
    }
  }

  /** SubBytes, ShiftRows, MixColumns and AddRoundKey n undo round n of InvCipher. */
  lemma UndoDecryptRound(w: seq<bv8>, d: State, n: nat)
    requires |w| == 176 && n <= Nr
    ensures EncryptRound(w, SubBytes(ShiftRows(DecryptRound(w, d, n), true), true), n)
         == SubBytes(ShiftRows(d, true), true)
  {
    var a := SubBytes(ShiftRows(d, true), true);
    var k := RoundKey(w, n);
    var x := XorKey(a, k);
    var y := DecryptRound(w, d, n);
    assert y == MixColumns(x, true);
    hide *;
    SubBytesInvSubBytes(ShiftRows(y, true));
    ShiftRowsInvShiftRows(y);
    MixColumnsInvMixColumns(x);
    XorKeyTwice(a, k);
  }

  /** cipher(cipher(c, true), false) == c for every expanded key. */
  lemma EncryptDecrypt(w: seq<bv8>, c: State)
    requires |w| == 176
    ensures CipherState(w, CipherState(w, c, true), false) == c
  {
    var d := DecryptRounds(w, c, Nr);
    var k := RoundKey(w, Nr);
    assert d == XorKey(c, k);
    hide *;
    EncryptRoundsOfDecrypt(w, c, Nr - 1);
    SubBytesInvSubBytes(ShiftRows(d, true));
    ShiftRowsInvShiftRows(d);
    XorKeyTwice(c, k);
  }

  // ---------------------------------------------------------------------
  // Bytes in and out

  /**
   * Block i of a byte sequence as the state: entry [r][c] is byte
   * 16i + 4c + r, so that the block fills the state column by column.
   */
  function BlockState(input: seq<bv8>, i: nat): (s: State)
    requires 16 * i + 16 <= |input|
    ensures forall r, c | 0 <= r < 4 && 0 <= c < 4 :: s[r][c] == input[16 * i + 4 * c + r]
  {
    seq(4, r requires 0 <= r < 4 => seq(4, c requires 0 <= c < 4 => input[16 * i + 4 * c + r]))
  }

  /** The state read out column by column, as `cipher` converts it to a list. */
  function StateBytes(s: State): (r: seq<bv8>)
    ensures |r| == 16 && forall k | 0 <= k < 16 :: r[k] == s[k % 4][k / 4]
  {
    seq(16, k requires 0 <= k < 16 => s[k % 4][k / 4])
  }

  /** Reading a block into the state and out again gives back the block ... */
  lemma StateBytesBlockState(block: seq<bv8>)
    requires |block| == 16
    ensures StateBytes(BlockState(block, 0)) == block
  {
    var t := StateBytes(BlockState(block, 0));
    forall k | 0 <= k < 16
      ensures t[k] == block[k]
    {
      assert 4 * (k / 4) + k % 4 == k;
    }
  }

  /** ... and writing the state out and reading it back gives back the state. */
  lemma BlockStateStateBytes(s: State)
    ensures BlockState(StateBytes(s), 0) == s
  {
    var t := BlockState(StateBytes(s), 0);
    forall r, c | 0 <= r < 4 && 0 <= c < 4
      ensures t[r][c] == s[r][c]
    {
      assert (4 * c + r) % 4 == r && (4 * c + r) / 4 == c;
    }
    StateExt(t, s);
  }

  /** cipher: the block cipher on a state, with the result as 16 bytes in column order. */
  function Cipher(w: seq<bv8>, s: State, inverse: bool): (r: seq<bv8>)
    requires |w| == 176
    ensures |r| == 16
  {
    StateBytes(CipherState(w, s, inverse))
  }

  /** The definition of Cipher, stated so that it can be used with every definition hidden. */
  lemma CipherIs(w: seq<bv8>, s: State, inverse: bool)
    requires |w| == 176
    ensures Cipher(w, s, inverse) == StateBytes(CipherState(w, s, inverse))
  {
  }

  /** The block cipher on 16 bytes. */
  function CipherBlock(w: seq<bv8>, block: seq<bv8>, inverse: bool): (r: seq<bv8>)
    requires |w| == 176 && |block| == 16
    ensures |r| == 16
  {
    Cipher(w, BlockState(block, 0), inverse)
  }

  /** Decrypting an encrypted block gives back the block ... */
  lemma DecryptEncryptBlock(w: seq<bv8>, block: seq<bv8>)
    requires |w| == 176 && |block| == 16
    ensures CipherBlock(w, CipherBlock(w, block, false), true) == block
  {
    var s := BlockState(block, 0);
    var e := CipherState(w, s, false);
    hide CipherState;
    BlockStateStateBytes(e);
    DecryptEncrypt(w, s);
    StateBytesBlockState(block);
  }

  /** ... and encrypting a decrypted block gives back the block. */
  lemma EncryptDecryptBlock(w: seq<bv8>, block: seq<bv8>)
    requires |w| == 176 && |block| == 16
    ensures CipherBlock(w, CipherBlock(w, block, true), false) == block
  {
    var s := BlockState(block, 0);
    var d := CipherState(w, s, true);
    hide CipherState;
    BlockStateStateBytes(d);
    EncryptDecrypt(w, s);
    StateBytesBlockState(block);
  }
}
