/**
 * The message layer of `encrypt` and `decrypt`: the input is zero-padded up
 * to a multiple of 16 bytes and every 16-byte block goes through the block
 * cipher on its own, the results concatenated in order. This is the
 * electronic codebook mode of NIST SP 800-38A, section 6.1.
 */
module EcbMode {
  import opened RoundTransforms
  import opened BlockCipher

  /** The length after padding: the next multiple of 16, or the length itself when it already is one. */
  function PaddedLength(n: nat): (m: nat)
    ensures m % 16 == 0 && n <= m < n + 16
    ensures n % 16 == 0 ==> m == n
  {
    if n % 16 != 0 then (n / 16 + 1) * 16 else n
  }

  /** The padded length, spelled as `encrypt` and `decrypt` compute it when the length is not a multiple of 16. */
  lemma PadLength(n: nat)
    requires n % 16 != 0
    ensures PaddedLength(n) == (n / 16 + 1) * 16
  {
  }

  /** The input copied into a zero-filled buffer of the padded length. */
  function Pad(input: seq<bv8>): (r: seq<bv8>)
    ensures |r| == PaddedLength(|input|)
    ensures r[..|input|] == input
    ensures forall k | |input| <= k < |r| :: r[k] == 0
  {
    if |input| % 16 != 0 then input + seq(PaddedLength(|input|) - |input|, _ => 0) else input
  }

  /** Padding a padded input changes nothing. */
  lemma PadIdempotent(input: seq<bv8>)
    ensures Pad(Pad(input)) == Pad(input)
  {
  }

  /** Block k (bytes 16k .. 16k+15) of a byte sequence. */
  function Block(p: seq<bv8>, k: nat): (r: seq<bv8>)
    requires 16 * k + 16 <= |p|
    ensures |r| == 16
  {
    p[16 * k .. 16 * k + 16]
  }

  /** The state `encrypt` and `decrypt` build for block i is the state of that block on its own. */
  lemma BlockStateOfBlock(p: seq<bv8>, i: nat)
    requires 16 * i + 16 <= |p|
    ensures BlockState(p, i) == BlockState(Block(p, i), 0)
  {
    var s := BlockState(p, i);
    var t := BlockState(Block(p, i), 0);
    forall r, c | 0 <= r < 4 && 0 <= c < 4
      ensures s[r][c] == t[r][c]
    {
    }
    StateExt(s, t);
  }

  /** The output of the first n blocks, in the order the loop of `encrypt` appends them. */
  function EcbBlocks(w: seq<bv8>, p: seq<bv8>, n: nat, inverse: bool): (r: seq<bv8>)
    requires |w| == 176 && 16 * n <= |p|
    ensures |r| == 16 * n
  {
    if n == 0 then [] else EcbBlocks(w, p, n - 1, inverse) + Cipher(w, BlockState(p, n - 1), inverse)
  }

  /** A whole padded message through the block cipher. */
  function Ecb(w: seq<bv8>, p: seq<bv8>, inverse: bool): (r: seq<bv8>)
    requires |w| == 176 && |p| % 16 == 0
    ensures |r| == |p|
  {
    EcbBlocks(w, p, |p| / 16, inverse)
  }

  /** One more block of output. */
  lemma EcbBlocksStep(w: seq<bv8>, p: seq<bv8>, n: nat, inverse: bool)
    requires |w| == 176 && 16 * n + 16 <= |p|
    ensures EcbBlocks(w, p, n + 1, inverse) == EcbBlocks(w, p, n, inverse) + Cipher(w, BlockState(p, n), inverse)
  {
  }

  /** The whole message is all of its blocks. */
  lemma EcbAllBlocks(w: seq<bv8>, p: seq<bv8>, n: nat, inverse: bool)
    requires |w| == 176 && |p| % 16 == 0 && n == |p| / 16
    ensures Ecb(w, p, inverse) == EcbBlocks(w, p, n, inverse)
  {
  }

  /** Block k of the output is the cipher of block k of the input. */
  lemma {:induction false} EcbBlocksBlock(w: seq<bv8>, p: seq<bv8>, n: nat, k: nat, inverse: bool)
    requires |w| == 176 && 16 * n <= |p| && k < n
    ensures Block(EcbBlocks(w, p, n, inverse), k) == CipherBlock(w, Block(p, k), inverse)
    decreases n
  {
    hide Cipher, BlockState;
    var prev := EcbBlocks(w, p, n - 1, inverse);
    var r := EcbBlocks(w, p, n, inverse);
    assert r == prev + Cipher(w, BlockState(p, n - 1), inverse);
    if k < n - 1 {
      EcbBlocksBlock(w, p, n - 1, k, inverse);
      assert Block(r, k) == Block(prev, k);
    } else {
      assert Block(r, k) == Cipher(w, BlockState(p, n - 1), inverse);
      BlockStateOfBlock(p, k);
    }
  }

  /** The same for the whole message. */
  lemma EcbBlock(w: seq<bv8>, p: seq<bv8>, k: nat, inverse: bool)
    requires |w| == 176 && |p| % 16 == 0 && 16 * k + 16 <= |p|
    ensures Block(Ecb(w, p, inverse), k) == CipherBlock(w, Block(p, k), inverse)
  {
    EcbBlocksBlock(w, p, |p| / 16, k, inverse);
  }

  /** Equal input blocks give equal output blocks, wherever they stand in the message. */
  lemma EcbEqualBlocks(w: seq<bv8>, p: seq<bv8>, j: nat, k: nat, inverse: bool)
    requires |w| == 176 && |p| % 16 == 0 && 16 * j + 16 <= |p| && 16 * k + 16 <= |p|
    requires Block(p, j) == Block(p, k)
    ensures Block(Ecb(w, p, inverse), j) == Block(Ecb(w, p, inverse), k)
  {
    EcbBlock(w, p, j, inverse);
    EcbBlock(w, p, k, inverse);
  }

  /** Two sequences of whole blocks that agree block by block are equal. */
  lemma BlocksExt(a: seq<bv8>, b: seq<bv8>)
    requires |a| == |b| && |a| % 16 == 0
    requires forall k: nat | 16 * k + 16 <= |a| :: Block(a, k) == Block(b, k)
    ensures a == b
  {
    forall i | 0 <= i < |a|
      ensures a[i] == b[i]
    {
      var k := i / 16;
      assert 16 * k <= i < 16 * k + 16;
      assert Block(a, k)[i - 16 * k] == Block(b, k)[i - 16 * k];
    }
  }

  /** Decrypting an encrypted message gives back the message ... */
  lemma EcbDecryptEncrypt(w: seq<bv8>, p: seq<bv8>)
    requires |w| == 176 && |p| % 16 == 0
    ensures Ecb(w, Ecb(w, p, false), true) == p
  {
    var c := Ecb(w, p, false);
    var d := Ecb(w, c, true);
    forall k: nat | 16 * k + 16 <= |d|
      ensures Block(d, k) == Block(p, k)
    {
      EcbBlock(w, c, k, true);
      EcbBlock(w, p, k, false);
      DecryptEncryptBlock(w, Block(p, k));
    }
    BlocksExt(d, p);
  }

  /** ... and encrypting a decrypted message gives back the message. */
  lemma EcbEncryptDecrypt(w: seq<bv8>, c: seq<bv8>)
    requires |w| == 176 && |c| % 16 == 0
    ensures Ecb(w, Ecb(w, c, true), false) == c
  {
    var p := Ecb(w, c, true);
    var e := Ecb(w, p, false);
    forall k: nat | 16 * k + 16 <= |e|
      ensures Block(e, k) == Block(c, k)
    {
      EcbBlock(w, p, k, false);
      EcbBlock(w, c, k, true);
      EncryptDecryptBlock(w, Block(c, k));
    }
    BlocksExt(e, c);
  }

  /**
   * Encrypting a message and decrypting the result gives back the padded
   * message: the ciphertext is already a multiple of 16 bytes, so the second
   * padding adds nothing.
   */
  lemma DecryptAfterEncrypt(w: seq<bv8>, message: seq<bv8>)
    requires |w| == 176
    ensures var c := Ecb(w, Pad(message), false);
      Pad(c) == c && Ecb(w, Pad(c), true) == Pad(message)
  {
    EcbDecryptEncrypt(w, Pad(message));
  }
}
