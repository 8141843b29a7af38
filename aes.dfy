/**
 * The cipher object of src/crypto/aes/AES.java: the message, the key, the
 * expanded key, the last output and the error code are fields that
 * `expandKey`, `encrypt` and `decrypt` overwrite. Java's `null` for a field
 * not yet computed is the empty sequence; a thrown exception is a `Failure`
 * result, which `encrypt` and `decrypt` swallow after `error` has been set.
 */
module Aes {
  import opened AesErrors
  import opened AesTables
  import opened KeySchedule
  import opened RoundTransforms
  import opened BlockCipher
  import opened EcbMode

  /**
   * The loops of expandKey for a 16-byte key: the key is copied into a fresh
   * 176-byte buffer, and each of the remaining 40 words is word i - 4 XORed
   * with the previous word, passed through keyScheduleCore at every fourth
   * word.
   */
  method ExpandKeyBytes(key: seq<bv8>) returns (r: seq<bv8>)
    requires |key| == 16
    ensures r == KeyExpansion(key)
  {
    hide KeyExpansion, ExpandWords, NextWord, KeyScheduleCore, SubByte, Sbox, Rcon, XorWord, SubstituteWord, RotateWord;
    ghost var w := KeyExpansion(key);
    KeyExpansionPrefix(key);
    var out := new bv8[176](_ => 0);
    for i := 0 to 16
      invariant forall k | 0 <= k < i :: out[k] == w[k]
    {
      out[i] := key[i];
      assert key[i] == w[..16][i];
    }
    for i := 4 to 44
      invariant forall k | 0 <= k < 4 * i :: out[k] == w[k]
    {
      var tmpWord := [out[4 * (i - 1)], out[4 * (i - 1) + 1], out[4 * (i - 1) + 2], out[4 * (i - 1) + 3]];
      assert tmpWord == WordAt(w, i - 1);
      tmpWord := if i % 4 == 0 then KeyScheduleCore(tmpWord, i / 4).value else tmpWord;
      assert tmpWord == Temp(WordAt(w, i - 1), i);
      XorWordInto(out, key, i, tmpWord, w);
    }
    r := out[..];
  }

  /**
   * The XOR step of expandKey: word i of the buffer becomes word i - 4 XOR
   * tmpWord, byte by byte. When the first i words are those of the expanded
   * key and tmpWord is the word the recurrence prescribes, the first i + 1
   * words are; the rest of the buffer is untouched.
   */
  method XorWordInto(out: array<bv8>, key: seq<bv8>, i: nat, tmpWord: seq<bv8>, ghost w: seq<bv8>)
    requires out.Length == 176 && |key| == 16 && 4 <= i < 44 && |tmpWord| == 4
    requires w == KeyExpansion(key) && tmpWord == Temp(WordAt(w, i - 1), i)
    requires forall k | 0 <= k < 4 * i :: out[k] == w[k]
    modifies out
    ensures forall k | 0 <= k < 4 * i + 4 :: out[k] == w[k]
    ensures forall k | 4 * i + 4 <= k < 176 :: out[k] == old(out[k])
  {
    hide KeyExpansion, ExpandWords, NextWord, KeyScheduleCore, SubByte, Sbox, Rcon, XorWord, SubstituteWord, RotateWord, Temp;
    for j := 0 to 4
      invariant forall k | 0 <= k < 4 * i + j :: out[k] == w[k]
      invariant forall k | 4 * i + j <= k < 176 :: out[k] == old(out[k])
    {
      out[4 * i + j] := out[4 * (i - 4) + j] ^ tmpWord[j];
      ExpansionByte(key, i, j, tmpWord);
    }
  }

  class AES {
    var input: seq<bv8>
    var output: seq<bv8>
    var key: seq<bv8>
    var expandedKey: seq<bv8>
    var error: AesError

    /** A fresh object holds the message and the key and no error; nothing is computed yet. */
    constructor (input: seq<bv8>, key: seq<bv8>)
      ensures this.input == input && this.key == key && error == NoErr
      ensures output == [] && expandedKey == []
    {
      this.input := input;
      this.key := key;
      output := [];
      expandedKey := [];
      error := NoErr;
    }

    /**
     * expandKey: a key that is not 16 bytes long sets `error` to KeyNot128Bits
     * and fails; otherwise the result is the 176-byte key schedule. Only
     * `error` may change, and only on failure.
     */
    method ExpandKey() returns (r: Result<seq<bv8>>)
      modifies this
      ensures |key| != 16 ==> r == Failure(KeyNot128Bits) && error == KeyNot128Bits
      ensures |key| == 16 ==> r == Success(KeyExpansion(key)) && error == old(error)
      ensures input == old(input) && output == old(output) && key == old(key)
      ensures expandedKey == old(expandedKey)
    {
      if |key| != 16 {
        error := KeyNot128Bits;
        return Failure(KeyNot128Bits);
      }
      var out := ExpandKeyBytes(key);
      return Success(out);
    }

    /** getRoundKeyByNr: round key n, copied out of the expanded key. */
    method GetRoundKeyByNr(roundNr: nat) returns (roundK: seq<bv8>)
      requires |expandedKey| == 176 && roundNr <= Nr
      ensures roundK == RoundKey(expandedKey, roundNr)
    {
      var k := new bv8[16](_ => 0);
      for i := 0 to 16
        modifies k
        invariant k[..i] == expandedKey[16 * roundNr .. 16 * roundNr + i]
      {
        k[i] := expandedKey[roundNr * 16 + i];
      }
      roundK := k[..];
    }

    /**
     * cipher: the ten rounds of Cipher, or of InvCipher when inverse, on one
     * state with the current expanded key, read out column by column.
     */
    method Cipher(state: State, inverse: bool) returns (tmp: seq<bv8>)
      requires |expandedKey| == 176
      ensures tmp == BlockCipher.Cipher(expandedKey, state, inverse)
    {
      hide *;
      RoundCount();
      var s := state;
      var roundKey;
      if inverse {
        roundKey := GetRoundKeyByNr(Nr);
        s := XorKey(s, roundKey);
        DecryptRoundsFirst(expandedKey, state);
        var i := Nr - 1;
        while i > 0
          invariant 0 <= i < Nr
          invariant s == DecryptRounds(expandedKey, state, i + 1)
        {
          s := ShiftRows(s, true);
          s := SubBytes(s, true);
          roundKey := GetRoundKeyByNr(i);
          s := XorKey(s, roundKey);
          s := MixColumns(s, true);
          DecryptRoundIs(expandedKey, DecryptRounds(expandedKey, state, i + 1), i);
          DecryptRoundsStep(expandedKey, state, i);
          i := i - 1;
        }
        s := ShiftRows(s, true);
        s := SubBytes(s, true);
        roundKey := GetRoundKeyByNr(0);
        s := XorKey(s, roundKey);
        CipherStateInverse(expandedKey, state);
      } else {
        roundKey := GetRoundKeyByNr(0);
        s := XorKey(s, roundKey);
        EncryptRoundsFirst(expandedKey, state);
        for i := 1 to Nr
          invariant s == EncryptRounds(expandedKey, state, i - 1)
        {
          s := SubBytes(s, false);
          s := ShiftRows(s, false);
          s := MixColumns(s, false);
          roundKey := GetRoundKeyByNr(i);
          s := XorKey(s, roundKey);
          EncryptRoundIs(expandedKey, EncryptRounds(expandedKey, state, i - 1), i);
          EncryptRoundsStep(expandedKey, state, i);
        }
        s := SubBytes(s, false);
        s := ShiftRows(s, false);
        roundKey := GetRoundKeyByNr(Nr);
        s := XorKey(s, roundKey);
        CipherStateForward(expandedKey, state);
      }
      assert s == CipherState(expandedKey, state, inverse);
      StateShape(s);
      tmp := [];
      for i := 0 to 4
        invariant tmp == StateBytes(s)[..4 * i]
      {
        for j := 0 to 4
          invariant tmp == StateBytes(s)[..4 * i + j]
        {
          assert StateBytes(s)[4 * i + j] == s[j][i];
          tmp := tmp + [s[j][i]];
        }
      }
      BlockCipher.CipherIs(expandedKey, state, inverse);
    }

    /**
     * The common body of encrypt and decrypt. When the key is not 16 bytes,
     * `error` becomes KeyNot128Bits and nothing else changes. Otherwise the
     * expanded key is stored, `input` is replaced by its zero-padded copy and
     * `output` becomes every block of it through the cipher, in order.
     */
    method Run(inverse: bool)
      modifies this
      ensures key == old(key)
      ensures |key| != 16 ==> error == KeyNot128Bits
      ensures |key| != 16 ==> input == old(input) && output == old(output) && expandedKey == old(expandedKey)
      ensures |key| == 16 ==> error == old(error) && input == Pad(old(input))
      ensures |key| == 16 ==> expandedKey == KeyExpansion(key) && output == Ecb(expandedKey, input, inverse)
    {
      hide *;
      var r := ExpandKey();
      if r.Failure? {
        return;
      }
      expandedKey := r.value;
      PadInput();
      CipherAll(inverse);
    }

    /** Extends `input` to a multiple of 16 bytes with zeros, when it is not one already. */
    method PadInput()
      modifies this
      ensures input == Pad(old(input))
      ensures output == old(output) && key == old(key) && expandedKey == old(expandedKey) && error == old(error)
    {
      hide *;
      if |input| % 16 != 0 {
        var tmp := new bv8[(|input| / 16 + 1) * 16](_ => 0);
        for i := 0 to |input|
          modifies tmp
          invariant tmp[..i] == input[..i]
          invariant forall k | i <= k < tmp.Length :: tmp[k] == 0
        {
          tmp[i] := input[i];
        }
        PadLength(|input|);
        assert tmp[..] == Pad(input);
        input := tmp[..];
      }
    }

    /** Every 16-byte block of `input` through cipher with the stored key, the results stored in order in `output`. */
    method CipherAll(inverse: bool)
      requires |expandedKey| == 176 && |input| % 16 == 0
      modifies this
      ensures input == old(input) && key == old(key) && expandedKey == old(expandedKey) && error == old(error)
      ensures output == Ecb(expandedKey, input, inverse)
    {
      hide *;
      var tmpOut: seq<bv8> := [];
      for i := 0 to |input| / 16
        modifies {}
        invariant tmpOut == EcbBlocks(expandedKey, input, i, inverse)
      {
        var state := BlockState(input, i);
        var out := Cipher(state, inverse);
        EcbBlocksStep(expandedKey, input, i, inverse);
        tmpOut := tmpOut + out;
      }
      EcbAllBlocks(expandedKey, input, |input| / 16, inverse);
      var o := new bv8[|tmpOut|](_ => 0);
      for i := 0 to |tmpOut|
        modifies o
        invariant o[..i] == tmpOut[..i]
      {
        o[i] := tmpOut[i];
      }
      output := o[..];
    }

    /** encrypt: the message through Cipher, block by block. */
    method Encrypt()
      modifies this
      ensures key == old(key)
      ensures |key| != 16 ==> error == KeyNot128Bits
      ensures |key| != 16 ==> input == old(input) && output == old(output) && expandedKey == old(expandedKey)
      ensures |key| == 16 ==> error == old(error) && input == Pad(old(input))
      ensures |key| == 16 ==> expandedKey == KeyExpansion(key) && output == Ecb(expandedKey, input, false)
    {
      Run(false);
    }

    /** decrypt: the message through InvCipher, block by block. */
    method Decrypt()
      modifies this
      ensures key == old(key)
      ensures |key| != 16 ==> error == KeyNot128Bits
      ensures |key| != 16 ==> input == old(input) && output == old(output) && expandedKey == old(expandedKey)
      ensures |key| == 16 ==> error == old(error) && input == Pad(old(input))
      ensures |key| == 16 ==> expandedKey == KeyExpansion(key) && output == Ecb(expandedKey, input, true)
    {
      Run(true);
    }

    /** setInput: replaces the message; nothing else changes. */
    method SetInput(input: seq<bv8>)
      modifies this
      ensures this.input == input
      ensures output == old(output) && key == old(key) && expandedKey == old(expandedKey) && error == old(error)
    {
      this.input := input;
    }

    /** setOutput: replaces the stored output; nothing else changes. */
    method SetOutput(output: seq<bv8>)
      modifies this
      ensures this.output == output
      ensures input == old(input) && key == old(key) && expandedKey == old(expandedKey) && error == old(error)
    {
      this.output := output;
    }

    /** setKey: replaces the key; the expanded key is left as it was until the next encrypt or decrypt. */
    method SetKey(key: seq<bv8>)
      modifies this
      ensures this.key == key
      ensures input == old(input) && output == old(output) && expandedKey == old(expandedKey) && error == old(error)
    {
      this.key := key;
    }
  }

  /**
   * How the cipher object is meant to be used: one object encrypts the
   * message, a second one, built from the first one's output and the same
   * 16-byte key, decrypts it. The result is the message padded with zeros to
   * a multiple of 16 bytes, and neither object records an error.
   */
  method EncryptThenDecrypt(message: seq<bv8>, key: seq<bv8>) returns (plain: seq<bv8>, encError: AesError, decError: AesError)
    requires |key| == 16
    ensures plain == Pad(message)
    ensures encError == NoErr && decError == NoErr
  {
    hide *;
    var enc := new AES(message, key);
    enc.Encrypt();
    var dec := new AES(enc.output, key);
    dec.Decrypt();
    DecryptAfterEncrypt(KeyExpansion(key), message);
    plain := dec.output;
    encError := enc.error;
    decError := dec.error;
  }
}
