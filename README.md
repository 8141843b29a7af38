# AES-128 cipher object, modelled in Dafny

This project models the AES-128 implementation of the Orsum-occulendi game server.
The implementation is `src/crypto/aes/AES.java`. It follows FIPS 197.

An `AES` object holds five fields:
- the message (`input`);
- the 16-byte key (`key`);
- the 176-byte key schedule (`expandedKey`);
- the result of the last run (`output`);
- an error code (`error`).

`encrypt` and `decrypt` work the same way:
1. They expand the key.
2. They zero-pad the message to a multiple of 16 bytes.
3. They put every 16-byte block through the ten rounds of Cipher (for `encrypt`) or InvCipher (for `decrypt`). The blocks are independent, which is electronic codebook mode.
4. They concatenate the results into `output`.

On a key that is not 16 bytes long, `expandKey` sets `error` and throws. `encrypt` and `decrypt` catch the exception, so the object keeps its other fields.

Modules, in dependency order:

| module | file | contents |
|---|---|---|
| `AesErrors` | `errors.dfy` | the `AESError` codes, and a `Result` type standing for "returned or threw" |
| `GaloisField` | `galois.dfy` | multiplication in GF(2^8) as a recursive specification (`FieldMul`), the field laws, and `gmult`'s loop as a method proved equal to it |
| `ColumnAlgebra` | `columns.dfy` | 4 x 4 matrices over GF(2^8) acting on four-byte columns; applying a matrix product is applying the factors in turn |
| `AesTables` | `tables.dfy` | S-box, inverse S-box, round constants, MixColumns matrices; the two matrices are inverse to each other |
| `RoundTransforms` | `rounds.dfy` | SubBytes, ShiftRows, AddRoundKey and MixColumns with their `inverse` flag, each with the law that undoes it |
| `KeySchedule` | `key_schedule.dfy` | `rotate_word`, `substitute_word`, `keyScheduleCore`, and the key schedule as a specification that is proved to be the unique sequence meeting the requirements of FIPS 197 section 5.2 |
| `BlockCipher` | `block_cipher.dfy` | `cipher` on one block: InvCipher undoes Cipher and vice versa, for every key schedule |
| `EcbMode` | `ecb.dfy` | padding and block-by-block processing of whole messages; decrypting the ciphertext gives back the padded message |
| `Aes` | `aes.dfy` | the `AES` class: `expandKey`'s loops, `getRoundKeyByNr`, `cipher`, `encrypt`, `decrypt` and the setters as methods on the fields, each proved against the specification functions above |

Behaviour of the code that the model keeps:
- **Errors.** The code does not return error values. It sets the `error` field and throws, and `encrypt`/`decrypt` swallow the exception. `output` and `expandedKey` then keep their old values. `error` is never reset to `noErr` after the constructor, so a later successful run leaves an earlier error code in place.
- **AddRoundKey length test.** `addRoundKey` compares the state's dimensions with `roundKey.length / 4`, using integer division. Any round key of 16 to 19 bytes is therefore accepted, and only its first 16 bytes are used.
- **Decrypt padding.** `decrypt` pads its input exactly as `encrypt` does. It does not refuse a length that is not a multiple of 16.
- **Error names.** The error codes are those of `AESError`: `noErr`, `unknownError`, `unequalLengthError`, `keyNot128Bits`, `no32BitWord`, `NullStateError`.

Java `byte` arithmetic is signed. Every operation of the core either masks the byte or truncates back to eight bits, so the model works on `bv8`.
- `subBytes` masks with `0xf0` and `0x0f` before indexing.
- `gmult` shifts `b` arithmetically (`b >>= 1` on a sign-extended byte). The method `GMult` models that shift as `(b >> 1) | (b & 0x80)` and still proves the product correct, because only the low eight bits are ever tested.

## Model

| member | source | states |
|---|---|---|
| GaloisField.GMult | src/crypto/aes/AES.java:365-383 | gmult's eight-step shift-and-add loop, including the arithmetic right shift of `b`, returns the field product FieldMul(one, two) of GF(2^8) modulo x^8+x^4+x^3+x+1 |
| GaloisField.MulCommutative | src/crypto/aes/AES.java:365-383 | the product gmult computes does not depend on the order of its operands |
| GaloisField.MulAssociative | src/crypto/aes/AES.java:365-383 | the product is associative, which the proof that InvMixColumns undoes MixColumns needs |
| GaloisField.MulDistributes | src/crypto/aes/AES.java:365-383 | multiplication distributes over XOR (field addition) in its right operand |
| GaloisField.MulDistributesLeft | src/crypto/aes/AES.java:365-383 | multiplication distributes over XOR in its left operand |
| GaloisField.MulZeroRight | src/crypto/aes/AES.java:365-383 | a times 0 is 0 |
| GaloisField.MulZeroLeft | src/crypto/aes/AES.java:365-383 | 0 times b is 0 |
| GaloisField.MulOneRight | src/crypto/aes/AES.java:365-383 | a times 1 is a |
| GaloisField.MulOneLeft | src/crypto/aes/AES.java:365-383 | 1 times b is b |
| GaloisField.MulBy2 | src/crypto/aes/AES.java:374-378 | multiplying by 2 is one step of the loop: shift left and reduce by 0x1b when the high bit was set (xtime) |
| GaloisField.FipsExamples | src/crypto/aes/AES.java:365-383 | the worked products of FIPS 197 section 4.2: {57}·{83} = {c1} and {57}·{13} = {fe} |
| ColumnAlgebra.ApplyInverse | src/crypto/aes/AES.java:385-408 | when the product of two matrices is the identity, mixing a column with the second and then the first gives back the column |
| AesTables.InvSubByteSubByte | src/crypto/aes/AES.java:316-325 | the inverse S-box lookup undoes the S-box lookup on every byte |
| AesTables.SubByteInvSubByte | src/crypto/aes/AES.java:316-325 | the S-box lookup undoes the inverse S-box lookup on every byte, so both tables are permutations |
| AesTables.RconPowers | src/crypto/aes/AES.java:91-104 | the round constants that keyScheduleCore adds are 1, then each the previous one times x in GF(2^8) |
| AesTables.InColMatColMat | src/crypto/aes/AES.java:393-403 | the inverse MixColumns matrix times the MixColumns matrix is the identity |
| AesTables.ColMatInColMat | src/crypto/aes/AES.java:393-403 | the MixColumns matrix times the inverse MixColumns matrix is the identity |
| RoundTransforms.SubBytes | src/crypto/aes/AES.java:306-329 | every entry of the result is the (inverse, when decrypting) S-box image of the same entry of the state |
| RoundTransforms.InvSubBytesSubBytes | src/crypto/aes/AES.java:306-329 | subBytes with inverse set undoes subBytes |
| RoundTransforms.SubBytesInvSubBytes | src/crypto/aes/AES.java:306-329 | subBytes undoes subBytes with inverse set |
| RoundTransforms.ShiftRows | src/crypto/aes/AES.java:340-354 | row 0 stays; entry [r][c] is entry [r][(c+r) mod 4] of the state when encrypting and [r][(c+4−r) mod 4] when decrypting |
| RoundTransforms.InvShiftRowsShiftRows | src/crypto/aes/AES.java:340-354 | shiftRows with inverse set undoes shiftRows |
| RoundTransforms.ShiftRowsInvShiftRows | src/crypto/aes/AES.java:340-354 | shiftRows undoes shiftRows with inverse set |
| RoundTransforms.AddRoundKey | src/crypto/aes/AES.java:289-304 | fails with unequalLengthError exactly when roundKey.length / 4 is not 4; otherwise entry [j][i] is state[j][i] XOR roundKey[4i+j] |
| RoundTransforms.AddRoundKeyTwice | src/crypto/aes/AES.java:289-304 | adding the same round key twice gives back the state |
| RoundTransforms.XorKeyTwice | src/crypto/aes/AES.java:289-304 | the same for a 16-byte round key, the form cipher uses |
| RoundTransforms.MixColumns | src/crypto/aes/AES.java:385-408 | column i of the result is the (inverse) MixColumns matrix applied to column i of the state |
| RoundTransforms.MixColumnsEntry | src/crypto/aes/AES.java:393-403 | entry [r][i] of the result is the XOR of the four products of matrix row r with column i |
| RoundTransforms.InvMixColumnsMixColumns | src/crypto/aes/AES.java:385-408 | mixColumns with inverse set undoes mixColumns |
| RoundTransforms.MixColumnsInvMixColumns | src/crypto/aes/AES.java:385-408 | mixColumns undoes mixColumns with inverse set |
| KeySchedule.RotateWord | src/crypto/aes/AES.java:55-64 | byte k of the result is byte (k+1) mod 4 of the word |
| KeySchedule.RotateWordFourTimes | src/crypto/aes/AES.java:55-64 | four rotations give back the word |
| KeySchedule.SubstituteWord | src/crypto/aes/AES.java:71-83 | byte k of the result is the S-box image of byte k of the word |
| KeySchedule.SubstituteWordInjective | src/crypto/aes/AES.java:71-83 | two words with the same substitution are equal |
| KeySchedule.KeyScheduleCore | src/crypto/aes/AES.java:91-104 | fails with no32BitWord exactly when the word is not four bytes; otherwise the result is SubWord(RotWord(word)) with rcon[i] XORed into byte 0 |
| KeySchedule.ExpandWordsPrefix | src/crypto/aes/AES.java:130-145 | every word the loop adds leaves the words before it unchanged |
| KeySchedule.WordAtExpansion | src/crypto/aes/AES.java:131-145 | word i of the expanded key is word i−4 XOR word i−1, and every fourth word i−1 first goes through keyScheduleCore(·, i/4) |
| KeySchedule.KeyExpansionCorrect | src/crypto/aes/AES.java:113-148 | the expanded key is 176 bytes, begins with the key and satisfies the recurrence of FIPS 197 section 5.2 for every word 4..43 |
| KeySchedule.KeyExpansionUnique | src/crypto/aes/AES.java:113-148 | any sequence meeting those requirements is the expanded key |
| Aes.ExpandKeyBytes | src/crypto/aes/AES.java:123-145 | the copy loop and the word loop of expandKey, on a 176-byte array, yield exactly KeyExpansion(key) |
| Aes.XorWordInto | src/crypto/aes/AES.java:141-144 | the XOR loop writes word i as word i−4 XOR tmpWord; given the first i words of the key schedule and the word the recurrence prescribes, the first i+1 words are the key schedule's and the rest of the buffer is untouched |
| BlockCipher.RoundKey | src/crypto/aes/AES.java:415-421 | round key n is the 16 bytes of the expanded key starting at 16n |
| BlockCipher.DecryptEncrypt | src/crypto/aes/AES.java:195-227 | the inverse branch of cipher undoes the forward branch on every state, for every 176-byte expanded key |
| BlockCipher.EncryptDecrypt | src/crypto/aes/AES.java:195-227 | the forward branch of cipher undoes the inverse branch on every state |
| BlockCipher.BlockState | src/crypto/aes/AES.java:166-172 | entry [r][c] of the state built for block i is message byte 16i+4c+r (column-major) |
| BlockCipher.StateBytes | src/crypto/aes/AES.java:229-237 | cipher's output list has 16 bytes, byte k being state entry [k mod 4][k / 4] |
| BlockCipher.StateBytesBlockState | src/crypto/aes/AES.java:166-172 | reading a block into a state and writing the state out again gives back the block |
| BlockCipher.BlockStateStateBytes | src/crypto/aes/AES.java:229-237 | writing a state out and reading it back gives back the state |
| BlockCipher.DecryptEncryptBlock | src/crypto/aes/AES.java:166-174 | on 16-byte blocks, decrypting the encryption of a block gives back the block |
| BlockCipher.EncryptDecryptBlock | src/crypto/aes/AES.java:166-174 | on 16-byte blocks, encrypting the decryption of a block gives back the block |
| EcbMode.PaddedLength | src/crypto/aes/AES.java:157-158 | the padded length is a multiple of 16, at least the length and less than 16 beyond it, and equal to it when it already is a multiple |
| EcbMode.PadLength | src/crypto/aes/AES.java:157-158 | for a length that is not a multiple of 16 the padded length is (length/16 + 1)·16, as the code computes it |
| EcbMode.Pad | src/crypto/aes/AES.java:157-163 | the padded input starts with the input and continues with zero bytes up to the padded length |
| EcbMode.PadIdempotent | src/crypto/aes/AES.java:157-163 | padding a padded input changes nothing |
| EcbMode.EcbBlocksBlock | src/crypto/aes/AES.java:166-176 | after n iterations of the block loop, output block k is the cipher of input block k |
| EcbMode.EcbBlock | src/crypto/aes/AES.java:166-176 | block k of the whole output is the cipher of block k of the message |
| EcbMode.EcbEqualBlocks | src/crypto/aes/AES.java:166-176 | equal message blocks give equal output blocks wherever they stand (the codebook property) |
| EcbMode.EcbDecryptEncrypt | src/crypto/aes/AES.java:259-268 | decrypting the ciphertext of a padded message gives back the padded message |
| EcbMode.EcbEncryptDecrypt | src/crypto/aes/AES.java:166-175 | encrypting the decryption of a padded message gives back the message |
| EcbMode.DecryptAfterEncrypt | src/crypto/aes/AES.java:251-257 | the ciphertext is already a multiple of 16 bytes, so decrypt's padding adds nothing, and decrypt recovers the padded message |
| Aes.AES.constructor | src/crypto/aes/AES.java:44-48 | the object holds the message and the key, error is noErr, and nothing is computed yet |
| Aes.AES.ExpandKey | src/crypto/aes/AES.java:113-148 | a key that is not 16 bytes sets error to keyNot128Bits and fails; otherwise the result is KeyExpansion(key); no other field changes |
| Aes.AES.GetRoundKeyByNr | src/crypto/aes/AES.java:415-421 | the copied bytes are RoundKey(expandedKey, n) |
| Aes.AES.Cipher | src/crypto/aes/AES.java:195-240 | the round loops and the column-major output loop of cipher compute the specification Cipher(expandedKey, state, inverse) |
| Aes.AES.PadInput | src/crypto/aes/AES.java:157-163 | input becomes Pad(input); no other field changes |
| Aes.AES.CipherAll | src/crypto/aes/AES.java:166-182 | output becomes Ecb(expandedKey, input, inverse); no other field changes |
| Aes.AES.Run | src/crypto/aes/AES.java:150-186 | with a bad key only error changes, to keyNot128Bits; otherwise expandedKey is the key schedule, input is padded and output is every block through the cipher, and error keeps its value |
| Aes.AES.Encrypt | src/crypto/aes/AES.java:150-186 | Run with the forward cipher |
| Aes.AES.Decrypt | src/crypto/aes/AES.java:245-279 | Run with the inverse cipher, including the padding of the input |
| Aes.AES.SetInput | src/crypto/aes/AES.java:427-429 | input is replaced and nothing else changes |
| Aes.AES.SetOutput | src/crypto/aes/AES.java:435-437 | output is replaced and nothing else changes |
| Aes.AES.SetKey | src/crypto/aes/AES.java:443-445 | key is replaced; the stored expanded key stays until the next encrypt or decrypt |
| Aes.EncryptThenDecrypt | src/crypto/aes/AES.java:150-279 | an object decrypting the output of another object's encrypt, with the same 16-byte key, yields the zero-padded message, and neither object records an error |

## Left out

- `AESConst`, the class holding the S-box, inverse S-box, round constants and MixColumns matrices, is not part of this model. The tables in `tables.dfy` are the published ones of FIPS 197, and the inverse lemmas check the two S-boxes and the two matrices against each other.
- The FIPS 197 test vectors for the whole cipher and the key schedule (appendices A.1, B and C.1) are not proved. Evaluating ten rounds on constants is beyond what the verifier does cheaply. Only the field products of section 4.2 are checked (`FipsExamples`).
- Java `null` is not modelled. `input` and `key` are sequences, never null. With a null key, `encrypt` and `decrypt` throw a `NullPointerException` at `src/crypto/aes/AES.java:114`; the catch swallows it and no field changes. With a 16-byte key and a null input, they first set `expandedKey` to the key schedule (`:152`, `:247`) and then throw at `:157` (`:251`); nothing else changes. The model has neither case. `output` and `expandedKey` start as the empty sequence. `cipher` and `getRoundKeyByNr` require a 176-byte expanded key; in the code they would throw a `NullPointerException` or an index exception without one.
- PadInput (`Aes.AES.PadInput`, with `EcbMode.PaddedLength`): lengths are unbounded here. In `AES.java` the padded size `(input.length / 16 + 1) * 16` (`:158`, `:252`) is a Java `int`; for an input of 2^31−15 to 2^31−1 bytes it wraps to −2^31, `new byte[...]` throws a `NegativeArraySizeException`, and `encrypt`/`decrypt` swallow it (`:183`, `:276`) after `expandedKey` has been replaced, leaving `input` and `output` as they were. The model pads and ciphers such inputs instead.
- The `byte[]` fields are held as values. The Java object shares its arrays with the caller through the constructor, the setters and the getters, so a caller's later write into such an array is seen by `encrypt` and `decrypt`; a `seq` field does not capture this aliasing.
- The `NullStateError` checks in `subBytes` and `shiftRows` are not modelled, because a state is never null.
- Some failure paths cannot be reached on the way from `encrypt`/`decrypt`, because the state, round key and word sizes are fixed there. These are the `unequalLengthError` path of `addRoundKey` inside `cipher`, and the `no32BitWord` path of `keyScheduleCore` inside `expandKey`. Both failures are modelled in `AddRoundKey` and `KeyScheduleCore`. The cipher uses the never-failing form `XorKey`.
- `printStackTrace` and the `System.err` message of `addRoundKey` are output only. They are not modelled.
- The getters (`src/crypto/aes/AES.java:423-453`) return a field unchanged. The model reads the fields directly.
- `ArrayList<Byte>` is modelled as `seq<bv8>`, and boxing is not modelled. The element-wise loops of `subBytes`, `addRoundKey` and `mixColumns` write each entry once from the old state. Those loops are modelled as sequence comprehensions, with per-entry postconditions.
- Structure: the shared body of `encrypt` and `decrypt` is split into the sub-methods `ExpandKey`, `PadInput` and `CipherAll`. The loops of `expandKey` are the module-level method `ExpandKeyBytes`, and its inner XOR loop is the method `XorWordInto`. This is a change of structure only; the field updates are those of `encrypt` and `decrypt`.
