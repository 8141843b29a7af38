/**
 * The error codes of the cipher object (src/crypto/aes/AESError.java) and the
 * result of an operation that either produces a value or fails with one of
 * them. In `AES.java` a failure sets the object's `error` field and throws;
 * here it is the `Failure` case of `Result`.
 */
module AesErrors {

  datatype AesError =
    | NoErr
    | UnknownError
    | UnequalLengthError
    | KeyNot128Bits
    | No32BitWord
    | NullStateError

  datatype Result<+T> = Success(value: T) | Failure(error: AesError)
}
