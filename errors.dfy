/** The error taxonomy of the library (src/lib/errors.ts) together with the
    built-in JavaScript error kinds that the modelled code raises.  Every
    operation of the model returns a `Result` instead of throwing. */
module Errors {

  /** Why a plain `Error` or a built-in `RangeError` was raised. */
  datatype Reason =
    | IrregularDimensions   // transpose: a row whose length differs from row 0
    | EmptyMatrix           // transpose: no row or no column
    | InsufficientShares    // reconstructSecret: fewer shares than the threshold
    | SharesNotUnique       // reconstructSecret: two equal (x, y) pairs
    | ThresholdOutOfRange   // generateShares: threshold < 2 or threshold > numShares
    | ShareCountOutOfRange  // generateShares: numShares < 2 or numShares >= 255
    | OutOfBounds           // a typed-array view or a DataView read past the end

  datatype Error =
    | PlainError(reason: Reason)  // `new Error(...)`
    | RangeError(reason: Reason)  // the built-in RangeError
    | GF256RangeError
    | GF256UndefinedOperationError
    | SecretSharingError
    | SerializationError
    | CryptoError
    | InvalidThresholdError
    | InvalidShareCountError
    | SliceFileGenerationError
    | SecretAssemblyError
    | InsufficientSlicesError
    | InconsistentThresholdError
  {
    /** `error instanceof SecretAssemblyError`: InsufficientSlicesError and
        InconsistentThresholdError extend SecretAssemblyError. */
    predicate IsSecretAssemblyError() {
      SecretAssemblyError? || InsufficientSlicesError? || InconsistentThresholdError?
    }
  }

  /** The outcome of an operation that may throw. */
  datatype Result<+T> = Ok(value: T) | Err(error: Error) {
    predicate IsFailure() { Err? }

    function PropagateFailure<U>(): Result<U>
      requires Err?
    {
      Err(error)
    }

    function Extract(): T
      requires Ok?
    {
      value
    }
  }
}
