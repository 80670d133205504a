/** Failure values and the failure-compatible wrappers every decoder returns. */
module Results {

  /** The ways a decode can end without a value.
      The first four are the errors the byte reader itself reports; the next four are the
      package's own sentinel errors; the last stands for a Go slice-bounds panic. */
  datatype Error =
    | Eof                         // nothing at all was left to read
    | UnexpectedEof               // a fixed-size read found some, but not all, of its bytes
    | NegativePosition            // a seek to a negative offset
    | InvalidWhence               // a seek with an unknown reference point
    | InvalidAssetBundleType      // declared by the package, never returned by the decoder
    | UnsupportedPlayerVersion    // player version prefix is neither "5.3.3p" nor "5.3.4p"
    | UnsupportedCompressionType  // directory compression other than "none"
    | NotImplemented              // the decoder panics with the "TBD" sentinel
    | SliceOutOfRange             // a slice expression outside its operand (a runtime panic)

  /** A value or the error that prevented it. */
  datatype Result<+T> = Ok(value: T) | Err(error: Error) {
    predicate IsFailure() { Err? }

    function PropagateFailure<U>(): Result<U>
      requires Err?
    {
      Err(error)
    }

    function Extract(): T
      requires Ok?
    {
      value
    }
  }

  /** A possibly missing value (a nil pointer in the decoder). */
  datatype Option<+T> = None | Some(value: T)
}
