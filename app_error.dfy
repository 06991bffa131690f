/** The error taxonomy of the game (src/error.js): one recognition error and
    three application errors, each with the numeric code the program uses. */
module AppError {

  datatype ErrorCode = FailedRecognition | NotChain | AlreadyExists | EndGame {

    /** The numeric code: recognition errors are in the 100s, application
        errors (the ones a round can end with) in the 200s. */
    function Code(): (n: nat)
      ensures 100 <= n < 300
      ensures n < 200 <==> this == FailedRecognition
    {
      match this
      case FailedRecognition => 100
      case NotChain => 200
      case AlreadyExists => 210
      case EndGame => 220
    }
  }

  /** A value or the error code the operation was rejected with. */
  datatype Result<T> = Ok(value: T) | Err(code: ErrorCode)

  /** Distinct errors carry distinct codes. */
  lemma CodeInjective(a: ErrorCode, b: ErrorCode)
    ensures a.Code() == b.Code() <==> a == b
  {
  }
}
