/** Failure-carrying results used wherever the Java code returns null or throws. */
module Java {

  /** A Java reference that may be null. */
  datatype Option<+T> = None | Some(value: T)

  /** The exceptions the modelled code throws (or lets escape from the JDK calls it makes). */
  datatype Exception =
    | TextException(message: string)
    | NumberFormatException
    | IOException(message: string)
    | EOFException
    | UTFDataFormatException
    | NegativeArraySizeException
    | ClassCastException
    | NullPointerException
    | IllegalArgumentException(message: string)
    | IllegalStateException(message: string)
    | RuntimeException(message: string)
    | PersistenceException(message: string)
    | EmptyStackException

  /** Either a normal return or a thrown exception. */
  datatype Result<+T> = Ok(value: T) | Err(error: Exception) {
    predicate IsFailure() { Err? }
    function PropagateFailure<U>(): Result<U>
      requires Err?
    {
      Err(error)
    }
    function Extract(): T
      requires Ok?
    {
      value
    }
  }

  /** A void method: it returns normally or throws. */
  datatype Outcome = Pass | Fail(error: Exception)
}
