/** The exceptions the modelled code can raise, as values. */
module Results {

  /** `IllegalArgumentException` and `ArithmeticException` of the JVM. */
  datatype Error = IllegalArgument | ArithmeticOverflow

  /** Either a value or the exception that replaced it. */
  datatype Result<T> = Success(value: T) | Failure(error: Error)
}
