/** Option and Result, used for C# null references and for thrown exceptions. */
module Results {

  /** A value that may be absent: `None` stands for a C# `null`. */
  datatype Option<+T> = None | Some(value: T)

  /** The result of an operation that either returns a value or throws. */
  datatype Result<+T, +E> = Success(value: T) | Failure(error: E)

  /** `string.IsNullOrEmpty`, on a nullable string. */
  predicate IsNullOrEmpty(s: Option<string>)
  {
    s == None || s == Some("")
  }
}
