/**
 Small failure-carrying datatypes shared by every module of the model.
 Python's `None` becomes `Option.None`; a raised exception becomes `Result.Failure`.
 */
module Basics {

  datatype Option<+T> = None | Some(value: T)

  datatype Result<+T, +E> = Success(value: T) | Failure(error: E)

  function Min(a: int, b: int): int
  {
    if a <= b then a else b
  }
}
