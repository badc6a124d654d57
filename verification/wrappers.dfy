/**
 Failure-compatible wrapper types shared by the modules of this model:
 `Option` for values that may be absent (`std::optional`) and `Result`
 for computations that either succeed or stop with an error (`ERROR`,
 `PARSE_ERROR` or a failed `ASSERT` in the modelled code).
 */
module Wrappers {

  datatype Option<+T> = None | Some(value: T)

  datatype Result<+R, +E> = Success(value: R) | Failure(error: E) {

    /** Forgets the error, keeping only whether a value was produced. */
    function ToOption(): Option<R>
    {
      match this
      case Success(v) => Some(v)
      case Failure(_) => None
    }
  }
}
