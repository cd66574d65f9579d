/** Failure-carrying values shared by every module of the model. */
module Results {

  /** An optional value: the Python `None` / Rust `Option::None` case made explicit. */
  datatype Option<T> = None | Some(value: T) {
    /** The contained value, or `default` when there is none (Rust `unwrap_or`). */
    function GetOr(default: T): T {
      if Some? then value else default
    }
  }

  /** Either a value or the error that stopped its computation; usable with `:-`. */
  datatype Result<T, E> = Ok(value: T) | Err(error: E) {
    predicate IsFailure() {
      Err?
    }

    function PropagateFailure<U>(): Result<U, E>
      requires Err?
    {
      Err(error)
    }

    function Extract(): T
      requires Ok?
    {
      value
    }
  }
}
