/** The exceptions the modelled Python code can raise, a result type that
    carries either a value or the exception that ended the call, and an
    optional value for Python's `None` defaults. */
module Results {

  /** IndexError: a tuple indexed past its end; KeyError: a missing
      dictionary key; ZeroDivisionError: a division by exactly zero. */
  datatype Error = IndexError | KeyError | ZeroDivisionError

  datatype Result<+T> = Ok(value: T) | Err(error: Error)

  /** An argument that defaults to `None`. */
  datatype Option<+T> = None | Some(value: T)
}
