/** Outcomes of the modelled Python functions: a value, or the exception the
    code raises. */
module Results {

  /** The Python exceptions the modelled code can raise. */
  datatype PyError =
    | ValueError        // an explicit `raise ValueError(...)`
    | ZeroDivisionError // `i % 0`
    | IndexError        // a list or array index out of range, or not an integer
    | KeyError          // a dict lookup of a missing key
    | TypeError         // a call with arguments the callee does not accept
    | AttributeError    // a call of a method that no class defines

  datatype Result<T> = Ok(value: T) | Err(error: PyError)

  datatype Option<T> = None | Some(value: T)

  /** A computation driven by a finite stream of oracle answers (solver
      results, shuffles): it returned or raised, or it needed more answers
      than it was given. */
  datatype Run<T> = Finished(result: Result<T>) | Unfinished
}
