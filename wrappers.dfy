/** The optional and error-carrying result types shared by every module of the model. */
module Wrappers {

  /** A value that may be absent: Python's `None` versus a present value. */
  datatype Option<+T> = None | Some(value: T)

  /** The outcome of an operation that raises on failure in the source. */
  datatype Result<+T, +E> = Ok(value: T) | Err(error: E)

  /** Python truthiness of an optional boolean: only a present `True` is truthy. */
  predicate Truthy(b: Option<bool>) {
    b == Some(true)
  }

  /** Python's `not x` for an optional boolean (`not None` is `True`). */
  function Not(b: Option<bool>): (r: bool)
    ensures r <==> !Truthy(b)
  {
    b != Some(true)
  }

  /** For a definite boolean, `not (not x)` gives `x` back. */
  lemma NotNot(x: Option<bool>)
    requires x.Some?
    ensures Some(Not(Some(Not(x)))) == x
  {
    if x.value {
      assert x == Some(true);
    } else {
      assert x == Some(false);
    }
  }
}
