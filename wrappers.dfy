/** Small datatypes and helpers shared by the other modules. */
module Wrappers {

  /** A value that may be absent: Python's `None` or a missing dictionary key. */
  datatype Option<+T> = None | Some(value: T) {

    /** The value, or `default` when it is absent. */
    function UnwrapOr(default: T): T {
      match this
      case Some(v) => v
      case None => default
    }
  }

  /** What a call into a collaborator (a browser driver, an HTTP API) did:
      it returned a value, or it raised an exception whose text is `error`. */
  datatype Call<+T> = Returns(value: T) | Raises(error: string)

  /** How many items a `max_items` bound admits: a check `len(out) >= max_items`
      before each item stops at once when the bound is zero or negative. */
  function Cap(maxItems: int): nat {
    if maxItems < 0 then 0 else maxItems
  }

  function Min(a: nat, b: nat): nat {
    if a <= b then a else b
  }
}
