/** The optional value every stage of the assist pipeline returns: a stage
    either produces its value or reports "not applicable" with `None`.
    Failure-compatible, so a chain of stages can be written with `:-`. */
module Wrappers {

  datatype Option<+T> = None | Some(value: T) {

    /** `None` is the failure value: it ends a `:-` chain. */
    predicate IsFailure() {
      None?
    }

    /** Re-types a `None` for the enclosing chain. */
    function PropagateFailure<U>(): Option<U>
      requires None?
    {
      None
    }

    /** The value carried by `Some`. */
    function Extract(): T
      requires Some?
    {
      value
    }
  }
}
