/**
 * `Option` stands for Java's `null` and Swift's `nil`. It supports `:-`, so
 * a chain of reads stops at the first one that finds nothing.
 */
module Wrappers {

  datatype Option<+T> = None | Some(value: T) {

    /** A `None` stops a `:-` chain. */
    predicate IsFailure() {
      None?
    }

    /** Passes a `None` on, at the type of the enclosing chain. */
    function PropagateFailure<U>(): Option<U>
      requires None?
    {
      None
    }

    /** The value a `:-` step binds. */
    function Extract(): T
      requires Some?
    {
      value
    }
  }
}
