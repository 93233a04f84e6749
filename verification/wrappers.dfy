/** The `Option` type used for the source's `string | null` results and for
    regular-expression matches that may fail. It is failure-compatible, so
    matchers can be written as a chain of `:-` steps that stops at the first
    step that does not match. */
module Wrappers {

  datatype Option<+T> = None | Some(value: T) {

    predicate IsFailure() {
      None?
    }

    function PropagateFailure<U>(): Option<U>
      requires None?
    {
      None
    }

    function Extract(): T
      requires Some?
    {
      value
    }

    /** The first of two alternatives that matched, as in a regular-expression
        alternation `a|b` tried at one position. */
    function OrElse(other: Option<T>): (r: Option<T>)
      ensures r.Some? <==> Some? || other.Some?
      ensures Some? ==> r == this
    {
      if Some? then this else other
    }
  }
}
