/** The presence-or-absence wrapper used for every `optional(...)` of the
    grammar and for the parsers' failure results. It supports `:-`, so a
    parser step that fails makes the whole rule fail. */
module Wrappers {

  datatype Option<+T> = None | Some(value: T) {

    predicate IsFailure() {
      None?
    }

    function PropagateFailure<U>(): Option<U>
      requires None?
    {
      None
    }

    function Extract(): T
      requires Some?
    {
      value
    }
  }
}
