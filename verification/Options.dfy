/** The result shape used throughout: a value that may be absent. */
module Options {
  datatype Option<+T> = None | Some(value: T) {
    predicate IsFailure() { None? }
    function PropagateFailure<U>(): Option<U>
      requires IsFailure()
    {
      None
    }
    function Extract(): T
      requires Some?
    {
      value
    }
  }
}
