/** Result types shared by the models. */
module Wrappers {

  datatype Option<+T> = None | Some(value: T)

  /** The outcome of a Rust call: a value, an `Err`, or a panic (an index out of range). */
  datatype Outcome<+T> = Ok(value: T) | Err(msg: string) | Panic {
    predicate IsFailure() { !Ok? }

    function PropagateFailure<U>(): Outcome<U>
      requires !Ok?
    {
      match this
      case Err(m) => Err(m)
      case Panic => Panic
    }

    function Extract(): T
      requires Ok?
    {
      value
    }
  }
}
