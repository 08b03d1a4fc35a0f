/** The two outcome types shared by every module: an optional value, and a computation that
    may stop in an error (a failed assertion, a missing key, a bad index or a division by zero). */
module Outcomes {
  datatype Option<+T> = None | Some(value: T)

  datatype Result<+T> = Ok(value: T) | Err {

    predicate IsFailure() {
      Err?
    }

    function PropagateFailure<U>(): Result<U>
      requires Err?
    {
      Err
    }

    function Extract(): T
      requires Ok?
    {
      value
    }
  }
}
