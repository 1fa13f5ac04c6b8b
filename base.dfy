/** Failure-compatible wrappers and the errors the mapping layer raises. */
module Base {

  datatype Option<+T> = None | Some(value: T) {
    predicate IsFailure() { None? }

    function PropagateFailure<U>(): Option<U>
      requires None?
    {
      None
    }

    function Extract(): T
      requires Some?
    {
      value
    }
  }

  /** What a failed parse throws. */
  datatype Error =
    | TypeError              // a property read on `undefined`, or `map`/`forEach` on a non-array
    | Thrown(message: string) // an `Error` the mapper raises itself, with its message

  datatype Result<+T> = Ok(value: T) | Err(error: Error) {
    predicate IsFailure() { Err? }

    function PropagateFailure<U>(): Result<U>
      requires Err?
    {
      Err(error)
    }

    function Extract(): T
      requires Ok?
    {
      value
    }
  }

  /** `s` occurs in `t` at position `i`. */
  predicate OccursAt(s: string, t: string, i: nat) {
    i + |s| <= |t| && t[i..i + |s|] == s
  }

  /** `s` is a prefix of `t`. */
  predicate StartsWith(t: string, s: string) {
    OccursAt(s, t, 0)
  }

  /** `s` occurs somewhere in `t`. */
  predicate Contains(t: string, s: string) {
    exists i: nat | i <= |t| :: OccursAt(s, t, i)
  }
}
