/** Small shared datatypes: an optional value, and the three ways a decoder of the
    model can end: with a value, with the source's `nil`, or with a Swift run-time trap. */
module Wrappers {

  datatype Option<+T> = None | Some(value: T)

  /** `Ok(v)`: the source returns `v`; `Fail`: it returns `nil`; `Trap`: it stops on a
      run-time error (a force unwrap of `nil`, an invalid range, an overflow, or a load
      from a buffer that is too short). */
  datatype Outcome<+T> = Ok(value: T) | Fail | Trap
}
