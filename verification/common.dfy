/** Shared result types for the chord-alignment model.

    Python's `None` becomes `Option.None`; the exceptions that escape `teach`
    become `Result.Err` carrying a `Fault`. */
module Common {

  /** A value that may be absent, as a Python function falling off its end returns `None`. */
  datatype Option<+T> = None | Some(value: T)

  /** The exceptions the modelled code lets escape. */
  datatype Fault =
    /** `assert` on `how_many` failed (AssertionError). */
    | AssertionFailed
    /** `sr / (tps * overSamplingRate)` divided by zero, so `int(...)` saw
        an infinity or NaN (OverflowError / ValueError). */
    | HopNotFinite

  /** The outcome of an operation that may raise. */
  datatype Result<+T> = Ok(value: T) | Err(fault: Fault)
}
