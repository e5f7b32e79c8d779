/** Results shared by the event-generation stages and the cross-section models.

    The generator distinguishes two kinds of failure:
    - an event-level failure: the stage raises an event exception carrying a
      reason and a fast-forward switch, and the driver abandons and restarts
      the event;
    - a fatal abort: a failed `assert`, `abort()` or `exit()` that ends the
      whole process.
 */
module Outcomes {

  datatype Option<+T> = None | Some(value: T)

  /** A computation that either yields a value or ends the process (`assert`,
      `abort()`, `exit()`, or a dereference of a null result). */
  datatype Result<+T> = Ok(value: T) | Abort(reason: string)

  /** What a stage that processes an event record can end with. */
  datatype StageOutcome =
    | Completed
    | EventFailure(reason: string, fastForward: bool)
    | Fatal(reason: string)
}
