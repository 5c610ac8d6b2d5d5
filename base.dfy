/** Shared vocabulary: optional values, results, the exceptions the monitor
    raises, and the reading of a timeout argument. */
module Base {

  datatype Option<+T> = None | Some(value: T)

  /** The failures a call can end in. Each constructor stands for one Python
      exception of the monitor, or for a call that never returns. */
  datatype Failure =
    | ValueError            // an argument the monitor refuses (empty data, zero byte count)
    | TypeError             // len() of an unset write payload
    | KeyError              // lookup of an unknown command name or id
    | OverflowError         // int.to_bytes of a negative command id
    | UnicodeDecodeError    // a frame that is not valid UTF-8
    | NoUart                // AttributeError: I/O on an unset uart
    | NoPort                // AttributeError: creating a uart before a port was assigned
    | PortAssignError
    | CreateUartError
    | DestroyUartError
    | WriteUartFail
    | CommandByteError
    | CommandRWError
    | ExecuteCommandError
    | ReadNMEAFrameError
    | ParseNMEAFrameError
    | Blocked               // the call blocks forever on the modelled line

  datatype Result<+T> = Ok(value: T) | Err(error: Failure)

  /** Python's truth value of a timeout argument: None and 0 are false. */
  predicate Truthy(timeout: Option<nat>)
  {
    timeout.Some? && timeout.value > 0
  }

  /** The deadline a `if (timeout)` guard enforces: only a truthy timeout
      gives one, so a timeout of 0 behaves exactly like None. */
  function Deadline(timeout: Option<nat>): (d: Option<nat>)
    ensures d.Some? <==> Truthy(timeout)
    ensures d.Some? ==> d == timeout && d.value > 0
  {
    if Truthy(timeout) then timeout else None
  }
}
