# CME495 serial monitor, modelled in Dafny

The monitor is the host side of a small serial-link protocol stack. It has
three layers.

- **The UART monitor** (`Monitor`).
  - It finds the device's port by vendor and product id.
  - It opens and closes the uart.
  - It writes with an RTS/CTS handshake: raise RTS, poll CTS against an
    optional deadline, drop RTS, write, and fail if the driver accepted
    nothing.
  - It reads a byte count, or reads up to a terminator.
- **The FPGA command protocol** (`MonitorFPGA`).
  - A command is named by a one-byte code: the high bit is set for a read,
    and the command id is in the low bits.
  - Executing a command checks it, sends the code, then reads the command's
    reply or writes its payload byte by byte.
  - A registry maps the two test commands by name and by id.
- **The NMEA reader** (`MonitorGPSReceiver`).
  - A frame is cut out of the receiver's byte stream between a `$` and the
    next line feed, then parsed.
  - A filter on talker id and sentence type selects frames; a filter that is
    None or empty does not care.
  - A selection loop returns the first matching frame, or fails once a
    deadline has passed.

pySerial is replaced by a value of type `Serial.Channel`. It holds:

- the level the host drives on RTS;
- the CTS levels the device presents at successive polls;
- the byte counts the driver reports for successive writes;
- the bytes the device sends;
- a tick clock;
- a log of what the host did to the line;
- the bytes that went out.

The `Monitor`, `MonitorFPGA.Command`, `MonitorFPGA.MonitorFPGA` and
`MonitorGPSReceiver.MonitorGPSReceiver` classes keep the source's mutable
fields (`port`, `uart`, the line, `rw`, `cbyte`, `rbytes`). Each of their
methods is proved equal to a pure function of the old state. The properties
are then proved as lemmas about those functions:

- `WriteUartSpec`, `WriteEachSpec`;
- `Transaction`;
- `FrameSpec`, `SelectSpec`.

The loops stay loops with invariants:

- the CTS polling loop (`AwaitCts`);
- the byte-by-byte write (`WriteBytesUartFlow`);
- the port search (`AssignPort`);
- the frame selection (`ReadNMEAFrameSelect`).

Exceptions are `Base.Failure` values in a `Result`. A call that never
returns is modelled as `Err(Blocked)`:

- polling CTS forever;
- waiting for bytes that never come.

An `AttributeError` from I/O on an unset uart is `NoUart`.

Files:

- `base.dfy`: options, results, failures, and the truth value of a timeout.
- `serial.dfy`: the abstract line and pySerial's `setRTS`, `getCTS`,
  `write`, `read` and `read_until`.
- `monitor.dfy`: `monitor/python/Monitor.py` and the two uart profiles of
  `monitor/python/MonitorConfigUART.py`.
- `fpga.dfy`: `monitor/python/MonitorFPGA.py`.
- `gps.dfy`: `monitor/python/MonitorGPSReceiver.py`.

Where the code and its comments disagree, the model follows the code:

- **Command id 128 is accepted.** `cid` is documented as `[1, 128]`, but
  the guard refuses only `cid > 128`. So id 128 is accepted, and its command
  byte is `0x80` in either direction. That is the byte of a read of command 0
  (`CByteCollision`).
- **A timeout of 0 sets no deadline.** It is documented as "return
  instantly", but the `if (timeout)` guards treat 0 like None. A
  flow-controlled write with CTS never asserted then polls forever
  (`ZeroTimeoutPollsForever`), and the frame selection has no deadline.
- **Short reads pass through.** `read_uart` does not check the length it
  got back, so a timed read may return fewer bytes than asked for
  (`Serial.Receive`, `ReadPhase`).
- **`ReadUartFail` is never raised.** It is raised only when the port hands
  back a `str`; the modelled line always returns bytes, so the model has no
  such failure.

## Model

| member | source | states |
|---|---|---|
| Base.Deadline | monitor/python/Monitor.py:254-258 | a deadline exists exactly when the timeout is truthy (not None and not 0), and it is the timeout itself |
| Serial.Transmit | monitor/python/Monitor.py:262-265 | a write puts exactly the accepted prefix of the data on the wire, logs the accepted count, accepts at most the data's length, and leaves RTS, CTS, input and clock alone |
| Serial.Receive | monitor/python/Monitor.py:279-281 | a read blocks exactly when there is no timeout and too few bytes; otherwise it takes a prefix of the input of at most n bytes, which is n bytes exactly when enough had arrived; it never touches RTS, the log or the wire |
| Serial.ReceiveUntil | monitor/python/Monitor.py:297-299 | read_until blocks exactly when there is no timeout and the input never reaches a stop point (the terminator seen, or `size` bytes read); otherwise it takes a prefix of the input: up to and including the first stop point when there is one, and with a timeout and no stop point everything that comes; it never touches RTS, the log or the wire, and the clock never goes back |
| Serial.UntilByte | monitor/python/MonitorGPSReceiver.py:126-128 | with a one-byte terminator and no size limit, read_until stops just after the first occurrence of that byte, and only if there is one |
| Monitor.FindPort | monitor/python/Monitor.py:331-336 | the result is the first listed port whose vid and pid both match, with no match before it; None means no listed port matches |
| Monitor.BytesToByteList | monitor/python/Monitor.py:360-367 | one single-byte string per input byte, in order |
| Monitor.ByteListRoundTrip | monitor/python/Monitor.py:360-367 | joining the single-byte strings gives back the original bytes |
| Monitor.Reverse | monitor/python/Monitor.py:208 | `s[::-1]` has the same length, and element i is element len-1-i of the input |
| Monitor.WaitForCts | monitor/python/Monitor.py:254-258 | the CTS wait takes at most deadline+1 polls with a deadline, and never more polls than there are samples without one; it can poll forever only when there is no deadline |
| Monitor.WaitForCtsMeaning | monitor/python/Monitor.py:254-258 | the CTS wait clears at the first asserted sample within deadline+1 polls; it times out exactly when a deadline is set and none of the first deadline+1 samples is asserted, after deadline+1 polls; it polls forever exactly when there is no deadline and CTS is never asserted |
| Monitor.PollAfter | monitor/python/Monitor.py:174-178 | after k polls, the next readCTS reads sample k, or deasserted once the samples run out, and advances the clock by one |
| Monitor.Send | monitor/python/Monitor.py:262-265 | the write succeeds exactly when the data is non-empty and the driver accepts at least one byte; otherwise it fails with WriteUartFail; what goes out is a prefix of the data, non-empty on success |
| Monitor.WriteUartSpec | monitor/python/Monitor.py:234-265 | write_uart never consumes input |
| Monitor.FramesAppend | monitor/python/Monitor.py:207-210 | the line events of m then n one-byte flow-controlled writes are those of m+n writes |
| Monitor.FlowWriteHandshake | monitor/python/Monitor.py:248-265 | a flow-controlled write succeeds exactly when CTS was seen in time and the driver accepted at least one byte; then the line saw RTS raised, RTS lowered, and one write, in that order, the accepted prefix went out, and RTS is left deasserted |
| Monitor.FlowWriteTimesOut | monitor/python/Monitor.py:250-258 | with a positive timeout and CTS not asserted in time, the write fails with WriteUartFail after timeout+1 polls, puts nothing on the wire, and leaves RTS raised |
| Monitor.ZeroTimeoutPollsForever | monitor/python/Monitor.py:254-258 | a timeout of 0 behaves exactly like None: with CTS never asserted the write polls forever |
| Monitor.OneByteWrite | monitor/python/Monitor.py:179-190 | a one-byte flow-controlled write either sends its byte in one RTS/CTS frame and leaves RTS low, or sends nothing |
| Monitor.ByteWriterFramed | monitor/python/Monitor.py:179-190 | the flow-controlled one-byte write is well behaved |
| Monitor.WriteEach | monitor/python/Monitor.py:209-210 | the loop over the bytes with any one-byte write: with no bytes it succeeds and leaves the line alone; `EachKeepsInput`, `EachFrames` and `EachPrefix` state what it does otherwise |
| Monitor.WriteEachSpec | monitor/python/Monitor.py:207-210 | write_bytes_uart_flow on an open uart: with no bytes it succeeds and leaves the line alone; `WriteEachFrames` and `WriteEachPrefix` state what it does otherwise |
| Monitor.EachKeepsInput | monitor/python/Monitor.py:209-210 | writing byte by byte with a well-behaved write never consumes input |
| Monitor.EachFrames | monitor/python/Monitor.py:209-210 | a successful byte-by-byte run leaves exactly one frame per byte in the log |
| Monitor.EachPrefix | monitor/python/Monitor.py:209-210 | what a byte-by-byte run sends is a prefix of the bytes, and all of them exactly when it succeeds |
| Monitor.WriteEachFrames | monitor/python/Monitor.py:191-210 | a successful write_bytes_uart_flow sends the bytes in order with one RTS/CTS frame per byte, and it never reads |
| Monitor.WriteEachPrefix | monitor/python/Monitor.py:191-210 | whatever the outcome, write_bytes_uart_flow sends a prefix of the bytes, and all of them exactly when it succeeds |
| Monitor.Monitor.constructor | monitor/python/Monitor.py:73-89 | when the configured device is listed, its port is assigned and the uart is open with RTS low; otherwise port and uart stay unset and the line is untouched |
| Monitor.Monitor.IsConnected | monitor/python/Monitor.py:107-111 | is_connected holds exactly when the uart is set |
| Monitor.Monitor.UartOpen | monitor/python/Monitor.py:154-158 | uart_open implies is_connected; for a valid monitor, uart_open holds exactly when is_connected does, that is when the uart is set |
| Monitor.Monitor.AssignPort | monitor/python/Monitor.py:322-336 | the port becomes the first listed port matching both ids; with no match the result is PortAssignError and the port is unchanged |
| Monitor.Monitor.ConnectUart | monitor/python/Monitor.py:113-122 | an unlisted device is swallowed, leaving port, uart and line unchanged; otherwise the port is assigned, then the uart is created (RTS low), or CreateUartError is raised if one exists |
| Monitor.Monitor.CreateUart | monitor/python/Monitor.py:124-142 | an existing uart gives CreateUartError and changes nothing; otherwise the uart is opened on the assigned port with the monitor's profile, and RTS is left deasserted |
| Monitor.Monitor.CloseUart | monitor/python/Monitor.py:143-153 | an unset uart gives DestroyUartError; in every case the uart is unset afterwards |
| Monitor.Monitor.SetRTS | monitor/python/Monitor.py:162-168 | RTS is driven to the level and the event is logged; with no uart it fails and the line is unchanged |
| Monitor.Monitor.ReadRTS | monitor/python/Monitor.py:169-173 | with a uart, readRTS is the driven RTS level; without one it fails |
| Monitor.Monitor.ReadCTS | monitor/python/Monitor.py:174-178 | one CTS poll: the next sample, one tick |
| Monitor.Monitor.AwaitCts | monitor/python/Monitor.py:250-258 | the polling loop ends exactly as the CTS wait specification says, and the line has been polled that many times |
| Monitor.Monitor.WriteUart | monitor/python/Monitor.py:234-265 | empty data gives ValueError before the line is touched; with no uart it fails; otherwise the result and the new line are those of the write_uart specification |
| Monitor.Monitor.WriteByteUartFlow | monitor/python/Monitor.py:179-190 | write_uart with flow control, with the same error cases |
| Monitor.Monitor.WriteBytesUartFlow | monitor/python/Monitor.py:191-210 | empty data does nothing; otherwise the result and the new line are those of one flow-controlled write per byte, in order when big-endian and reversed otherwise, stopping at the first failure |
| Monitor.Monitor.ReadUart | monitor/python/Monitor.py:266-285 | a count of None or 0 gives ValueError before any read; otherwise the result is pySerial's read, short reads included |
| Monitor.Monitor.ReadUartUntil | monitor/python/Monitor.py:286-303 | the result is pySerial's read_until on the line |
| Monitor.Monitor.ReadUartLine | monitor/python/Monitor.py:304-320 | readline is read_until with a line feed and no size limit |
| MonitorFPGA.CmdCByte | monitor/python/MonitorFPGA.py:100-112 | the command byte is refused exactly when cid > 128 (CommandByteError) or cid < 0 (OverflowError); otherwise it is one byte |
| MonitorFPGA.CByteValue | monitor/python/MonitorFPGA.py:109-112 | for cid < 128 the byte's value is cid, plus 128 for a read; cid 128 gives 0x80 in either direction |
| MonitorFPGA.CByteRoundTrip | monitor/python/MonitorFPGA.py:109-112 | for 0 <= cid < 128 the high bit of the byte decodes back to "is read" and the low seven bits decode back to cid |
| MonitorFPGA.CByteCollision | monitor/python/MonitorFPGA.py:33 | the accepted cid 128 gives the same byte as a read of command 0, whatever the direction |
| MonitorFPGA.CByteLowBits | monitor/python/MonitorFPGA.py:94-99 | changing the direction leaves the low seven bits of the command byte alone |
| MonitorFPGA.Command.constructor | monitor/python/MonitorFPGA.py:57-77 | a new command has the given id, counts, name and read-only flag, no direction, no read or write data, and the single byte cid as its command byte |
| MonitorFPGA.Command.SetRW | monitor/python/MonitorFPGA.py:86-99 | anything but "r" or "w" gives CommandRWError and changes nothing; otherwise rw is set and the command byte is re-derived, only its high bit can change, and the command stays consistent |
| MonitorFPGA.NewCommand | monitor/python/MonitorFPGA.py:57-77 | a command is created exactly when cid can be encoded, and the failure is cmd_cbyte's |
| MonitorFPGA.IndexById | monitor/python/MonitorFPGA.py:123 | the map's keys are the commands' ids, and each id maps to one of the commands with that id |
| MonitorFPGA.IndexByIdLastWins | monitor/python/MonitorFPGA.py:123 | on a shared id the dictionary comprehension keeps the later command: a command with no later command of the same id is the one found under its id |
| MonitorFPGA.IndexByIdFindsEach | monitor/python/MonitorFPGA.py:119-123 | with distinct ids, the command found under each command's id is that command |
| MonitorFPGA.Refusal | monitor/python/MonitorFPGA.py:152-157 | execute_command goes ahead exactly when rw is "r" or "w" and a write is of a command that is not read-only, with a payload of exactly no_wbytes bytes |
| MonitorFPGA.DataPhase | monitor/python/MonitorFPGA.py:161-166 | what is stored in rbytes comes only from a successful read, and is at most no_rbytes bytes; a read sends nothing and logs nothing on the line; a read of zero bytes is refused with ValueError before any read |
| MonitorFPGA.Transaction | monitor/python/MonitorFPGA.py:159-166 | what is stored in rbytes comes only from a successful read transaction, and is at most no_rbytes bytes |
| MonitorFPGA.ReadPhase | monitor/python/MonitorFPGA.py:162-163 | a successful read takes at most no_rbytes bytes (exactly no_rbytes without a timeout) off the front of the input, stores them, and sends nothing |
| MonitorFPGA.WritePhase | monitor/python/MonitorFPGA.py:165-166 | a successful write sends the payload in order, one RTS/CTS frame per byte, and reads nothing |
| MonitorFPGA.CommandByteFirst | monitor/python/MonitorFPGA.py:159-166 | a successful transaction first sent the command byte in its own RTS/CTS frame, then ran the data phase from there |
| MonitorFPGA.TransactionRead | monitor/python/MonitorFPGA.py:159-163 | a successful read command put only the command byte on the wire, in one frame, then read at most no_rbytes bytes (exactly without a timeout) and stored them |
| MonitorFPGA.TransactionWrite | monitor/python/MonitorFPGA.py:159-166 | a successful write command put the command byte then the payload on the wire, one frame per byte, and read nothing |
| MonitorFPGA.TransactionSendsPrefix | monitor/python/MonitorFPGA.py:159-166 | whatever the outcome, the wire gets a prefix of the command byte followed by the payload, never more |
| MonitorFPGA.MonitorFPGA.Registered | monitor/python/MonitorFPGA.py:119-123 | the by-id registry has exactly the keys 1 and 2, and each id maps to a command of the by-name registry that has that id |
| MonitorFPGA.MonitorFPGA.constructor | monitor/python/MonitorFPGA.py:116-133 | the registry holds the two test commands with their ids, counts and read-only flags, indexed by name and by id; the monitor has the FPGA profile and connects as `connect_uart` does: when a port with vid 1659 and pid 8963 is listed, the first such port is assigned and the uart is open with RTS low; otherwise port and uart stay unset and the line is untouched |
| MonitorFPGA.MonitorFPGA.GetCommand | monitor/python/MonitorFPGA.py:168-172 | the registered command of that name; an unknown name gives KeyError |
| MonitorFPGA.MonitorFPGA.GetCommandById | monitor/python/MonitorFPGA.py:173-177 | found exactly for ids 1 and 2, and the command found has that id; otherwise KeyError |
| MonitorFPGA.MonitorFPGA.RunTransaction | monitor/python/MonitorFPGA.py:159-166 | with no uart it fails with the line unchanged; otherwise the result and the new line are those of the transaction specification |
| MonitorFPGA.MonitorFPGA.ExecuteCommand | monitor/python/MonitorFPGA.py:136-167 | a refused command fails before any I/O, with the command and the line unchanged; otherwise rw and the command byte are set, the transaction runs, and rbytes takes what a read read |
| MonitorGPSReceiver.CheckNMEAFrameType | monitor/python/MonitorGPSReceiver.py:144-163 | a sentence passes exactly when every given filter (not None, not empty) matches: both, talker only, type only, or neither |
| MonitorGPSReceiver.ParseNMEAFrame | monitor/python/MonitorGPSReceiver.py:132-142 | the parser is called with checksum checking on; its refusal becomes ParseNMEAFrameError, and its success is passed through |
| MonitorGPSReceiver.ParseFrameBytes | monitor/python/MonitorGPSReceiver.py:128-130 | a frame that is not valid UTF-8 escapes as UnicodeDecodeError; otherwise the frame is parsed |
| MonitorGPSReceiver.NextFrame | monitor/python/MonitorGPSReceiver.py:126-128 | a frame is never empty, and the frame and its tail together are shorter than the stream, since the `$` before the frame is dropped |
| MonitorGPSReceiver.NoNextFrame | monitor/python/MonitorGPSReceiver.py:126-128 | there is no next frame exactly when the stream has no `$`, or no line feed after its first `$` |
| MonitorGPSReceiver.NextFrameShape | monitor/python/MonitorGPSReceiver.py:126-128 | the next frame starts right after the stream's first `$` and ends at the first line feed after it, that line feed included; the tail is the rest |
| MonitorGPSReceiver.FrameSpec | monitor/python/MonitorGPSReceiver.py:114-131 | readNMEAFrame only reads: it fails only by blocking, bad UTF-8 or a parse error, and without a timeout a success consumes at least the `$` and the line feed |
| MonitorGPSReceiver.FrameFromStream | monitor/python/MonitorGPSReceiver.py:126-130 | without a timeout, readNMEAFrame parses the stream's next frame and leaves the stream just after it, and blocks when there is none |
| MonitorGPSReceiver.FramePositionIndependent | monitor/python/MonitorGPSReceiver.py:126-130 | where the stream is left does not depend on whether the frame decodes or parses |
| MonitorGPSReceiver.SelectSpec | monitor/python/MonitorGPSReceiver.py:106-113 | a returned sentence passes the filter; ReadNMEAFrameError comes only with a deadline that has passed; the search only reads; `DeadlineFires` states when the deadline fires |
| MonitorGPSReceiver.ScanByFrame | monitor/python/MonitorGPSReceiver.py:111-113 | the reference reading of the stream takes the same frame readNMEAFrame reads, and goes on from where that read leaves the stream |
| MonitorGPSReceiver.SelectIsFirstMatch | monitor/python/MonitorGPSReceiver.py:107-113 | with no deadline, the selection returns exactly the first frame in stream order that parses and passes the filter, discarding earlier ones |
| MonitorGPSReceiver.DeadlineOnlyCuts | monitor/python/MonitorGPSReceiver.py:108-110 | unless it times out, the selection with a deadline ends exactly as the selection without one |
| MonitorGPSReceiver.Checks | monitor/python/MonitorGPSReceiver.py:107-111 | the lines at which the search looks at the clock: the line at the call first, then the line after each frame that parses but does not pass the filter |
| MonitorGPSReceiver.SelectRound | monitor/python/MonitorGPSReceiver.py:107-113 | one round of the search with a deadline: late at the first check, it times out at once and reads nothing; in time and with no further check, it ends without a timeout; otherwise it goes on from the next check, with a shorter input, exactly as a search started there |
| MonitorGPSReceiver.DeadlineFires | monitor/python/MonitorGPSReceiver.py:106-111 | with a deadline, the search fails with ReadNMEAFrameError exactly when at one of its checks more than the deadline has elapsed since the start, and it then stops at the first such check, reading nothing more |
| MonitorGPSReceiver.LateFrameTimesOut | monitor/python/MonitorGPSReceiver.py:108-112 | a frame that parses but does not pass the filter, read while the deadline had not yet passed but ending past it, ends the search with ReadNMEAFrameError at the line that frame left |
| MonitorGPSReceiver.NoDeadlineNeverTimesOut | monitor/python/MonitorGPSReceiver.py:108-110 | without a deadline (timeout None or 0) the selection never reports a timeout |
| MonitorGPSReceiver.MonitorGPSReceiver.constructor | monitor/python/MonitorGPSReceiver.py:82-88 | the monitor has the GPS receiver's profile and connects as `connect_uart` does; that profile has no vendor or product id, so the port chosen is the first listed port that has neither, and the uart is opened there with RTS low; with no such port, port and uart stay unset and the line is untouched |
| MonitorGPSReceiver.MonitorGPSReceiver.ReadNMEAFrame | monitor/python/MonitorGPSReceiver.py:114-131 | with no uart it fails with the line unchanged; otherwise the result and the new line are those of the frame specification |
| MonitorGPSReceiver.MonitorGPSReceiver.ReadNMEAFrameSelect | monitor/python/MonitorGPSReceiver.py:91-113 | with no uart it fails with the line unchanged; otherwise the loop's result and the new line are those of the selection specification, with the truthy timeout as deadline, measured from the line's clock at the call, and frames read with no timeout |

## Left out

- I/O through pySerial is replaced by the `Channel` value. These are not
  modelled:
  - `serial.Serial` construction failures;
  - `flush_uart` and the buffer resets;
  - the `write_timeout` and `timeout` attributes set on the port, beyond
    their effect on `read`;
  - the actual electrical meaning of RTS.
- `list_ports` is modelled as a list of ports given to the constructor and
  to `AssignPort`. The operating system's enumeration is not modelled.
  `print_ports` only prints and is not modelled.
- Wall-clock `time()` and float timeouts are modelled as a natural-number
  tick clock.
  - A CTS poll takes one tick.
  - A received byte takes one tick.
  - A read that waits out its timeout also takes the timeout.
  - Serial.Receive, Serial.ReceiveUntil: bytes carry no arrival time. A
    timeout shortens a read only when the recorded input runs out; a read
    of bytes that are all recorded returns them all, even when taking them
    costs more ticks than the timeout.
- Serial.Receive, Monitor.Monitor.ReadUart: byte counts are natural
  numbers. A negative `num_bytes` passes the `not num_bytes` check and
  pySerial's read then returns no bytes; that path is not modelled.
- Monitor.Monitor.WriteUart, Monitor.Monitor.ReadUart,
  Monitor.Monitor.ReadUartUntil, Monitor.Monitor.ReadUartLine: timeouts are
  natural numbers. A negative timeout makes the port's `write_timeout` or
  `timeout` setter raise ValueError (Monitor.py:249, 279, 297, 314), before
  RTS is touched or anything is read; that path is not modelled.
- The UTF-8 decoder and `pynmea2.parse` are function parameters. The NMEA
  checksum rule lives in that library; the model only shows that checksum
  checking is requested.
- `print`, `__str__`, `print_commands` and the `main()` drivers are not
  modelled.
- The GUI, the launcher, the test scripts and the older monitor revisions
  are not part of this model.
- MonitorFPGA.MonitorFPGA.ExecuteCommand: the source raises
  `self.ExecuteCommandError`, but that exception is defined on the nested
  `Command` class. As written, Python would raise `AttributeError` at that
  point. The model reports `ExecuteCommandError`; either way the command
  aborts before any I/O.
- MonitorFPGA.MonitorFPGA.GetCommand: the registry is one dictionary per
  monitor object rather than a class attribute shared by all monitors.
  Commands are not shared between two monitors.
- Monitor.Monitor.ReadUart: `ReadUartFail` (raised when pySerial returns a
  `str`) is not modelled, because the abstract line always returns bytes.
- MonitorGPSReceiver.SelectSpec: the deadline is checked only between
  frames, as in the source. A read that blocks forever in the middle of a
  frame is `Blocked`, not a timeout.
- MonitorGPSReceiver.MonitorGPSReceiver.ReadNMEAFrameSelect: a
  `ParseNMEAFrameError` or decoding error from a frame ends the search. The
  source catches neither, so they propagate.
- Monitor.Monitor.WriteUart: a write that times out waiting for CTS leaves
  RTS raised, as the source does (`FlowWriteTimesOut`). The model adds no
  cleanup.
- Monitor.WriteUartSpec: its own contract states only that no input is
  consumed. The handshake, timeout and framing properties are in
  `FlowWriteHandshake`, `FlowWriteTimesOut`, `ZeroTimeoutPollsForever` and
  `OneByteWrite`.
