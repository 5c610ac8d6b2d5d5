/** The UART monitor: finding the device's port, opening and closing the
    uart, RTS/CTS flow-controlled writes and timeout-bounded reads. */
module Monitor {
  import opened Base
  import opened Serial

  datatype Parity = ParityNone | ParityEven | ParityOdd

  /** The uart profile of one device class. */
  datatype Config = Config(
    baudrate: nat,
    datasize: nat,
    parity: Parity,
    stopbits: nat,
    rtscts: bool,
    writeTimeout: Option<nat>,
    readTimeout: Option<nat>,
    deviceVid: Option<int>,
    devicePid: Option<int>)

  const ConfigFPGA := Config(115200, 8, ParityEven, 1, false, None, None, Some(1659), Some(8963))
  const ConfigGPSReceiver := Config(9600, 8, ParityNone, 1, false, None, None, None, None)

  /** A port as the operating system lists it; ports that are not USB
      devices have no vendor or product id. */
  datatype PortInfo = PortInfo(device: string, vid: Option<int>, pid: Option<int>)

  /** An open pySerial port. */
  datatype Uart = Uart(device: string, config: Config, isOpen: bool)

  predicate PortMatches(p: PortInfo, vid: Option<int>, pid: Option<int>)
  {
    p.vid == vid && p.pid == pid
  }

  /** The position of the first listed port with the wanted vendor and
      product id. */
  function FindPort(ports: seq<PortInfo>, vid: Option<int>, pid: Option<int>): (r: Option<nat>)
    ensures r.Some? ==> r.value < |ports| && PortMatches(ports[r.value], vid, pid)
    ensures r.Some? ==> forall j :: 0 <= j < r.value ==> !PortMatches(ports[j], vid, pid)
    ensures r.None? ==> forall j :: 0 <= j < |ports| ==> !PortMatches(ports[j], vid, pid)
  {
    if ports == [] then None
    else if PortMatches(ports[0], vid, pid) then Some(0)
    else match FindPort(ports[1..], vid, pid)
      case None => None
      case Some(i) => Some(i + 1)
  }

  /** The byte string split into one-byte strings. */
  function BytesToByteList(data: seq<bv8>): (r: seq<seq<bv8>>)
    ensures |r| == |data|
    ensures forall i :: 0 <= i < |data| ==> r[i] == [data[i]]
  {
    seq(|data|, i requires 0 <= i < |data| => [data[i]])
  }

  function Flatten(chunks: seq<seq<bv8>>): seq<bv8>
  {
    if chunks == [] then [] else chunks[0] + Flatten(chunks[1..])
  }

  /** Joining the one-byte strings gives back the original bytes. */
  lemma {:induction false} ByteListRoundTrip(data: seq<bv8>)
    ensures Flatten(BytesToByteList(data)) == data
  {
    if data != [] {
      assert BytesToByteList(data)[1..] == BytesToByteList(data[1..]);
      ByteListRoundTrip(data[1..]);
    }
  }

  /** Python's `s[::-1]`. */
  function Reverse<T>(s: seq<T>): (r: seq<T>)
    ensures |r| == |s|
    ensures forall i :: 0 <= i < |s| ==> r[i] == s[|s| - 1 - i]
  {
    if s == [] then [] else Reverse(s[1..]) + [s[0]]
  }

  /** The order in which write_bytes_uart_flow sends `data`. */
  function WriteOrder(data: seq<bv8>, bigEndian: bool): seq<bv8>
  {
    if bigEndian then data else Reverse(data)
  }

  // ---------------------------------------------------------------------
  // Flow-controlled writes, as functions of the line

  datatype CtsWait = Cleared(polls: nat) | TimedOut(polls: nat) | Stalled(polls: nat)

  /** The position of the first asserted CTS sample, or |samples|. */
  function FirstAsserted(samples: seq<bool>): (i: nat)
    ensures i <= |samples|
    ensures i < |samples| ==> samples[i]
    ensures forall j :: 0 <= j < i ==> !samples[j]
  {
    if samples == [] || samples[0] then 0 else 1 + FirstAsserted(samples[1..])
  }

  /** How the CTS polling loop of write_uart ends: CTS is seen asserted, the
      deadline passes, or (with no deadline and CTS never asserted) the loop
      polls forever. */
  function WaitForCts(samples: seq<bool>, deadline: Option<nat>): (w: CtsWait)
    ensures deadline.Some? ==> w.polls <= deadline.value + 1
    ensures deadline.None? ==> w.polls <= |samples|
    ensures w.Stalled? ==> deadline.None?
  {
    var i := FirstAsserted(samples);
    if i < |samples| && (deadline.None? || i <= deadline.value) then Cleared(i + 1)
    else if deadline.Some? then TimedOut(deadline.value + 1)
    else Stalled(|samples|)
  }

  /** The wait clears at the first asserted sample, provided it comes within
      deadline + 1 polls; it times out exactly when a deadline is set and
      none of the first deadline + 1 samples is asserted; it stalls exactly
      when no deadline is set and no sample is ever asserted. */
  lemma WaitForCtsMeaning(samples: seq<bool>, deadline: Option<nat>)
    ensures var w := WaitForCts(samples, deadline);
      w.Cleared? ==> (1 <= w.polls <= |samples| && samples[w.polls - 1] &&
        (forall j :: 0 <= j < w.polls - 1 ==> !samples[j]) &&
        (deadline.Some? ==> w.polls <= deadline.value + 1))
    ensures var w := WaitForCts(samples, deadline);
      w.TimedOut? <==>
        deadline.Some? && forall j :: 0 <= j < |samples| && j <= deadline.value ==> !samples[j]
    ensures var w := WaitForCts(samples, deadline);
      w.TimedOut? ==> w.polls == deadline.value + 1
    ensures var w := WaitForCts(samples, deadline);
      w.Stalled? <==> deadline.None? && forall j :: 0 <= j < |samples| ==> !samples[j]
  {
  }

  /** The line after `polls` CTS polls. */
  function Polled(ch: Channel, polls: nat): Channel
  {
    ch.(cts := Drop(ch.cts, polls), clock := ch.clock + polls)
  }

  /** One more poll after `k` polls reads sample `k` (deasserted once the
      samples run out). */
  lemma PollAfter(ch: Channel, k: nat)
    ensures PollCts(Polled(ch, k)) == (k < |ch.cts| && ch.cts[k], Polled(ch, k + 1))
  {
    if k < |ch.cts| {
      assert ch.cts[k..][1..] == ch.cts[k + 1..];
    }
  }

  /** The write itself: fails when the driver accepts nothing. */
  function Send(ch: Channel, data: seq<bv8>): (s: Step<()>)
    ensures s.result.Ok? <==> |data| > 0 && ch.replies != [] && ch.replies[0] > 0
    ensures s.result.Err? ==> s.result.error == WriteUartFail
    ensures ch.wire <= s.after.wire <= ch.wire + data
    ensures s.result.Ok? ==> |s.after.wire| > |ch.wire|
  {
    var (n, after) := Transmit(ch, data);
    Step(if n == 0 then Err(WriteUartFail) else Ok(()), after)
  }

  /** write_uart on an open uart with non-empty data. */
  function WriteUartSpec(ch: Channel, data: seq<bv8>, timeout: Option<nat>, flowControl: bool): (s: Step<()>)
    ensures s.after.input == ch.input
  {
    if !flowControl then Send(ch, data)
    else
      var w := WaitForCts(ch.cts, Deadline(timeout));
      var polled := Polled(WithRts(ch, true), w.polls);
      if w.Cleared? then Send(WithRts(polled, false), data)
      else Step(Err(if w.TimedOut? then WriteUartFail else Blocked), polled)
  }

  /** The line events of `n` flow-controlled one-byte writes: raise RTS,
      lower it, write one byte. */
  function Frames(n: nat): seq<LineEvent>
  {
    if n == 0 then [] else [RtsSet(true), RtsSet(false), Wrote(1)] + Frames(n - 1)
  }

  lemma {:induction false} FramesAppend(m: nat, n: nat)
    ensures Frames(m + n) == Frames(m) + Frames(n)
  {
    if m > 0 {
      FramesAppend(m - 1, n);
      assert m + n - 1 == (m - 1) + n;
    }
  }

  /** A flow-controlled write raises RTS, lowers it again once CTS is seen,
      and only then writes; it succeeds exactly when CTS was seen in time and
      the driver accepted at least one byte, and then the accepted prefix of
      the data is what went out. */
  lemma FlowWriteHandshake(ch: Channel, data: seq<bv8>, timeout: Option<nat>)
    requires |data| > 0
    ensures var s := WriteUartSpec(ch, data, timeout, true);
      s.result.Ok? <==>
        WaitForCts(ch.cts, Deadline(timeout)).Cleared? && |ch.replies| > 0 && ch.replies[0] > 0
    ensures var s := WriteUartSpec(ch, data, timeout, true);
      var n := Accepts(ch.replies, |data|);
      s.result.Ok? ==>
        s.after.log == ch.log + [RtsSet(true), RtsSet(false), Wrote(n)] &&
        s.after.wire == ch.wire + data[..n] && !s.after.rts
  {
  }

  /** With a positive timeout and CTS not asserted in the first polls, the
      write fails with WriteUartFail, puts nothing on the wire and leaves RTS
      raised. */
  lemma FlowWriteTimesOut(ch: Channel, data: seq<bv8>, t: nat)
    requires |data| > 0 && t > 0
    requires forall j :: 0 <= j < |ch.cts| && j <= t ==> !ch.cts[j]
    ensures var s := WriteUartSpec(ch, data, Some(t), true);
      s.result == Err(WriteUartFail) && s.after.rts &&
      s.after.log == ch.log + [RtsSet(true)] && s.after.wire == ch.wire &&
      s.after.clock == ch.clock + t + 1
  {
    WaitForCtsMeaning(ch.cts, Some(t));
  }

  /** A timeout of 0 sets no deadline: with CTS never asserted the write
      polls forever instead of failing at once. */
  lemma ZeroTimeoutPollsForever(ch: Channel, data: seq<bv8>)
    requires |data| > 0
    requires forall j :: 0 <= j < |ch.cts| ==> !ch.cts[j]
    ensures WriteUartSpec(ch, data, Some(0), true) == WriteUartSpec(ch, data, None, true)
    ensures WriteUartSpec(ch, data, Some(0), true).result == Err(Blocked)
  {
    WaitForCtsMeaning(ch.cts, None);
  }

  /** A one-byte flow-controlled write either sends its byte in one frame
      or sends nothing. */
  lemma OneByteWrite(ch: Channel, b: bv8, timeout: Option<nat>)
    ensures var s := WriteUartSpec(ch, [b], timeout, true);
      s.result.Ok? ==> s.after.log == ch.log + Frames(1) && s.after.wire == ch.wire + [b] && !s.after.rts
    ensures var s := WriteUartSpec(ch, [b], timeout, true);
      s.result.Err? ==> s.after.wire == ch.wire
  {
    FlowWriteHandshake(ch, [b], timeout);
    assert Frames(1) == [RtsSet(true), RtsSet(false), Wrote(1)] + Frames(0);
  }

  /** The loop of write_bytes_uart_flow, for any one-byte write: the bytes
      go one at a time, stopping at the first failure. */
  function WriteEach(write: (Channel, bv8) -> Step<()>, ch: Channel, bytes: seq<bv8>): (s: Step<()>)
    decreases |bytes|
    ensures bytes == [] ==> s == Step(Ok(()), ch)
  {
    if bytes == [] then Step(Ok(()), ch)
    else
      var first := write(ch, bytes[0]);
      if first.result.Err? then first else WriteEach(write, first.after, bytes[1..])
  }

  /** The one-byte write write_bytes_uart_flow uses. */
  function ByteWriter(timeout: Option<nat>): (Channel, bv8) -> Step<()>
  {
    (c: Channel, b: bv8) => WriteUartSpec(c, [b], timeout, true)
  }

  /** write_bytes_uart_flow on an open uart. */
  function WriteEachSpec(ch: Channel, bytes: seq<bv8>, timeout: Option<nat>): (s: Step<()>)
    ensures bytes == [] ==> s == Step(Ok(()), ch)
  {
    WriteEach(ByteWriter(timeout), ch, bytes)
  }

  /** What a well-behaved one-byte write does: on success its byte goes out
      in one frame, on failure nothing goes out, and it never reads. */
  ghost predicate FramedByteWrite(write: (Channel, bv8) -> Step<()>)
  {
    forall c: Channel, b: bv8 ::
      write(c, b).after.input == c.input &&
      (write(c, b).result.Ok? ==>
        write(c, b).after.log == c.log + Frames(1) && write(c, b).after.wire == c.wire + [b]) &&
      (write(c, b).result.Err? ==> write(c, b).after.wire == c.wire)
  }

  lemma FramedAt(write: (Channel, bv8) -> Step<()>, c: Channel, b: bv8)
    requires FramedByteWrite(write)
    ensures write(c, b).after.input == c.input
    ensures write(c, b).result.Ok? ==>
      write(c, b).after.log == c.log + Frames(1) && write(c, b).after.wire == c.wire + [b]
    ensures write(c, b).result.Err? ==> write(c, b).after.wire == c.wire
  {
  }

  /** The flow-controlled one-byte write is well behaved. */
  lemma ByteWriterFramed(timeout: Option<nat>)
    ensures FramedByteWrite(ByteWriter(timeout))
  {
    forall c: Channel, b: bv8
      ensures var s := ByteWriter(timeout)(c, b);
        s.after.input == c.input &&
        (s.result.Ok? ==> s.after.log == c.log + Frames(1) && s.after.wire == c.wire + [b]) &&
        (s.result.Err? ==> s.after.wire == c.wire)
    {
      OneByteWrite(c, b, timeout);
    }
  }

  /** Writing byte by byte never consumes input. */
  lemma {:induction false} EachKeepsInput(write: (Channel, bv8) -> Step<()>, ch: Channel, bytes: seq<bv8>)
    requires FramedByteWrite(write)
    decreases |bytes|
    ensures WriteEach(write, ch, bytes).after.input == ch.input
  {
    if bytes != [] {
      var first := write(ch, bytes[0]);
      FramedAt(write, ch, bytes[0]);
      if first.result.Ok? {
        EachKeepsInput(write, first.after, bytes[1..]);
      }
    }
  }

  /** A successful run leaves exactly one frame per byte on the line. */
  lemma {:induction false} EachFrames(write: (Channel, bv8) -> Step<()>, ch: Channel, bytes: seq<bv8>)
    requires FramedByteWrite(write)
    decreases |bytes|
    ensures var s := WriteEach(write, ch, bytes);
      s.result.Ok? ==> s.after.log == ch.log + Frames(|bytes|)
  {
    if bytes != [] {
      var first := write(ch, bytes[0]);
      FramedAt(write, ch, bytes[0]);
      if first.result.Ok? {
        EachFrames(write, first.after, bytes[1..]);
        FramesAppend(1, |bytes| - 1);
      }
    }
  }

  /** Whatever the outcome, what went out is a prefix of `bytes`, and all of
      them exactly when the run succeeds. */
  lemma {:induction false} EachPrefix(write: (Channel, bv8) -> Step<()>, ch: Channel, bytes: seq<bv8>)
    requires FramedByteWrite(write)
    decreases |bytes|
    ensures var s := WriteEach(write, ch, bytes);
      ch.wire <= s.after.wire <= ch.wire + bytes
    ensures var s := WriteEach(write, ch, bytes);
      s.result.Ok? <==> s.after.wire == ch.wire + bytes
  {
    if bytes == [] {
      assert ch.wire + bytes == ch.wire;
    } else {
      var first := write(ch, bytes[0]);
      FramedAt(write, ch, bytes[0]);
      if first.result.Ok? {
        EachPrefix(write, first.after, bytes[1..]);
        assert ch.wire + bytes == first.after.wire + bytes[1..];
      }
    }
  }

  /** A successful write_bytes_uart_flow leaves exactly one RTS/CTS frame
      per byte on the line, puts the bytes out in order and reads nothing. */
  lemma WriteEachFrames(ch: Channel, bytes: seq<bv8>, timeout: Option<nat>)
    ensures var s := WriteEachSpec(ch, bytes, timeout);
      s.after.input == ch.input &&
      (s.result.Ok? ==> s.after.log == ch.log + Frames(|bytes|) && s.after.wire == ch.wire + bytes)
  {
    ByteWriterFramed(timeout);
    EachKeepsInput(ByteWriter(timeout), ch, bytes);
    EachFrames(ByteWriter(timeout), ch, bytes);
    EachPrefix(ByteWriter(timeout), ch, bytes);
  }

  /** Whatever the outcome of write_bytes_uart_flow, what went out is a
      prefix of the bytes, and all of them exactly when it succeeds. */
  lemma WriteEachPrefix(ch: Channel, bytes: seq<bv8>, timeout: Option<nat>)
    ensures var s := WriteEachSpec(ch, bytes, timeout);
      ch.wire <= s.after.wire <= ch.wire + bytes
    ensures var s := WriteEachSpec(ch, bytes, timeout);
      s.result.Ok? <==> s.after.wire == ch.wire + bytes
  {
    ByteWriterFramed(timeout);
    EachPrefix(ByteWriter(timeout), ch, bytes);
  }

  // ---------------------------------------------------------------------
  // The monitor object

  class Monitor {
    const config: Config
    var port: Option<PortInfo>
    var uart: Option<Uart>
    var chan: Channel

    /** A uart only exists once a port was assigned, and it is open with the
        monitor's profile. */
    ghost predicate Valid()
      reads this
    {
      uart.Some? ==> port.Some? && uart.value.isOpen && uart.value.config == config
    }

    /** Construction tries to connect at once; a missing device leaves the
        monitor unconnected. */
    constructor (config: Config, ports: seq<PortInfo>, chan: Channel)
      ensures Valid() && this.config == config
      ensures var i := FindPort(ports, config.deviceVid, config.devicePid);
        i.Some? ==>
          port == Some(ports[i.value]) &&
          uart == Some(Uart(ports[i.value].device, config, true)) &&
          this.chan == WithRts(chan, false)
      ensures FindPort(ports, config.deviceVid, config.devicePid).None? ==>
        port.None? && uart.None? && this.chan == chan
    {
      this.config := config;
      port := None;
      uart := None;
      this.chan := chan;
      new;
      var _ := ConnectUart(ports);
    }

    predicate IsConnected()
      reads this
      ensures IsConnected() <==> uart.Some?
    {
      uart.Some?
    }

    /** The uart is open only when it exists, and an existing uart is open. */
    function UartOpen(): (r: bool)
      reads this
      ensures r ==> IsConnected()
      ensures Valid() ==> (r <==> IsConnected())
    {
      if uart.Some? then uart.value.isOpen else false
    }

    /** Assign the first listed port with the wanted ids; a failed search
        leaves the port as it was. */
    method AssignPort(ports: seq<PortInfo>, vid: Option<int>, pid: Option<int>) returns (r: Result<()>)
      requires Valid()
      modifies this`port
      ensures Valid()
      ensures var i := FindPort(ports, vid, pid);
        i.Some? ==> r == Ok(()) && port == Some(ports[i.value])
      ensures FindPort(ports, vid, pid).None? ==> r == Err(PortAssignError) && port == old(port)
    {
      for k := 0 to |ports|
        invariant forall j :: 0 <= j < k ==> !PortMatches(ports[j], vid, pid)
        invariant port == old(port)
      {
        if PortMatches(ports[k], vid, pid) {
          port := Some(ports[k]);
          assert FindPort(ports, vid, pid) == Some(k);
          return Ok(());
        }
      }
      return Err(PortAssignError);
    }

    /** Assign the configured device's port and create the uart; a device
        that is not listed is reported and swallowed, but a uart that already
        exists is an error. */
    method ConnectUart(ports: seq<PortInfo>) returns (r: Result<()>)
      requires Valid()
      modifies this`port, this`uart, this`chan
      ensures Valid()
      ensures FindPort(ports, config.deviceVid, config.devicePid).None? ==>
        r == Ok(()) && port == old(port) && uart == old(uart) && chan == old(chan)
      ensures var i := FindPort(ports, config.deviceVid, config.devicePid);
        i.Some? ==> (port == Some(ports[i.value]) &&
          if old(uart).Some? then
            r == Err(CreateUartError) && uart == old(uart) && chan == old(chan)
          else
            r == Ok(()) && uart == Some(Uart(ports[i.value].device, config, true)) &&
            chan == WithRts(old(chan), false))
    {
      var found := AssignPort(ports, config.deviceVid, config.devicePid);
      if found.Err? {
        return Ok(());  // "could not connect"
      }
      r := CreateUart();
    }

    /** Open the uart on the assigned port and leave RTS deasserted. */
    method CreateUart() returns (r: Result<()>)
      requires Valid()
      modifies this`uart, this`chan
      ensures Valid()
      ensures old(uart).Some? ==> r == Err(CreateUartError) && uart == old(uart) && chan == old(chan)
      ensures old(uart).None? && port.None? ==> r == Err(NoPort) && uart.None? && chan == old(chan)
      ensures old(uart).None? && port.Some? ==>
        r == Ok(()) && uart == Some(Uart(port.value.device, config, true)) &&
        chan == WithRts(old(chan), false) && !chan.rts
    {
      if uart.Some? {
        return Err(CreateUartError);
      }
      if port.None? {
        return Err(NoPort);
      }
      uart := Some(Uart(port.value.device, config, true));
      r := SetRTS(false);
    }

    /** Close the uart; closing one that does not exist is an error. */
    method CloseUart() returns (r: Result<()>)
      requires Valid()
      modifies this`uart
      ensures Valid()
      ensures r == (if old(uart).None? then Err(DestroyUartError) else Ok(()))
      ensures uart.None?
    {
      if uart.None? {
        return Err(DestroyUartError);
      }
      uart := None;
      return Ok(());
    }

    method SetRTS(level: bool) returns (r: Result<()>)
      modifies this`chan
      ensures uart.None? ==> r == Err(NoUart) && chan == old(chan)
      ensures uart.Some? ==> r == Ok(()) && chan == WithRts(old(chan), level) && chan.rts == level
    {
      if uart.None? {
        return Err(NoUart);
      }
      chan := WithRts(chan, level);
      return Ok(());
    }

    function ReadRTS(): (r: Result<bool>)
      reads this
      ensures r.Ok? <==> IsConnected()
      ensures r.Ok? ==> r.value == chan.rts
    {
      if uart.None? then Err(NoUart) else Ok(chan.rts)
    }

    method ReadCTS() returns (r: Result<bool>)
      modifies this`chan
      ensures uart.None? ==> r == Err(NoUart) && chan == old(chan)
      ensures uart.Some? ==> r == Ok(PollCts(old(chan)).0) && chan == PollCts(old(chan)).1
    {
      if uart.None? {
        return Err(NoUart);
      }
      var (level, after) := PollCts(chan);
      chan := after;
      return Ok(level);
    }

    /** The CTS polling loop of write_uart: poll until CTS is asserted or,
        with a truthy timeout, until more than `timeout` ticks have passed. */
    method AwaitCts(timeout: Option<nat>) returns (w: CtsWait)
      requires uart.Some?
      modifies this`chan
      ensures w == WaitForCts(old(chan).cts, Deadline(timeout))
      ensures chan == Polled(old(chan), w.polls)
    {
      ghost var start := chan;
      ghost var first := FirstAsserted(start.cts);
      ghost var polls: nat := 0;
      var tstart := chan.clock;
      var cleared := false;
      while !cleared
        invariant chan == Polled(start, polls) && tstart == start.clock
        invariant !cleared ==> polls <= first || first == |start.cts|
        invariant cleared ==> first < |start.cts| && polls == first + 1
        invariant !Truthy(timeout) ==> polls <= |start.cts|
        invariant Truthy(timeout) ==> polls <= timeout.value + 1
        invariant Truthy(timeout) && !cleared ==> polls <= timeout.value
        decreases !cleared, if Truthy(timeout) then timeout.value - polls else |start.cts| - polls
      {
        if !Truthy(timeout) && |chan.cts| == 0 {
          // CTS will never be asserted and there is no deadline
          return Stalled(chan.clock - tstart);
        }
        PollAfter(start, polls);
        var level := ReadCTS();
        polls := polls + 1;
        cleared := level.value;
        if !cleared && Truthy(timeout) && chan.clock - tstart > timeout.value {
          return TimedOut(chan.clock - tstart);
        }
      }
      return Cleared(chan.clock - tstart);
    }

    /** Write bytes, with the RTS/CTS handshake when `flowControl` is set. */
    method WriteUart(data: seq<bv8>, timeout: Option<nat>, flowControl: bool) returns (r: Result<()>)
      modifies this`chan
      ensures |data| == 0 ==> r == Err(ValueError) && chan == old(chan)
      ensures |data| > 0 && uart.None? ==> r == Err(NoUart) && chan == old(chan)
      ensures |data| > 0 && uart.Some? ==>
        Step(r, chan) == WriteUartSpec(old(chan), data, timeout, flowControl)
    {
      if |data| == 0 {
        return Err(ValueError);
      }
      if uart.None? {
        return Err(NoUart);
      }
      if flowControl {
        var _ := SetRTS(true);
        var w := AwaitCts(timeout);
        if w.Stalled? {
          return Err(Blocked);
        }
        if w.TimedOut? {
          return Err(WriteUartFail);
        }
        var _ := SetRTS(false);
      }
      var (written, after) := Transmit(chan, data);
      chan := after;
      if written == 0 {
        return Err(WriteUartFail);
      }
      return Ok(());
    }

    method WriteByteUartFlow(data: seq<bv8>, timeout: Option<nat>) returns (r: Result<()>)
      modifies this`chan
      ensures |data| == 0 ==> r == Err(ValueError) && chan == old(chan)
      ensures |data| > 0 && uart.None? ==> r == Err(NoUart) && chan == old(chan)
      ensures |data| > 0 && uart.Some? ==> Step(r, chan) == WriteUartSpec(old(chan), data, timeout, true)
    {
      r := WriteUart(data, timeout, true);
    }

    /** Send the bytes one at a time, each with the flow-control handshake,
        in reverse when not big-endian. */
    method WriteBytesUartFlow(data: seq<bv8>, timeout: Option<nat>, bigEndian: bool) returns (r: Result<()>)
      modifies this`chan
      ensures |data| == 0 ==> r == Ok(()) && chan == old(chan)
      ensures |data| > 0 && uart.None? ==> r == Err(NoUart) && chan == old(chan)
      ensures uart.Some? ==> Step(r, chan) == WriteEachSpec(old(chan), WriteOrder(data, bigEndian), timeout)
    {
      var wbytes := BytesToByteList(data);
      if !bigEndian {
        wbytes := Reverse(wbytes);
      }
      ghost var order := WriteOrder(data, bigEndian);
      assert |wbytes| == |order| && forall i :: 0 <= i < |wbytes| ==> wbytes[i] == [order[i]];
      if |wbytes| > 0 && uart.None? {
        r := WriteUart(wbytes[0], timeout, true);
        return;
      }
      for i := 0 to |wbytes|
        invariant uart.Some? ==>
          WriteEachSpec(old(chan), order, timeout) == WriteEachSpec(chan, order[i..], timeout)
        invariant uart.None? ==> chan == old(chan)
      {
        ghost var before := chan;
        assert wbytes[i] == [order[i..][0]];
        var w := WriteUart(wbytes[i], timeout, true);
        assert WriteEachSpec(before, order[i..], timeout) ==
          if w.Err? then Step(w, chan) else WriteEachSpec(chan, order[i..][1..], timeout);
        if w.Err? {
          return w;
        }
        assert order[i..][1..] == order[i + 1..];
      }
      return Ok(());
    }

    /** Read num_bytes bytes; a missing or zero count is refused before any
        read, and a short read is passed through unchecked. */
    method ReadUart(numBytes: Option<nat>, timeout: Option<nat>) returns (r: Result<seq<bv8>>)
      modifies this`chan
      ensures (numBytes.None? || numBytes.value == 0) ==> r == Err(ValueError) && chan == old(chan)
      ensures numBytes.Some? && numBytes.value > 0 && uart.None? ==> r == Err(NoUart) && chan == old(chan)
      ensures numBytes.Some? && numBytes.value > 0 && uart.Some? ==>
        Step(r, chan) == Receive(old(chan), numBytes.value, timeout)
    {
      if numBytes.None? || numBytes.value == 0 {
        return Err(ValueError);
      }
      if uart.None? {
        return Err(NoUart);
      }
      var s := Receive(chan, numBytes.value, timeout);
      chan := s.after;
      return s.result;
    }

    method ReadUartUntil(pattern: seq<bv8>, timeout: Option<nat>, size: Option<nat>) returns (r: Result<seq<bv8>>)
      modifies this`chan
      ensures uart.None? ==> r == Err(NoUart) && chan == old(chan)
      ensures uart.Some? ==> Step(r, chan) == ReceiveUntil(old(chan), pattern, timeout, size)
    {
      if uart.None? {
        return Err(NoUart);
      }
      var s := ReceiveUntil(chan, pattern, timeout, size);
      chan := s.after;
      return s.result;
    }

    method ReadUartLine(timeout: Option<nat>) returns (r: Result<seq<bv8>>)
      modifies this`chan
      ensures uart.None? ==> r == Err(NoUart) && chan == old(chan)
      ensures uart.Some? ==> Step(r, chan) == ReceiveUntil(old(chan), [0x0A], timeout, None)
    {
      r := ReadUartUntil([0x0A], timeout, None);
    }
  }
}
