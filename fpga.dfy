/** The FPGA command protocol: a command is named by a one-byte code that
    packs the read/write direction into the high bit and the command id into
    the low bits; executing a command sends that byte, then reads the
    command's reply or writes its payload. */
module MonitorFPGA {
  import opened Base
  import opened Serial
  import Monitor

  const MAX_COMMANDS := 128
  const WRITE := "w"
  const READ := "r"

  const CMD_1 := "test_rw_register"
  const CMD_2 := "test_read_register"

  /** The high bit of the command byte: set for a read. */
  function RwBit(rw: Option<string>): bv8
  {
    if rw == Some(READ) then 0x80 else 0
  }

  /** cmd_cbyte: the one-byte big-endian encoding of `RwBit | cid`. Ids above
      MAX_COMMANDS are refused; a negative id cannot be encoded as an
      unsigned byte. */
  function CmdCByte(cid: int, rw: Option<string>): (r: Result<seq<bv8>>)
    ensures r.Err? <==> cid < 0 || cid > MAX_COMMANDS
    ensures cid > MAX_COMMANDS ==> r == Err(CommandByteError)
    ensures 0 > cid ==> r == Err(OverflowError)
    ensures r.Ok? ==> |r.value| == 1
  {
    if cid > MAX_COMMANDS then Err(CommandByteError)
    else if cid < 0 then Err(OverflowError)
    else Ok([RwBit(rw) | cid as bv8])
  }

  /** Bit facts about a byte: setting the high bit leaves the low seven
      bits alone, and below 0x80 it adds 128. */
  lemma ByteBits(c: bv8)
    ensures (0x80 | c) & 0x7F == c & 0x7F && 0 | c == c
    ensures c < 0x80 ==> c & 0x80 == 0 && c & 0x7F == c && (0x80 | c) as int == 128 + c as int
  {
  }

  /** An accepted id fits the byte unchanged. */
  lemma IdByte(cid: int)
    requires 0 <= cid <= MAX_COMMANDS
    ensures (cid as bv8) as int == cid
    ensures cid < MAX_COMMANDS ==> cid as bv8 < 0x80
  {
  }

  /** The command byte's value: the id plus 128 for a read, for ids below
      MAX_COMMANDS; the accepted id MAX_COMMANDS gives 0x80 whatever the
      direction. */
  lemma CByteValue(cid: int, rw: Option<string>)
    requires 0 <= cid <= MAX_COMMANDS
    ensures cid < MAX_COMMANDS ==>
      CmdCByte(cid, rw).value[0] as int == (if rw == Some(READ) then 128 else 0) + cid
    ensures cid == MAX_COMMANDS ==> CmdCByte(cid, rw) == Ok([0x80])
  {
    IdByte(cid);
    ByteBits(cid as bv8);
  }

  /** How the FPGA reads a command byte: the direction bit and the id. */
  function DecodeCByte(b: bv8): (bool, int)
  {
    (b & 0x80 != 0, (b & 0x7F) as int)
  }

  /** For ids below MAX_COMMANDS the command byte decodes back to the
      direction and the id. */
  lemma CByteRoundTrip(cid: int, rw: Option<string>)
    requires 0 <= cid < MAX_COMMANDS
    ensures CmdCByte(cid, rw).Ok?
    ensures DecodeCByte(CmdCByte(cid, rw).value[0]) == (rw == Some(READ), cid)
  {
    IdByte(cid);
    ByteBits(cid as bv8);
  }

  /** The accepted id MAX_COMMANDS overlaps the direction bit: whatever the
      direction, its command byte is the byte of a read of command 0. */
  lemma CByteCollision(rw: Option<string>)
    ensures CmdCByte(MAX_COMMANDS, rw) == CmdCByte(0, Some(READ))
    ensures DecodeCByte(CmdCByte(MAX_COMMANDS, rw).value[0]) == (true, 0)
  {
  }

  /** Changing the direction changes only the high bit of a command byte. */
  lemma CByteLowBits(cid: int, rw1: Option<string>, rw2: Option<string>)
    requires 0 <= cid <= MAX_COMMANDS
    ensures CmdCByte(cid, rw1).value[0] & 0x7F == CmdCByte(cid, rw2).value[0] & 0x7F
  {
    ByteBits(cid as bv8);
  }

  /** One FPGA command. */
  class Command {
    const cid: int
    const readOnly: bool
    const noRBytes: nat
    const noWBytes: nat
    const name: string
    var rw: Option<string>
    var cbyte: seq<bv8>
    var rbytes: Option<seq<bv8>>
    var wbytes: Option<seq<bv8>>

    /** The direction is unset, read or write, and the command byte is
        always the encoding of the id and the direction. */
    ghost predicate Valid()
      reads this
    {
      (rw == None || rw == Some(READ) || rw == Some(WRITE)) && CmdCByte(cid, rw) == Ok(cbyte)
    }

    /** A command with an encodable id starts with no direction, no data and
        the id itself as its command byte. */
    constructor (cid: int, noRBytes: nat, noWBytes: nat, name: string, readOnly: bool)
      requires 0 <= cid <= MAX_COMMANDS
      ensures Valid()
      ensures this.cid == cid && this.noRBytes == noRBytes && this.noWBytes == noWBytes
      ensures this.name == name && this.readOnly == readOnly
      ensures rw == None && rbytes == None && wbytes == None
      ensures cbyte == [cid as bv8]
    {
      this.cid := cid;
      this.readOnly := readOnly;
      this.noRBytes := noRBytes;
      this.noWBytes := noWBytes;
      this.name := name;
      rw := None;
      cbyte := [cid as bv8];
      rbytes := None;
      wbytes := None;
    }

    /** setRW: set the direction and re-derive the command byte; anything
        but "r" or "w" is refused and changes nothing. */
    method SetRW(newRw: string) returns (r: Result<()>)
      requires Valid()
      modifies this`rw, this`cbyte
      ensures Valid()
      ensures newRw != READ && newRw != WRITE ==>
        r == Err(CommandRWError) && rw == old(rw) && cbyte == old(cbyte)
      ensures newRw == READ || newRw == WRITE ==>
        r == Ok(()) && rw == Some(newRw) && cbyte == CmdCByte(cid, Some(newRw)).value
      ensures cbyte[0] & 0x7F == old(cbyte)[0] & 0x7F
    {
      if newRw != READ && newRw != WRITE {
        return Err(CommandRWError);
      }
      CByteLowBits(cid, rw, Some(newRw));
      rw := Some(newRw);
      cbyte := CmdCByte(cid, rw).value;
      return Ok(());
    }
  }

  /** Command construction with its failure: the id must be encodable. */
  method NewCommand(cid: int, noRBytes: nat, noWBytes: nat, name: string, readOnly: bool)
    returns (r: Result<Command>)
    ensures r.Err? <==> CmdCByte(cid, None).Err?
    ensures r.Err? ==> r.error == CmdCByte(cid, None).error
    ensures r.Ok? ==> (fresh(r.value) && r.value.Valid() && r.value.cid == cid &&
      r.value.rw == None && r.value.rbytes == None && r.value.wbytes == None &&
      r.value.cbyte == [cid as bv8])
  {
    var encoded := CmdCByte(cid, None);
    if encoded.Err? {
      return Err(encoded.error);
    }
    var cmd := new Command(cid, noRBytes, noWBytes, name, readOnly);
    return Ok(cmd);
  }

  /** `{cmd.cid: cmd for cmd in cmds}`: later commands win on a shared id. */
  function IndexById(cmds: seq<Command>): (m: map<int, Command>)
    ensures m.Keys == set c | c in cmds :: c.cid
    ensures forall id :: id in m ==> m[id].cid == id && m[id] in cmds
  {
    if cmds == [] then map[]
    else IndexById(cmds[..|cmds| - 1])[cmds[|cmds| - 1].cid := cmds[|cmds| - 1]]
  }

  /** On a shared id the later command wins: a command with no later
      command of the same id is the one found under its id. */
  lemma {:induction false} IndexByIdLastWins(cmds: seq<Command>, i: nat)
    requires i < |cmds|
    requires forall j :: i < j < |cmds| ==> cmds[j].cid != cmds[i].cid
    ensures IndexById(cmds)[cmds[i].cid] == cmds[i]
  {
    if i < |cmds| - 1 {
      var init := cmds[..|cmds| - 1];
      forall j | i < j < |init|
        ensures init[j].cid != init[i].cid
      {
        assert init[j] == cmds[j];
      }
      IndexByIdLastWins(init, i);
    }
  }

  /** With distinct ids, looking a command up by its id finds that command. */
  lemma {:induction false} IndexByIdFindsEach(cmds: seq<Command>)
    requires forall i, j :: 0 <= i < j < |cmds| ==> cmds[i].cid != cmds[j].cid
    ensures forall i :: 0 <= i < |cmds| ==> IndexById(cmds)[cmds[i].cid] == cmds[i]
  {
    if cmds != [] {
      IndexByIdFindsEach(cmds[..|cmds| - 1]);
    }
  }

  /** Why execute_command refuses a command before any I/O, if it does: a
      write of a read-only command, a write with no payload (len(None)), a
      payload of the wrong length, or a direction setRW refuses. */
  function Refusal(readOnly: bool, noWBytes: nat, wbytes: Option<seq<bv8>>, rw: string): (f: Option<Failure>)
    ensures f.None? <==> ((rw == READ || rw == WRITE) &&
      (rw == WRITE ==> !readOnly && wbytes.Some? && |wbytes.value| == noWBytes))
  {
    if readOnly && rw == WRITE then Some(ExecuteCommandError)
    else if rw == WRITE && wbytes.None? then Some(TypeError)
    else if rw == WRITE && noWBytes != |wbytes.value| then Some(ExecuteCommandError)
    else if rw != READ && rw != WRITE then Some(CommandRWError)
    else None
  }

  /** The outcome of a command's wire sequence: the result, the line, and
      the bytes stored in rbytes when a read completed. */
  datatype Exchange = Exchange(result: Result<()>, after: Channel, read: Option<seq<bv8>>)

  /** What execute_command does after the command byte: a read of
      noRBytes bytes, stored in rbytes, or a flow-controlled write of the
      payload. */
  function DataPhase(ch: Channel, rw: string, noRBytes: nat, payload: seq<bv8>, timeout: Option<nat>): (x: Exchange)
    ensures x.read.Some? ==> rw == READ && x.result.Ok? && |x.read.value| <= noRBytes
    ensures rw == READ ==> x.after.wire == ch.wire && x.after.log == ch.log
    ensures rw == READ && noRBytes == 0 ==> x == Exchange(Err(ValueError), ch, None)
  {
    if rw == READ then
      if noRBytes == 0 then Exchange(Err(ValueError), ch, None)
      else
        var rd := Receive(ch, noRBytes, timeout);
        if rd.result.Err? then Exchange(Err(rd.result.error), rd.after, None)
        else Exchange(Ok(()), rd.after, Some(rd.result.value))
    else
      var wr := Monitor.WriteEachSpec(ch, payload, timeout);
      Exchange(wr.result, wr.after, None)
  }

  /** The wire sequence of execute_command on an open uart: the command byte
      with flow control, then the data phase. */
  function Transaction(ch: Channel, cbyte: seq<bv8>, rw: string, noRBytes: nat,
                       payload: seq<bv8>, timeout: Option<nat>): (x: Exchange)
    ensures x.read.Some? ==> rw == READ && x.result.Ok? && |x.read.value| <= noRBytes
  {
    var first := Monitor.WriteUartSpec(ch, cbyte, timeout, true);
    if first.result.Err? then Exchange(first.result, first.after, None)
    else DataPhase(first.after, rw, noRBytes, payload, timeout)
  }

  /** A successful read phase leaves the line's log alone and takes at most
      noRBytes bytes (exactly noRBytes without a timeout) off the front of
      the input; they are what is stored. */
  lemma ReadPhase(ch: Channel, noRBytes: nat, payload: seq<bv8>, timeout: Option<nat>)
    ensures var x := DataPhase(ch, READ, noRBytes, payload, timeout);
      x.result.Ok? ==>
        x.after.log == ch.log && x.after.wire == ch.wire &&
        x.read.Some? && ch.input == x.read.value + x.after.input &&
        0 < |x.read.value| + (if timeout.None? then 0 else 1) &&
        |x.read.value| <= noRBytes && (timeout.None? ==> |x.read.value| == noRBytes)
  {
  }

  /** A successful write phase sends the payload in order, one RTS/CTS frame
      per byte, and reads nothing. */
  lemma WritePhase(ch: Channel, rw: string, noRBytes: nat, payload: seq<bv8>, timeout: Option<nat>)
    requires rw != READ
    ensures var x := DataPhase(ch, rw, noRBytes, payload, timeout);
      x.result.Ok? ==>
        x.after.log == ch.log + Monitor.Frames(|payload|) && x.after.wire == ch.wire + payload &&
        x.read.None? && x.after.input == ch.input
  {
    Monitor.WriteEachFrames(ch, payload, timeout);
  }

  /** A successful transaction first sent the command byte in its own
      RTS/CTS frame, then ran the data phase from the line `mid` that the
      command byte left. */
  lemma CommandByteFirst(ch: Channel, cbyte: seq<bv8>, rw: string, noRBytes: nat,
                         payload: seq<bv8>, timeout: Option<nat>) returns (mid: Channel)
    requires |cbyte| == 1
    ensures var x := Transaction(ch, cbyte, rw, noRBytes, payload, timeout);
      x.result.Ok? ==>
        x == DataPhase(mid, rw, noRBytes, payload, timeout) &&
        mid.log == ch.log + Monitor.Frames(1) && mid.wire == ch.wire + cbyte && mid.input == ch.input
  {
    assert cbyte == [cbyte[0]];
    Monitor.OneByteWrite(ch, cbyte[0], timeout);
    mid := Monitor.WriteUartSpec(ch, cbyte, timeout, true).after;
  }

  /** What a successful read transaction did on the line: the command byte
      went out first in its own RTS/CTS frame, then at most noRBytes
      (exactly noRBytes without a timeout) were taken from the input and
      stored. */
  lemma TransactionRead(ch: Channel, cbyte: seq<bv8>, noRBytes: nat,
                        payload: seq<bv8>, timeout: Option<nat>)
    requires |cbyte| == 1
    ensures var x := Transaction(ch, cbyte, READ, noRBytes, payload, timeout);
      x.result.Ok? ==>
        x.after.log == ch.log + Monitor.Frames(1) && x.after.wire == ch.wire + cbyte &&
        x.read.Some? && ch.input == x.read.value + x.after.input &&
        |x.read.value| <= noRBytes && (timeout.None? ==> |x.read.value| == noRBytes)
  {
    var mid := CommandByteFirst(ch, cbyte, READ, noRBytes, payload, timeout);
    ReadPhase(mid, noRBytes, payload, timeout);
  }

  /** What a successful write transaction did on the line: the command byte
      went out first, then the payload in order, one RTS/CTS frame per
      byte; nothing was read. */
  lemma TransactionWrite(ch: Channel, cbyte: seq<bv8>, rw: string, noRBytes: nat,
                         payload: seq<bv8>, timeout: Option<nat>)
    requires |cbyte| == 1 && rw != READ
    ensures var x := Transaction(ch, cbyte, rw, noRBytes, payload, timeout);
      x.result.Ok? ==>
        x.after.log == ch.log + Monitor.Frames(1) + Monitor.Frames(|payload|) &&
        x.after.wire == ch.wire + cbyte + payload && x.read.None? && x.after.input == ch.input
  {
    var mid := CommandByteFirst(ch, cbyte, rw, noRBytes, payload, timeout);
    WritePhase(mid, rw, noRBytes, payload, timeout);
  }

  /** Whatever the outcome, what goes on the wire is a prefix of the command
      byte followed by the payload, never more. */
  lemma TransactionSendsPrefix(ch: Channel, cbyte: seq<bv8>, rw: string, noRBytes: nat,
                               payload: seq<bv8>, timeout: Option<nat>)
    requires |cbyte| == 1
    ensures var x := Transaction(ch, cbyte, rw, noRBytes, payload, timeout);
      ch.wire <= x.after.wire <= ch.wire + cbyte + payload
  {
    var first := Monitor.WriteUartSpec(ch, cbyte, timeout, true);
    assert cbyte == [cbyte[0]];
    Monitor.OneByteWrite(ch, cbyte[0], timeout);
    if first.result.Ok? && rw != READ {
      Monitor.WriteEachPrefix(first.after, payload, timeout);
    }
  }

  /** The FPGA monitor: the uart monitor with the FPGA profile and the
      command registry. */
  class MonitorFPGA {
    const monitor: Monitor.Monitor
    const commands: map<string, Command>
    const commandsById: map<int, Command>

    /** The registry holds the two test commands, by name and by id. */
    ghost predicate Registered()
      reads this, commands.Values
      ensures Registered() ==>
        commandsById.Keys == {1, 2} &&
        forall id :: id in commandsById ==> commandsById[id].cid == id && commandsById[id] in commands.Values
    {
      commands.Keys == {CMD_1, CMD_2} &&
      commands[CMD_1].cid == 1 && commands[CMD_1].noRBytes == 3 && commands[CMD_1].noWBytes == 3 &&
      !commands[CMD_1].readOnly &&
      commands[CMD_2].cid == 2 && commands[CMD_2].noRBytes == 5 && commands[CMD_2].noWBytes == 0 &&
      commands[CMD_2].readOnly &&
      commandsById == map[1 := commands[CMD_1], 2 := commands[CMD_2]]
    }

    constructor (ports: seq<Monitor.PortInfo>, chan: Channel)
      ensures Registered()
      ensures commands[CMD_1].Valid() && commands[CMD_2].Valid()
      ensures fresh(monitor) && monitor.config == Monitor.ConfigFPGA && monitor.Valid()
      ensures var i := Monitor.FindPort(ports, Some(1659), Some(8963));
        i.Some? ==>
          monitor.port == Some(ports[i.value]) &&
          monitor.uart == Some(Monitor.Uart(ports[i.value].device, Monitor.ConfigFPGA, true)) &&
          monitor.chan == WithRts(chan, false)
      ensures Monitor.FindPort(ports, Some(1659), Some(8963)).None? ==>
        monitor.port.None? && monitor.uart.None? && monitor.chan == chan
    {
      var c1 := new Command(1, 3, 3, CMD_1, false);
      var c2 := new Command(2, 5, 0, CMD_2, true);
      monitor := new Monitor.Monitor(Monitor.ConfigFPGA, ports, chan);
      commands := map[CMD_1 := c1, CMD_2 := c2];
      commandsById := IndexById([c1, c2]);
      new;
      IndexByIdFindsEach([c1, c2]);
    }

    /** get_command: an unknown name raises KeyError. */
    function GetCommand(name: string): (r: Result<Command>)
      ensures r.Ok? <==> name in commands
      ensures r.Ok? ==> r.value == commands[name]
      ensures r.Err? ==> r.error == KeyError
    {
      if name in commands then Ok(commands[name]) else Err(KeyError)
    }

    /** get_command_by_id: the registered command with that id. */
    function GetCommandById(cid: int): (r: Result<Command>)
      reads this, commands.Values
      requires Registered()
      ensures r.Ok? <==> cid == 1 || cid == 2
      ensures r.Ok? ==> r.value.cid == cid && r.value in commands.Values
      ensures r.Err? ==> r.error == KeyError
    {
      if cid in commandsById then Ok(commandsById[cid]) else Err(KeyError)
    }

    /** The line half of execute_command: the command byte with flow
        control, then either the read into a fresh buffer or the payload
        byte by byte. */
    method RunTransaction(cbyte: seq<bv8>, rw: string, noRBytes: nat, payload: seq<bv8>,
                          timeout: Option<nat>) returns (x: Exchange)
      requires |cbyte| == 1
      modifies monitor`chan
      ensures monitor.uart.None? ==>
        x == Exchange(Err(NoUart), old(monitor.chan), None) && monitor.chan == old(monitor.chan)
      ensures monitor.uart.Some? ==>
        x == Transaction(old(monitor.chan), cbyte, rw, noRBytes, payload, timeout) && monitor.chan == x.after
    {
      var r := monitor.WriteByteUartFlow(cbyte, timeout);
      if r.Err? {
        return Exchange(r, monitor.chan, None);
      }
      if rw == READ {
        if noRBytes == 0 {
          return Exchange(Err(ValueError), monitor.chan, None);
        }
        var data := monitor.ReadUart(Some(noRBytes), timeout);
        if data.Err? {
          return Exchange(Err(data.error), monitor.chan, None);
        }
        return Exchange(Ok(()), monitor.chan, Some(data.value));
      }
      r := monitor.WriteBytesUartFlow(payload, timeout, true);
      assert Monitor.WriteOrder(payload, true) == payload;
      return Exchange(r, monitor.chan, None);
    }

    /** execute_command: check the command, set its direction, then run the
        wire sequence; a read stores what was read in rbytes. */
    method ExecuteCommand(cmd: Command, rw: string, timeout: Option<nat>) returns (r: Result<()>)
      requires cmd.Valid()
      modifies monitor`chan, cmd`rw, cmd`cbyte, cmd`rbytes
      ensures cmd.Valid()
      ensures var f := Refusal(cmd.readOnly, cmd.noWBytes, cmd.wbytes, rw);
        f.Some? ==> (r == Err(f.value) && cmd.rw == old(cmd.rw) && cmd.cbyte == old(cmd.cbyte) &&
          cmd.rbytes == old(cmd.rbytes) && monitor.chan == old(monitor.chan))
      ensures Refusal(cmd.readOnly, cmd.noWBytes, cmd.wbytes, rw).None? ==>
        cmd.rw == Some(rw) && cmd.cbyte == CmdCByte(cmd.cid, Some(rw)).value
      ensures Refusal(cmd.readOnly, cmd.noWBytes, cmd.wbytes, rw).None? && monitor.uart.None? ==>
        r == Err(NoUart) && cmd.rbytes == old(cmd.rbytes) && monitor.chan == old(monitor.chan)
      ensures Refusal(cmd.readOnly, cmd.noWBytes, cmd.wbytes, rw).None? && monitor.uart.Some? ==>
        var x := Transaction(old(monitor.chan), cmd.cbyte, rw, cmd.noRBytes,
                             if rw == WRITE then cmd.wbytes.value else [], timeout);
        r == x.result && monitor.chan == x.after &&
        cmd.rbytes == (if x.read.Some? then x.read else old(cmd.rbytes))
    {
      if cmd.readOnly && rw == WRITE {
        return Err(ExecuteCommandError);
      }
      if rw == WRITE && cmd.wbytes.None? {
        return Err(TypeError);
      }
      if rw == WRITE && cmd.noWBytes != |cmd.wbytes.value| {
        return Err(ExecuteCommandError);
      }
      var chosen := cmd.SetRW(rw);
      if chosen.Err? {
        return chosen;
      }
      var payload := if rw == WRITE then cmd.wbytes.value else [];
      var x := RunTransaction(cmd.cbyte, rw, cmd.noRBytes, payload, timeout);
      if x.read.Some? {
        cmd.rbytes := x.read;
      }
      return x.result;
    }
  }
}
