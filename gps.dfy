/** The GPS receiver monitor: NMEA 0183 frames are cut out of the byte
    stream between a '$' and the next line feed, parsed into sentences, and
    filtered by talker id and sentence type. */
module MonitorGPSReceiver {
  import opened Base
  import opened Serial
  import Monitor

  const NMEA_FRAME_START: bv8 := 0x24  // '$'
  const NMEA_FRAME_END: bv8 := 0x0A    // '\n'
  const USE_NMEA_CHECKSUM := true

  const TALKER_ID_GPS := "GP"
  const TALKER_ID_SBAS := "GP"
  const TALKER_ID_GALILEO := "GA"
  const TALKER_ID_BEIDOU := "GB"
  const TALKER_ID_GLONASS := "GL"
  const TALKER_ID_OTHER := "GN"
  const GSA := "GSA"
  const GGA := "GGA"

  /** A parsed NMEA sentence: who sent it, what kind it is, its fields. */
  datatype Sentence = Sentence(talker: string, sentenceType: string, data: seq<string>)

  /** Python's truth value of an optional filter: None and "" are false. */
  predicate Given(filter: Option<string>)
  {
    filter.Some? && filter.value != ""
  }

  /** checkNMEAFrameType: each filter that is given must match; a filter
      that is None or empty does not care. */
  function CheckNMEAFrameType(s: Sentence, talker: Option<string>, sentenceType: Option<string>): (r: bool)
    ensures r <==> (Given(talker) ==> s.talker == talker.value) &&
                   (Given(sentenceType) ==> s.sentenceType == sentenceType.value)
  {
    var isTalker := talker.Some? && s.talker == talker.value;
    var isSentenceType := sentenceType.Some? && s.sentenceType == sentenceType.value;
    if Given(talker) && Given(sentenceType) then isTalker && isSentenceType
    else if Given(talker) then isTalker
    else if Given(sentenceType) then isSentenceType
    else true
  }

  /** parseNMEAFrame: the parser, called with checksum checking on; its
      refusal becomes ParseNMEAFrameError. */
  function ParseNMEAFrame(parse: (string, bool) -> Option<Sentence>, frame: string): (r: Result<Sentence>)
    ensures r.Ok? <==> parse(frame, true).Some?
    ensures r.Ok? ==> r.value == parse(frame, true).value
    ensures r.Err? ==> r.error == ParseNMEAFrameError
  {
    match parse(frame, USE_NMEA_CHECKSUM)
    case None => Err(ParseNMEAFrameError)
    case Some(s) => Ok(s)
  }

  /** The frame bytes decoded as UTF-8 and parsed; a decoding failure is not
      caught and escapes as UnicodeDecodeError. */
  function ParseFrameBytes(decode: seq<bv8> -> Option<string>, parse: (string, bool) -> Option<Sentence>,
                           frame: seq<bv8>): (r: Result<Sentence>)
    ensures r.Err? ==> r.error == UnicodeDecodeError || r.error == ParseNMEAFrameError
    ensures r.Ok? ==> decode(frame).Some? && r == ParseNMEAFrame(parse, decode(frame).value)
  {
    match decode(frame)
    case None => Err(UnicodeDecodeError)
    case Some(text) => ParseNMEAFrame(parse, text)
  }

  /** The next frame of a byte stream and what follows it: the bytes
      strictly after the first '$' up to and including the next line feed;
      None when the stream has no '$', or no line feed after it. */
  function NextFrame(input: seq<bv8>): (r: Option<(seq<bv8>, seq<bv8>)>)
    ensures r.Some? ==> |r.value.0| > 0 && |r.value.0| + |r.value.1| < |input|
  {
    var i := IndexOf(input, NMEA_FRAME_START);
    if i == |input| then None
    else
      var rest := input[i + 1..];
      var j := IndexOf(rest, NMEA_FRAME_END);
      if j == |rest| then None
      else
        assert rest == rest[..j + 1] + rest[j + 1..];
        Some((rest[..j + 1], rest[j + 1..]))
  }

  /** NextFrame finds no frame exactly when the stream has no '$' or no
      line feed after its first '$'. */
  lemma NoNextFrame(input: seq<bv8>)
    ensures NextFrame(input).None? <==>
      (IndexOf(input, NMEA_FRAME_START) == |input| ||
       NMEA_FRAME_END !in input[IndexOf(input, NMEA_FRAME_START) + 1..])
  {
    var i := IndexOf(input, NMEA_FRAME_START);
    if i < |input| {
      var rest := input[i + 1..];
      var j := IndexOf(rest, NMEA_FRAME_END);
      if j < |rest| {
        assert rest[j] == NMEA_FRAME_END;
      }
    }
  }

  /** A frame NextFrame finds starts right after the stream's first '$',
      ends at the first line feed after it, and the tail is everything
      after that line feed. */
  lemma NextFrameShape(input: seq<bv8>)
    ensures var r := NextFrame(input);
      r.Some? ==>
        var (frame, tail) := r.value;
        var p := |input| - |frame| - |tail| - 1;
        0 <= p && input[p] == NMEA_FRAME_START && (forall k :: 0 <= k < p ==> input[k] != NMEA_FRAME_START) &&
        input[p + 1..] == frame + tail &&
        |frame| > 0 && frame[|frame| - 1] == NMEA_FRAME_END &&
        (forall k :: 0 <= k < |frame| - 1 ==> frame[k] != NMEA_FRAME_END)
  {
    var i := IndexOf(input, NMEA_FRAME_START);
    if i < |input| {
      var rest := input[i + 1..];
      var j := IndexOf(rest, NMEA_FRAME_END);
      if j < |rest| {
        var frame := rest[..j + 1];
        var tail := rest[j + 1..];
        assert NextFrame(input) == Some((frame, tail));
        assert |input| - |frame| - |tail| - 1 == i;
        assert frame + tail == rest;
      }
    }
  }

  /** readNMEAFrame on an open uart: read through the next '$' and drop it,
      read through the next line feed, then decode and parse that frame. */
  function FrameSpec(ch: Channel, timeout: Option<nat>, decode: seq<bv8> -> Option<string>,
                     parse: (string, bool) -> Option<Sentence>): (s: Step<Sentence>)
    ensures s.after.log == ch.log && s.after.wire == ch.wire && s.after.rts == ch.rts && s.after.cts == ch.cts
    ensures s.after.clock >= ch.clock
    ensures s.result.Err? ==>
      s.result.error in {Blocked, UnicodeDecodeError, ParseNMEAFrameError}
    ensures timeout.None? && s.result.Ok? ==> |s.after.input| + 2 <= |ch.input|
  {
    var pre := ReceiveUntil(ch, [NMEA_FRAME_START], timeout, None);
    if pre.result.Err? then Step(Err(pre.result.error), pre.after)
    else
      var frame := ReceiveUntil(pre.after, [NMEA_FRAME_END], timeout, None);
      if frame.result.Err? then Step(Err(frame.result.error), frame.after)
      else Step(ParseFrameBytes(decode, parse, frame.result.value), frame.after)
  }

  /** Without a timeout, readNMEAFrame parses the stream's next frame and
      leaves the stream just after it; it blocks when there is none. */
  lemma FrameFromStream(ch: Channel, decode: seq<bv8> -> Option<string>,
                        parse: (string, bool) -> Option<Sentence>)
    ensures var s := FrameSpec(ch, None, decode, parse);
      NextFrame(ch.input).None? ==> s.result == Err(Blocked)
    ensures var s := FrameSpec(ch, None, decode, parse);
      var n := NextFrame(ch.input);
      n.Some? ==> s.result == ParseFrameBytes(decode, parse, n.value.0) && s.after.input == n.value.1
  {
    var i := IndexOf(ch.input, NMEA_FRAME_START);
    UntilByte(ch.input, NMEA_FRAME_START);
    if i < |ch.input| {
      var pre := ReceiveUntil(ch, [NMEA_FRAME_START], None, None);
      assert pre.after.input == ch.input[i + 1..];
      UntilByte(pre.after.input, NMEA_FRAME_END);
    }
  }

  /** Where the stream ends up after readNMEAFrame does not depend on
      whether the frame decodes or parses. */
  lemma FramePositionIndependent(ch: Channel, timeout: Option<nat>,
                                 decode1: seq<bv8> -> Option<string>, parse1: (string, bool) -> Option<Sentence>,
                                 decode2: seq<bv8> -> Option<string>, parse2: (string, bool) -> Option<Sentence>)
    ensures FrameSpec(ch, timeout, decode1, parse1).after == FrameSpec(ch, timeout, decode2, parse2).after
    ensures FrameSpec(ch, timeout, decode1, parse1).result == Err(Blocked) <==>
            FrameSpec(ch, timeout, decode2, parse2).result == Err(Blocked)
  {
  }

  /** readNMEAFrameSelect on an open uart: before each frame, give up with
      ReadNMEAFrameError once more than the deadline has elapsed since
      `tstart`; read frames (with no timeout) and return the first that
      passes the filter. Any failure to read or parse a frame ends the
      search. */
  function SelectSpec(ch: Channel, talker: Option<string>, sentenceType: Option<string>,
                      deadline: Option<nat>, tstart: nat, decode: seq<bv8> -> Option<string>,
                      parse: (string, bool) -> Option<Sentence>): (s: Step<Sentence>)
    decreases |ch.input|
    ensures s.result.Ok? ==> CheckNMEAFrameType(s.result.value, talker, sentenceType)
    ensures s.result == Err(ReadNMEAFrameError) ==>
      deadline.Some? && s.after.clock - tstart > deadline.value
    ensures s.after.clock >= ch.clock && s.after.log == ch.log && s.after.wire == ch.wire
  {
    if deadline.Some? && ch.clock - tstart > deadline.value then Step(Err(ReadNMEAFrameError), ch)
    else
      var f := FrameSpec(ch, None, decode, parse);
      if f.result.Err? then f
      else if CheckNMEAFrameType(f.result.value, talker, sentenceType) then f
      else SelectSpec(f.after, talker, sentenceType, deadline, tstart, decode, parse)
  }

  /** A reference reading of the stream alone: the first frame, in stream
      order, that parses and passes the filter; earlier frames that pass
      parsing but not the filter are skipped. */
  function Scan(input: seq<bv8>, talker: Option<string>, sentenceType: Option<string>,
                decode: seq<bv8> -> Option<string>, parse: (string, bool) -> Option<Sentence>): Result<Sentence>
    decreases |input|
  {
    match NextFrame(input)
    case None => Err(Blocked)
    case Some((frame, tail)) =>
      match ParseFrameBytes(decode, parse, frame)
      case Err(e) => Err(e)
      case Ok(s) =>
        if CheckNMEAFrameType(s, talker, sentenceType) then Ok(s)
        else Scan(tail, talker, sentenceType, decode, parse)
  }

  /** The reference reading, one frame at a time: it takes the same frame
      readNMEAFrame reads and goes on from where that read leaves the
      stream. */
  lemma ScanByFrame(ch: Channel, talker: Option<string>, sentenceType: Option<string>,
                    decode: seq<bv8> -> Option<string>, parse: (string, bool) -> Option<Sentence>)
    ensures var f := FrameSpec(ch, None, decode, parse);
      Scan(ch.input, talker, sentenceType, decode, parse) ==
        if f.result.Err? || CheckNMEAFrameType(f.result.value, talker, sentenceType) then f.result
        else Scan(f.after.input, talker, sentenceType, decode, parse)
  {
    FrameFromStream(ch, decode, parse);
  }

  /** With no deadline, readNMEAFrameSelect returns exactly the first
      matching frame of the stream. */
  lemma {:induction false} SelectIsFirstMatch(ch: Channel, talker: Option<string>, sentenceType: Option<string>,
                                              tstart: nat, decode: seq<bv8> -> Option<string>,
                                              parse: (string, bool) -> Option<Sentence>)
    decreases |ch.input|
    ensures SelectSpec(ch, talker, sentenceType, None, tstart, decode, parse).result ==
            Scan(ch.input, talker, sentenceType, decode, parse)
  {
    ScanByFrame(ch, talker, sentenceType, decode, parse);
    var f := FrameSpec(ch, None, decode, parse);
    if f.result.Ok? && !CheckNMEAFrameType(f.result.value, talker, sentenceType) {
      SelectIsFirstMatch(f.after, talker, sentenceType, tstart, decode, parse);
    }
  }

  /** A deadline only cuts the search short: unless it times out, the search
      with a deadline ends exactly as the search without one. */
  lemma {:induction false} DeadlineOnlyCuts(ch: Channel, talker: Option<string>, sentenceType: Option<string>,
                                            t: nat, tstart: nat, decode: seq<bv8> -> Option<string>,
                                            parse: (string, bool) -> Option<Sentence>)
    decreases |ch.input|
    ensures var timed := SelectSpec(ch, talker, sentenceType, Some(t), tstart, decode, parse);
      timed.result != Err(ReadNMEAFrameError) ==>
        timed == SelectSpec(ch, talker, sentenceType, None, tstart, decode, parse)
  {
    var f := FrameSpec(ch, None, decode, parse);
    if !(ch.clock - tstart > t) && f.result.Ok? && !CheckNMEAFrameType(f.result.value, talker, sentenceType) {
      DeadlineOnlyCuts(f.after, talker, sentenceType, t, tstart, decode, parse);
    }
  }

  /** The lines at which the search without a deadline looks at the clock:
      the line at the call, then the line after each frame that parses but
      does not pass the filter. */
  ghost function Checks(ch: Channel, talker: Option<string>, sentenceType: Option<string>,
                        decode: seq<bv8> -> Option<string>,
                        parse: (string, bool) -> Option<Sentence>): (cs: seq<Channel>)
    decreases |ch.input|
    ensures |cs| > 0 && cs[0] == ch
  {
    var f := FrameSpec(ch, None, decode, parse);
    if f.result.Ok? && !CheckNMEAFrameType(f.result.value, talker, sentenceType) then
      [ch] + Checks(f.after, talker, sentenceType, decode, parse)
    else [ch]
  }

  /** One round of the search with a deadline, in terms of the checks:
      it is late at once, or it ends without a timeout after the only check,
      or it goes on from the next check. */
  lemma SelectRound(ch: Channel, talker: Option<string>, sentenceType: Option<string>,
                    t: nat, tstart: nat, decode: seq<bv8> -> Option<string>,
                    parse: (string, bool) -> Option<Sentence>) returns (next: Option<Channel>)
    ensures var s := SelectSpec(ch, talker, sentenceType, Some(t), tstart, decode, parse);
      ch.clock - tstart > t ==> next.None? && s == Step(Err(ReadNMEAFrameError), ch)
    ensures var s := SelectSpec(ch, talker, sentenceType, Some(t), tstart, decode, parse);
      ch.clock - tstart <= t && next.None? ==>
        Checks(ch, talker, sentenceType, decode, parse) == [ch] && s.result != Err(ReadNMEAFrameError)
    ensures next.Some? ==>
      ch.clock - tstart <= t && |next.value.input| < |ch.input| &&
      Checks(ch, talker, sentenceType, decode, parse) == [ch] + Checks(next.value, talker, sentenceType, decode, parse) &&
      SelectSpec(ch, talker, sentenceType, Some(t), tstart, decode, parse) ==
        SelectSpec(next.value, talker, sentenceType, Some(t), tstart, decode, parse)
  {
    var f := FrameSpec(ch, None, decode, parse);
    if ch.clock - tstart <= t && f.result.Ok? && !CheckNMEAFrameType(f.result.value, talker, sentenceType) {
      next := Some(f.after);
    } else {
      next := None;
    }
  }

  /** Some check in `cs` is late for the deadline `t` counted from `tstart`. */
  ghost predicate AnyLate(cs: seq<Channel>, tstart: nat, t: nat)
  {
    exists i :: 0 <= i < |cs| && cs[i].clock - tstart > t
  }

  /** `c` is the first check in `cs` that is late. */
  ghost predicate FirstLate(cs: seq<Channel>, c: Channel, tstart: nat, t: nat)
  {
    exists i :: 0 <= i < |cs| && c == cs[i] && cs[i].clock - tstart > t &&
      forall j :: 0 <= j < i ==> cs[j].clock - tstart <= t
  }

  /** A check that is not late in front changes neither. */
  lemma LateBehind(c: Channel, rest: seq<Channel>, after: Channel, tstart: nat, t: nat)
    requires c.clock - tstart <= t
    ensures AnyLate([c] + rest, tstart, t) <==> AnyLate(rest, tstart, t)
    ensures FirstLate(rest, after, tstart, t) ==> FirstLate([c] + rest, after, tstart, t)
  {
    var cs := [c] + rest;
    if AnyLate(cs, tstart, t) {
      var i :| 0 <= i < |cs| && cs[i].clock - tstart > t;
      assert i > 0 && cs[i] == rest[i - 1];
    }
    if AnyLate(rest, tstart, t) {
      var i :| 0 <= i < |rest| && rest[i].clock - tstart > t;
      assert cs[i + 1] == rest[i];
    }
    if FirstLate(rest, after, tstart, t) {
      var i :| 0 <= i < |rest| && after == rest[i] && rest[i].clock - tstart > t &&
        forall j :: 0 <= j < i ==> rest[j].clock - tstart <= t;
      assert cs[i + 1] == rest[i];
      forall j | 0 <= j < i + 1
        ensures cs[j].clock - tstart <= t
      {
        if j > 0 {
          assert cs[j] == rest[j - 1];
        }
      }
    }
  }

  /** The deadline fires exactly when, at one of the checks the search
      makes, more than the deadline has elapsed since `tstart`; the search
      then stops at the first such check, reading nothing more. */
  lemma {:induction false} DeadlineFires(ch: Channel, talker: Option<string>, sentenceType: Option<string>,
                                         t: nat, tstart: nat, decode: seq<bv8> -> Option<string>,
                                         parse: (string, bool) -> Option<Sentence>)
    decreases |ch.input|
    ensures var s := SelectSpec(ch, talker, sentenceType, Some(t), tstart, decode, parse);
      s.result == Err(ReadNMEAFrameError) <==> AnyLate(Checks(ch, talker, sentenceType, decode, parse), tstart, t)
    ensures var s := SelectSpec(ch, talker, sentenceType, Some(t), tstart, decode, parse);
      s.result == Err(ReadNMEAFrameError) ==> FirstLate(Checks(ch, talker, sentenceType, decode, parse), s.after, tstart, t)
  {
    var cs := Checks(ch, talker, sentenceType, decode, parse);
    var next := SelectRound(ch, talker, sentenceType, t, tstart, decode, parse);
    if ch.clock - tstart > t {
      assert cs[0].clock - tstart > t;
    } else if next.Some? {
      var s := SelectSpec(next.value, talker, sentenceType, Some(t), tstart, decode, parse);
      DeadlineFires(next.value, talker, sentenceType, t, tstart, decode, parse);
      LateBehind(ch, Checks(next.value, talker, sentenceType, decode, parse), s.after, tstart, t);
    } else {
      assert cs == [ch];
    }
  }

  /** A frame that parses but does not pass the filter, read while the
      deadline had not yet passed but ending past it, ends the search with
      ReadNMEAFrameError at the line that frame left. */
  lemma LateFrameTimesOut(ch: Channel, talker: Option<string>, sentenceType: Option<string>,
                          t: nat, tstart: nat, decode: seq<bv8> -> Option<string>,
                          parse: (string, bool) -> Option<Sentence>)
    requires ch.clock - tstart <= t
    requires var f := FrameSpec(ch, None, decode, parse);
      f.result.Ok? && !CheckNMEAFrameType(f.result.value, talker, sentenceType) && f.after.clock - tstart > t
    ensures SelectSpec(ch, talker, sentenceType, Some(t), tstart, decode, parse) ==
      Step(Err(ReadNMEAFrameError), FrameSpec(ch, None, decode, parse).after)
  {
  }

  /** Without a deadline the search never reports a timeout. */
  lemma NoDeadlineNeverTimesOut(ch: Channel, talker: Option<string>, sentenceType: Option<string>,
                                tstart: nat, decode: seq<bv8> -> Option<string>,
                                parse: (string, bool) -> Option<Sentence>)
    ensures SelectSpec(ch, talker, sentenceType, None, tstart, decode, parse).result != Err(ReadNMEAFrameError)
  {
  }

  /** The GPS receiver monitor: the uart monitor with the receiver's
      profile. The UTF-8 decoder and the NMEA parser are parameters. */
  class MonitorGPSReceiver {
    const monitor: Monitor.Monitor

    constructor (ports: seq<Monitor.PortInfo>, chan: Channel)
      ensures fresh(monitor) && monitor.config == Monitor.ConfigGPSReceiver && monitor.Valid()
      ensures var i := Monitor.FindPort(ports, None, None);
        i.Some? ==>
          monitor.port == Some(ports[i.value]) &&
          monitor.uart == Some(Monitor.Uart(ports[i.value].device, Monitor.ConfigGPSReceiver, true)) &&
          monitor.chan == WithRts(chan, false)
      ensures Monitor.FindPort(ports, None, None).None? ==>
        monitor.port.None? && monitor.uart.None? && monitor.chan == chan
    {
      monitor := new Monitor.Monitor(Monitor.ConfigGPSReceiver, ports, chan);
    }

    /** readNMEAFrame: the next frame of the stream, parsed. */
    method ReadNMEAFrame(timeout: Option<nat>, decode: seq<bv8> -> Option<string>,
                         parse: (string, bool) -> Option<Sentence>) returns (r: Result<Sentence>)
      modifies monitor`chan
      ensures monitor.uart.None? ==> r == Err(NoUart) && monitor.chan == old(monitor.chan)
      ensures monitor.uart.Some? ==> Step(r, monitor.chan) == FrameSpec(old(monitor.chan), timeout, decode, parse)
    {
      var preframe := monitor.ReadUartUntil([NMEA_FRAME_START], timeout, None);
      if preframe.Err? {
        return Err(preframe.error);
      }
      var frame := monitor.ReadUartUntil([NMEA_FRAME_END], timeout, None);
      if frame.Err? {
        return Err(frame.error);
      }
      var text := decode(frame.value);
      if text.None? {
        return Err(UnicodeDecodeError);
      }
      r := ParseNMEAFrame(parse, text.value);
    }

    /** readNMEAFrameSelect: the first frame that passes the filter, or
        ReadNMEAFrameError once a truthy timeout has passed. */
    method ReadNMEAFrameSelect(talker: Option<string>, sentenceType: Option<string>, timeout: Option<nat>,
                               decode: seq<bv8> -> Option<string>,
                               parse: (string, bool) -> Option<Sentence>) returns (r: Result<Sentence>)
      modifies monitor`chan
      ensures monitor.uart.None? ==> r == Err(NoUart) && monitor.chan == old(monitor.chan)
      ensures monitor.uart.Some? ==>
        Step(r, monitor.chan) ==
          SelectSpec(old(monitor.chan), talker, sentenceType, Deadline(timeout), old(monitor.chan).clock, decode, parse)
    {
      var tstart := monitor.chan.clock;
      if monitor.uart.None? {
        return Err(NoUart);
      }
      while true
        invariant monitor.uart.Some?
        invariant SelectSpec(old(monitor.chan), talker, sentenceType, Deadline(timeout), tstart, decode, parse) ==
                  SelectSpec(monitor.chan, talker, sentenceType, Deadline(timeout), tstart, decode, parse)
        decreases |monitor.chan.input|
      {
        if Truthy(timeout) && monitor.chan.clock - tstart > timeout.value {
          return Err(ReadNMEAFrameError);
        }
        var sentence := ReadNMEAFrame(None, decode, parse);
        if sentence.Err? {
          return sentence;
        }
        if CheckNMEAFrameType(sentence.value, talker, sentenceType) {
          return sentence;
        }
      }
    }
  }
}
