/** The serial line as the monitor sees it through pySerial, reduced to what
    the monitor's code observes and changes. The operating system, the
    driver and the remote device are replaced by recorded behaviour: the
    levels the device will present on CTS, the byte counts the driver will
    report for writes, and the bytes the device will send. */
module Serial {
  import opened Base

  /** What the host does to the line, in order: drive RTS, or call write
      (recording how many bytes the driver accepted). */
  datatype LineEvent = RtsSet(level: bool) | Wrote(count: nat)

  /** One serial line.
      - rts: the level the host drives on RTS;
      - cts: the CTS level seen at each successive poll (deasserted once the
        recording runs out);
      - replies: the byte count the driver reports for each successive write
        (zero once the recording runs out);
      - input: the bytes the device sends, in arrival order;
      - clock: ticks elapsed; a CTS poll and a received byte each take one;
      - log: what the host has done to the line so far;
      - wire: the bytes that went out, in order. */
  datatype Channel = Channel(
    rts: bool,
    cts: seq<bool>,
    replies: seq<nat>,
    input: seq<bv8>,
    clock: nat,
    log: seq<LineEvent>,
    wire: seq<bv8>)

  /** The outcome of one operation on the line and the line afterwards. */
  datatype Step<+T> = Step(result: Result<T>, after: Channel)

  function Drop<T>(s: seq<T>, k: nat): (r: seq<T>)
    ensures k <= |s| ==> r == s[k..]
    ensures k >= |s| ==> r == []
  {
    if k <= |s| then s[k..] else []
  }

  /** pySerial's setRTS: drive RTS to `level`. */
  function WithRts(ch: Channel, level: bool): Channel
  {
    ch.(rts := level, log := ch.log + [RtsSet(level)])
  }

  /** pySerial's getCTS: one poll, one tick, one recorded sample. */
  function PollCts(ch: Channel): (bool, Channel)
  {
    if |ch.cts| > 0 then (ch.cts[0], ch.(cts := ch.cts[1..], clock := ch.clock + 1))
    else (false, ch.(clock := ch.clock + 1))
  }

  /** How many of `len` bytes the driver accepts on the next write: the
      recorded count, capped at `len`; none once the recording runs out. */
  function Accepts(replies: seq<nat>, len: nat): (n: nat)
    ensures n <= len
    ensures n == 0 <==> replies == [] || replies[0] == 0 || len == 0
    ensures replies != [] && replies[0] >= len ==> n == len
  {
    if replies == [] then 0 else if replies[0] < len then replies[0] else len
  }

  /** pySerial's write: the driver accepts a prefix of `data` and that prefix
      goes out on the wire. */
  function Transmit(ch: Channel, data: seq<bv8>): (r: (nat, Channel))
    ensures r.0 == Accepts(ch.replies, |data|)
    ensures r.1.wire == ch.wire + data[..r.0] && r.1.log == ch.log + [Wrote(r.0)]
    ensures r.1.input == ch.input && r.1.rts == ch.rts && r.1.cts == ch.cts && r.1.clock == ch.clock
  {
    var n := Accepts(ch.replies, |data|);
    (n, ch.(replies := Drop(ch.replies, 1), log := ch.log + [Wrote(n)], wire := ch.wire + data[..n]))
  }

  /** pySerial's read(size = n): with no timeout it waits for all n bytes.
      With a timeout and fewer than n bytes still to come, it returns all
      the bytes that will ever come, after waiting the timeout out; bytes
      carry no arrival time, so a timeout never cuts a read short while
      bytes are still coming. */
  function Receive(ch: Channel, n: nat, timeout: Option<nat>): (s: Step<seq<bv8>>)
    ensures s.result.Err? <==> timeout.None? && |ch.input| < n
    ensures s.result.Err? ==> s.result.error == Blocked && s.after == ch
    ensures s.result.Ok? ==> ch.input == s.result.value + s.after.input
    ensures s.result.Ok? ==> |s.result.value| <= n
    ensures s.result.Ok? ==> (|s.result.value| == n <==> |ch.input| >= n)
    ensures s.after.log == ch.log && s.after.wire == ch.wire && s.after.rts == ch.rts && s.after.cts == ch.cts
  {
    if |ch.input| >= n then
      Step(Ok(ch.input[..n]), ch.(input := ch.input[n..], clock := ch.clock + n))
    else if timeout.None? then
      Step(Err(Blocked), ch)
    else
      Step(Ok(ch.input), ch.(input := [], clock := ch.clock + |ch.input| + timeout.value))
  }

  /** Python's `line[-len(p):] == p`: the test read_until makes after each byte. */
  predicate EndsWith(line: seq<bv8>, p: seq<bv8>)
  {
    if |p| == 0 then |line| == 0 else |p| <= |line| && line[|line| - |p|..] == p
  }

  /** Where read_until stops reading: the terminator was seen, or `size`
      bytes were read. */
  predicate Stops(line: seq<bv8>, p: seq<bv8>, size: Option<nat>)
  {
    EndsWith(line, p) || (size.Some? && |line| >= size.value)
  }

  /** The length of the shortest prefix of buf[..] longer than k at which
      read_until stops, if there is one. */
  function StopFrom(buf: seq<bv8>, p: seq<bv8>, size: Option<nat>, k: nat): (r: Option<nat>)
    requires k <= |buf|
    decreases |buf| - k
    ensures r.Some? ==> k < r.value <= |buf| && Stops(buf[..r.value], p, size)
    ensures r.Some? ==> forall j :: k < j < r.value ==> !Stops(buf[..j], p, size)
    ensures r.None? ==> forall j :: k < j <= |buf| ==> !Stops(buf[..j], p, size)
  {
    if k == |buf| then None
    else if Stops(buf[..k + 1], p, size) then Some(k + 1)
    else StopFrom(buf, p, size, k + 1)
  }

  function StopPoint(buf: seq<bv8>, p: seq<bv8>, size: Option<nat>): (r: Option<nat>)
    ensures r.Some? ==> 0 < r.value <= |buf| && Stops(buf[..r.value], p, size)
    ensures r.Some? ==> forall j :: 0 < j < r.value ==> !Stops(buf[..j], p, size)
    ensures r.None? ==> forall j :: 0 < j <= |buf| ==> !Stops(buf[..j], p, size)
  {
    StopFrom(buf, p, size, 0)
  }

  /** pySerial's read_until(p, size): bytes up to and including the first
      occurrence of p (or the first `size` bytes). With no timeout a missing
      terminator blocks forever; with a timeout all the bytes that will ever
      come are returned once the timeout has passed. */
  function ReceiveUntil(ch: Channel, p: seq<bv8>, timeout: Option<nat>, size: Option<nat>): (s: Step<seq<bv8>>)
    ensures s.result.Err? <==> timeout.None? && StopPoint(ch.input, p, size).None?
    ensures s.result.Err? ==> s.result.error == Blocked && s.after == ch
    ensures s.result.Ok? ==> ch.input == s.result.value + s.after.input
    ensures s.result.Ok? && timeout.None? ==> |s.result.value| > 0
    ensures StopPoint(ch.input, p, size).Some? ==>
      s.result.Ok? && |s.result.value| == StopPoint(ch.input, p, size).value
    ensures StopPoint(ch.input, p, size).None? && timeout.Some? ==> s.result == Ok(ch.input) && s.after.input == []
    ensures s.after.log == ch.log && s.after.wire == ch.wire && s.after.rts == ch.rts && s.after.cts == ch.cts
    ensures s.after.clock >= ch.clock
  {
    var stop := StopPoint(ch.input, p, size);
    if stop.Some? then
      var k := stop.value;
      assert ch.input == ch.input[..k] + ch.input[k..];
      Step(Ok(ch.input[..k]), ch.(input := ch.input[k..], clock := ch.clock + k))
    else if timeout.None? then Step(Err(Blocked), ch)
    else Step(Ok(ch.input), ch.(input := [], clock := ch.clock + |ch.input| + timeout.value))
  }

  /** The position of the first b in s, or |s| if there is none. */
  function IndexOf(s: seq<bv8>, b: bv8): (i: nat)
    ensures i <= |s|
    ensures i < |s| ==> s[i] == b
    ensures forall j :: 0 <= j < i ==> s[j] != b
  {
    if s == [] || s[0] == b then 0 else 1 + IndexOf(s[1..], b)
  }

  lemma {:induction false} StopsAtByte(buf: seq<bv8>, d: bv8, j: nat)
    requires 0 < j <= |buf|
    ensures Stops(buf[..j], [d], None) <==> buf[j - 1] == d
  {
    assert buf[..j][j - 1..] == [buf[j - 1]];
  }

  /** With a one-byte terminator and no size limit, read_until stops just
      after the first occurrence of that byte, and only if there is one. */
  lemma {:induction false} UntilByte(buf: seq<bv8>, d: bv8)
    ensures StopPoint(buf, [d], None) ==
      if IndexOf(buf, d) < |buf| then Some(IndexOf(buf, d) + 1) else None
  {
    var i := IndexOf(buf, d);
    var r := StopPoint(buf, [d], None);
    if r.None? {
      if i < |buf| {
        StopsAtByte(buf, d, i + 1);
      }
    } else {
      var k := r.value;
      StopsAtByte(buf, d, k);
      if i + 1 < k {
        StopsAtByte(buf, d, i + 1);
      }
    }
  }
}
