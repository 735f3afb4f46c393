/**
 The poll-decode-print cycle. The descriptor list is built once, in
 declaration order; on every timer tick each descriptor in turn is read as two
 input registers, decoded, and reported as one line. The first failing read,
 and the first response too short to decode, aborts the whole program: no
 further line is printed and no further tick runs.

 The Modbus client is a parameter `read`, an oracle that may fail. It is told
 the tick and the position of the read within the tick, so a scripted device
 can answer each call differently. The float conversion of a bit pattern and
 its default text rendering are the parameter `fmt`.
 */
module PollLoop {
  import opened Results
  import opened MachineInts
  import opened InputRegisters
  import opened RegisterCodec

  /** One `read_input_registers` call: which tick, which position in it, where and how many. */
  datatype ReadRequest = ReadRequest(tick: nat, slot: nat, address: u16, count: nat)

  /** The Modbus client: a word sequence, or the error message of a failed read. */
  type Transport = ReadRequest -> Result<seq<u16>, string>

  /** Bit pattern to text: `f32::from_be_bytes` followed by the default `Display` of `f32`. */
  type Formatter = u32 -> string

  /** Why the program aborts: an error from the client, or a response too short to slice. */
  datatype Fault =
    | ReadFailed(slot: nat, message: string)
    | SliceOutOfRange(slot: nat, byteCount: nat)

  /** What happened: the reads issued and the lines printed, in order, and the abort, if any. */
  datatype Trace = Trace(requests: seq<ReadRequest>, lines: seq<string>, fault: Option<Fault>)

  /**
   The descriptor list built before the loop starts: one descriptor per
   kind, at the kind's position in declaration order. Its spans are strictly
   increasing and pairwise disjoint.
   */
  function Catalog(): (c: seq<InputRegisterValue>)
    ensures |c| == KindCount
    ensures forall k :: c[Ordinal(k)] == GenerateInputRegister(k)
    ensures forall i, j :: 0 <= i < j < |c| ==> SpanBefore(c[i].address, c[j].address)
  {
    var kinds := AllKinds();
    var c := seq(|kinds|, i requires 0 <= i < |kinds| => GenerateInputRegister(kinds[i]));
    assert forall i, j :: 0 <= i < j < |c| ==> SpanBefore(c[i].address, c[j].address) by {
      forall i, j | 0 <= i < j < |c|
        ensures SpanBefore(c[i].address, c[j].address)
      {
        AddressesIncreasing(kinds[i], kinds[j]);
      }
    }
    c
  }

  /** The request for descriptor `d` at position `slot` of tick `tick`: always two registers at its address. */
  function RequestFor(d: InputRegisterValue, tick: nat, slot: nat): (q: ReadRequest)
    ensures q.address == d.address && q.count == RegistersPerValue
    ensures q.tick == tick && q.slot == slot
  {
    ReadRequest(tick, slot, d.address, RegistersPerValue)
  }

  /**
   One read and decode. It succeeds exactly when the client answers with at
   least two words, and then yields the pattern `high * 65536 + low` of the
   first two.
   */
  function ReadValue(d: InputRegisterValue, tick: nat, slot: nat, read: Transport): (r: Result<u32, Fault>)
    ensures var rsp := read(RequestFor(d, tick, slot));
      && (r.Ok? <==> rsp.Ok? && |rsp.value| >= 2)
      && (r.Ok? ==> r.value == rsp.value[0] * WordRange + rsp.value[1])
      && (rsp.Err? ==> r == Err(ReadFailed(slot, rsp.error)))
      && (rsp.Ok? && |rsp.value| < 2 ==> r == Err(SliceOutOfRange(slot, 2 * |rsp.value|)))
  {
    match read(RequestFor(d, tick, slot))
    case Err(e) => Err(ReadFailed(slot, e))
    case Ok(ws) =>
      match DecodeResponse(ws)
      case None => Err(SliceOutOfRange(slot, |FlattenWords(ws)|))
      case Some(bits) => Ok(bits)
  }

  /** The printed line `"<name> is <value><unit> "`; `println!` then ends it. */
  function FormatLine(d: InputRegisterValue, value: string): (line: string)
    ensures |line| == |d.name| + |" is "| + |value| + |d.unitSymbol| + 1
    ensures line[..|d.name|] == d.name
    ensures line[|d.name|..|d.name| + 4] == " is "
    ensures line[|d.name| + 4..|d.name| + 4 + |value|] == value
    ensures line[|line| - 1 - |d.unitSymbol|..] == d.unitSymbol + " "
  {
    d.name + " is " + value + d.unitSymbol + " "
  }

  /** Within one descriptor's lines, the line determines the rendered value. */
  lemma FormatLineInjective(d: InputRegisterValue, v1: string, v2: string)
    requires FormatLine(d, v1) == FormatLine(d, v2)
    ensures v1 == v2
  {
    var n := |d.name| + 4;
    assert |v1| == |v2|;
    assert v1 == FormatLine(d, v1)[n..n + |v1|];
  }

  /** The example line for 12.5 A on phase 1. */
  lemma FormatLineExample()
    ensures FormatLine(GenerateInputRegister(Phase1Current), "12.5") == "Phase 1 current is 12.5A "
  {
  }

  /** Reading, decoding and formatting the descriptor `d` at position `slot`: its line, or the abort. */
  function Handle(d: InputRegisterValue, tick: nat, slot: nat, read: Transport, fmt: Formatter): (r: Result<string, Fault>)
    ensures r.Ok? <==> ReadValue(d, tick, slot, read).Ok?
    ensures r.Ok? ==> r.value == FormatLine(d, fmt(ReadValue(d, tick, slot, read).value))
    ensures r.Err? ==> r.error == ReadValue(d, tick, slot, read).error
  {
    match ReadValue(d, tick, slot, read)
    case Err(f) => Err(f)
    case Ok(bits) => Ok(FormatLine(d, fmt(bits)))
  }

  /** The per-descriptor work of tick `tick`, as a function of descriptor and position. */
  function Handler(tick: nat, read: Transport, fmt: Formatter): (InputRegisterValue, nat) -> Result<string, Fault>
  {
    (d: InputRegisterValue, slot: nat) => Handle(d, tick, slot, read, fmt)
  }

  /** Prefixes already-issued reads and printed lines to a trace. */
  function Prepend(requests: seq<ReadRequest>, lines: seq<string>, t: Trace): Trace
  {
    Trace(requests + t.requests, lines + t.lines, t.fault)
  }

  /**
   The rest of one tick, from position `slot` of `registers` on, with
   `handle` doing the work for one descriptor. Reads go out in order, one
   per descriptor, and a line is printed after each successful one. The
   first failure ends the tick with that failure: it is the read after the
   last printed line, and every earlier read succeeded.
   */
  function RunFrom(registers: seq<InputRegisterValue>, tick: nat, slot: nat,
                   handle: (InputRegisterValue, nat) -> Result<string, Fault>): (t: Trace)
    requires slot <= |registers|
    ensures |t.lines| <= |registers| - slot
    ensures |t.requests| == |t.lines| + (if t.fault.Some? then 1 else 0)
    ensures t.fault.Some? ==> slot + |t.lines| < |registers|
    ensures forall j :: 0 <= j < |t.requests| ==> t.requests[j] == RequestFor(registers[slot + j], tick, slot + j)
    ensures forall j :: 0 <= j < |t.lines| ==> handle(registers[slot + j], slot + j) == Ok(t.lines[j])
    ensures t.fault.None? ==> |t.lines| == |registers| - slot
    ensures t.fault.Some? ==> handle(registers[slot + |t.lines|], slot + |t.lines|) == Err(t.fault.value)
    decreases |registers| - slot
  {
    if slot == |registers| then Trace([], [], None)
    else
      var q := RequestFor(registers[slot], tick, slot);
      match handle(registers[slot], slot)
      case Err(f) => Trace([q], [], Some(f))
      case Ok(line) =>
        var rest := RunFrom(registers, tick, slot + 1, handle);
        Trace([q] + rest.requests, [line] + rest.lines, rest.fault)
  }

  /**
   One whole tick over the descriptor list: at most one line per
   descriptor, one read per line plus the failing one, and every descriptor
   printed when nothing failed.
   */
  function RunTick(registers: seq<InputRegisterValue>, tick: nat, read: Transport, fmt: Formatter): (t: Trace)
    ensures |t.lines| <= |registers|
    ensures |t.requests| == |t.lines| + (if t.fault.Some? then 1 else 0)
    ensures t.fault.None? ==> |t.lines| == |registers|
  {
    RunFrom(registers, tick, 0, Handler(tick, read, fmt))
  }

  /**
   One tick, stated without the handler: the reads go out in catalog order,
   two registers each at the descriptor's address; line `j` is what reading
   descriptor `j` prints; and the tick either prints a line for every
   descriptor or stops at the first failing read, which is the one after the
   last printed line.
   */
  lemma TickTrace(registers: seq<InputRegisterValue>, tick: nat, read: Transport, fmt: Formatter)
    ensures var t := RunTick(registers, tick, read, fmt);
      && |t.lines| <= |registers|
      && |t.requests| == |t.lines| + (if t.fault.Some? then 1 else 0)
      && (forall j :: 0 <= j < |t.requests| ==> j < |registers| && t.requests[j] == RequestFor(registers[j], tick, j))
      && (forall j :: 0 <= j < |t.lines| ==> Handle(registers[j], tick, j, read, fmt) == Ok(t.lines[j]))
      && (t.fault.None? ==> |t.lines| == |registers|)
      && (t.fault.Some? ==>
            |t.lines| < |registers| && Handle(registers[|t.lines|], tick, |t.lines|, read, fmt) == Err(t.fault.value))
  {
    var handle := Handler(tick, read, fmt);
    var t := RunFrom(registers, tick, 0, handle);
    forall j | 0 <= j < |t.requests|
      ensures j < |registers| && t.requests[j] == RequestFor(registers[j], tick, j)
    {
      assert t.requests[j] == RequestFor(registers[0 + j], tick, 0 + j);
    }
    forall j | 0 <= j < |t.lines|
      ensures Handle(registers[j], tick, j, read, fmt) == Ok(t.lines[j])
    {
      assert handle(registers[0 + j], 0 + j) == Ok(t.lines[j]);
    }
    if t.fault.Some? {
      var k := |t.lines|;
      assert handle(registers[0 + k], 0 + k) == Err(t.fault.value);
    }
  }

  /** A tick completes without aborting exactly when every one of its reads decodes. */
  lemma TickCompletesIff(registers: seq<InputRegisterValue>, tick: nat, read: Transport, fmt: Formatter)
    ensures RunTick(registers, tick, read, fmt).fault.None? <==>
      forall i :: 0 <= i < |registers| ==> ReadValue(registers[i], tick, i, read).Ok?
  {
    TickTrace(registers, tick, read, fmt);
    var t := RunTick(registers, tick, read, fmt);
    if t.fault.None? {
      forall i | 0 <= i < |registers|
        ensures ReadValue(registers[i], tick, i, read).Ok?
      {
        assert Handle(registers[i], tick, i, read, fmt) == Ok(t.lines[i]);
      }
    }
  }

  /**
   When every read of a tick answers at least two registers, the tick prints
   one line per descriptor, in order, each showing the pattern its first two
   registers encode.
   */
  lemma AllReadsSucceed(registers: seq<InputRegisterValue>, tick: nat, read: Transport, fmt: Formatter)
    requires forall i :: 0 <= i < |registers| ==>
      var rsp := read(RequestFor(registers[i], tick, i));
      rsp.Ok? && |rsp.value| >= 2
    ensures var t := RunTick(registers, tick, read, fmt);
      && t.fault.None?
      && |t.lines| == |t.requests| == |registers|
      && forall i :: 0 <= i < |registers| ==>
        var ws := read(RequestFor(registers[i], tick, i)).value;
        t.lines[i] == FormatLine(registers[i], fmt(ws[0] * WordRange + ws[1]))
  {
    TickTrace(registers, tick, read, fmt);
    TickCompletesIff(registers, tick, read, fmt);
    var t := RunTick(registers, tick, read, fmt);
    forall i | 0 <= i < |registers|
      ensures var ws := read(RequestFor(registers[i], tick, i)).value;
        t.lines[i] == FormatLine(registers[i], fmt(ws[0] * WordRange + ws[1]))
    {
      assert Handle(registers[i], tick, i, read, fmt) == Ok(t.lines[i]);
    }
  }

  /**
   Abort on the first failure: if reads before position `k` succeed and the
   read at `k` fails, the tick prints exactly `k` lines, issues `k + 1`
   reads and aborts with that read's fault; nothing after `k` is read.
   */
  lemma FirstFailureAborts(registers: seq<InputRegisterValue>, tick: nat, read: Transport, fmt: Formatter, k: nat)
    requires k < |registers|
    requires forall i :: 0 <= i < k ==> ReadValue(registers[i], tick, i, read).Ok?
    requires ReadValue(registers[k], tick, k, read).Err?
    ensures var t := RunTick(registers, tick, read, fmt);
      && |t.lines| == k
      && |t.requests| == k + 1
      && t.fault == Some(ReadValue(registers[k], tick, k, read).error)
  {
    TickTrace(registers, tick, read, fmt);
  }

  /**
   The body of the inner loop as the program writes it: issue the read,
   flatten the words into bytes, reassemble the first four, format the line.
   A failed read or a short response is the abort.
   */
  method PollOne(reg: InputRegisterValue, tick: nat, slot: nat, read: Transport, fmt: Formatter)
    returns (q: ReadRequest, r: Result<string, Fault>)
    ensures q == RequestFor(reg, tick, slot)
    ensures r == Handle(reg, tick, slot, read, fmt)
  {
    q := ReadRequest(tick, slot, reg.address, RegistersPerValue);
    var rsp := read(q);
    if rsp.Err? {
      return q, Err(ReadFailed(slot, rsp.error));
    }
    var bytes := FlattenWords(rsp.value);
    if |bytes| < PatternBytes {
      return q, Err(SliceOutOfRange(slot, |bytes|));
    }
    var value := BeBytesToPattern(bytes[..PatternBytes]);
    r := Ok(FormatLine(reg, fmt(value)));
  }

  /**
   One pass of the inner loop, relating the program's accumulated reads and
   lines to the fold: after handling the descriptor at `slot`, the whole
   tick is either the accumulated output followed by the abort, or the
   accumulated output grown by one read and one line followed by the rest
   of the tick.
   */
  lemma LoopStep(registers: seq<InputRegisterValue>, tick: nat, slot: nat,
                 handle: (InputRegisterValue, nat) -> Result<string, Fault>,
                 requests: seq<ReadRequest>, lines: seq<string>, whole: Trace)
    requires slot < |registers|
    requires whole == Prepend(requests, lines, RunFrom(registers, tick, slot, handle))
    ensures var q := RequestFor(registers[slot], tick, slot);
      var r := handle(registers[slot], slot);
      && (r.Err? ==> whole == Trace(requests + [q], lines, Some(r.error)))
      && (r.Ok? ==> whole == Prepend(requests + [q], lines + [r.value], RunFrom(registers, tick, slot + 1, handle)))
  {
    var q := RequestFor(registers[slot], tick, slot);
    var r := handle(registers[slot], slot);
    if r.Ok? {
      var rest := RunFrom(registers, tick, slot + 1, handle);
      assert requests + ([q] + rest.requests) == (requests + [q]) + rest.requests;
      assert lines + ([r.value] + rest.lines) == (lines + [r.value]) + rest.lines;
    }
  }

  /**
   The inner loop of one tick as the program writes it, stopping at the
   first failure. It produces exactly the trace of `RunTick`.
   */
  method PollTick(registers: seq<InputRegisterValue>, tick: nat, read: Transport, fmt: Formatter) returns (t: Trace)
    ensures t == RunTick(registers, tick, read, fmt)
  {
    var handle := Handler(tick, read, fmt);
    ghost var whole := RunFrom(registers, tick, 0, handle);
    var requests: seq<ReadRequest> := [];
    var lines: seq<string> := [];
    var slot := 0;
    assert requests + whole.requests == whole.requests;
    assert lines + whole.lines == whole.lines;
    while slot < |registers|
      invariant slot <= |registers|
      invariant whole == Prepend(requests, lines, RunFrom(registers, tick, slot, handle))
      decreases |registers| - slot
    {
      var q, r := PollOne(registers[slot], tick, slot, read, fmt);
      LoopStep(registers, tick, slot, handle, requests, lines, whole);
      requests := requests + [q];
      if r.Err? {
        return Trace(requests, lines, Some(r.error));
      }
      lines := lines + [r.value];
      slot := slot + 1;
    }
    t := Trace(requests, lines, None);
  }

  /**
   The first `n` ticks of the endless loop, given the trace each tick would
   produce on its own. A fault ends the program, so once a tick aborts,
   later ticks add nothing.
   */
  function RunTicks(n: nat, ticks: nat -> Trace): (t: Trace)
    ensures t.fault.Some? ==> n > 0
    decreases n
  {
    if n == 0 then Trace([], [], None)
    else
      var before := RunTicks(n - 1, ticks);
      if before.fault.Some? then before
      else Prepend(before.requests, before.lines, ticks(n - 1))
  }

  /** The program after `n` ticks of polling `registers`: it has aborted exactly when one of its ticks did. */
  function Run(registers: seq<InputRegisterValue>, n: nat, read: Transport, fmt: Formatter): (t: Trace)
    ensures t.fault.Some? <==> exists i :: 0 <= i < n && RunTick(registers, i, read, fmt).fault.Some?
  {
    var ticks := (tick: nat) => RunTick(registers, tick, read, fmt);
    RunAbortsIff(n, ticks);
    assert forall i: nat :: ticks(i) == RunTick(registers, i, read, fmt);
    RunTicks(n, ticks)
  }

  /** A run aborts exactly when one of its ticks aborts on its own. */
  lemma {:induction false} RunAbortsIff(n: nat, ticks: nat -> Trace)
    ensures RunTicks(n, ticks).fault.Some? <==> exists i :: 0 <= i < n && ticks(i).fault.Some?
  {
    if n > 0 {
      RunAbortsIff(n - 1, ticks);
    }
  }

  /**
   The run's fault is the fault of the first tick that aborts, and the run
   ends with that tick: any longer run is the run up to and including it.
   */
  lemma {:induction false} FirstAbortingTick(n: nat, k: nat, ticks: nat -> Trace)
    requires k < n
    requires forall i :: 0 <= i < k ==> ticks(i).fault.None?
    requires ticks(k).fault.Some?
    ensures RunTicks(n, ticks).fault == ticks(k).fault
    ensures RunTicks(n, ticks) == RunTicks(k + 1, ticks)
  {
    RunAbortsIff(k, ticks);
    AbortIsFinal(k + 1, n, ticks);
  }

  /** The program keeps running through `n` ticks exactly when every read of every one of them decodes. */
  lemma RunCompletesIff(registers: seq<InputRegisterValue>, n: nat, read: Transport, fmt: Formatter)
    ensures Run(registers, n, read, fmt).fault.None? <==>
      forall i, s :: 0 <= i < n && 0 <= s < |registers| ==> ReadValue(registers[s], i, s, read).Ok?
  {
    if Run(registers, n, read, fmt).fault.None? {
      forall i, s | 0 <= i < n && 0 <= s < |registers|
        ensures ReadValue(registers[s], i, s, read).Ok?
      {
        TickCompletesIff(registers, i, read, fmt);
      }
    } else {
      var i :| 0 <= i < n && RunTick(registers, i, read, fmt).fault.Some?;
      TickCompletesIff(registers, i, read, fmt);
    }
  }

  /** Once the program has aborted, running longer changes nothing. */
  lemma {:induction false} AbortIsFinal(n: nat, m: nat, ticks: nat -> Trace)
    requires n <= m
    requires RunTicks(n, ticks).fault.Some?
    ensures RunTicks(m, ticks) == RunTicks(n, ticks)
    decreases m - n
  {
    if n < m {
      AbortIsFinal(n, m - 1, ticks);
    }
  }

  /** Output only grows: the reads and lines of `n` ticks begin those of any longer run. */
  lemma {:induction false} OutputGrows(n: nat, m: nat, ticks: nat -> Trace)
    requires n <= m
    ensures RunTicks(n, ticks).lines <= RunTicks(m, ticks).lines
    ensures RunTicks(n, ticks).requests <= RunTicks(m, ticks).requests
    decreases m - n
  {
    if n < m {
      OutputGrows(n, m - 1, ticks);
      var before := RunTicks(m - 1, ticks);
      if before.fault.None? {
        assert before.lines <= before.lines + ticks(m - 1).lines;
        assert before.requests <= before.requests + ticks(m - 1).requests;
      }
    }
  }

  /** Without a fault, `n` ticks of `c` lines each print `n * c` lines. */
  lemma {:induction false} LineCount(n: nat, ticks: nat -> Trace, c: nat)
    requires forall t :: 0 <= t < n ==> ticks(t).fault.None? && |ticks(t).lines| == c
    ensures RunTicks(n, ticks).fault.None?
    ensures |RunTicks(n, ticks).lines| == n * c
  {
    if n > 0 {
      LineCount(n - 1, ticks, c);
      assert (n - 1) * c + c == n * c;
    }
  }

  /**
   End to end over the device's catalog `c`: when every read answers two
   registers, one tick issues 26 reads and prints 26 lines, line `i` showing
   the descriptor at catalog position `i` (the kind declared at position
   `i`, by the contract of `Catalog`) with the value its two registers
   encode.
   */
  lemma FullTick(c: seq<InputRegisterValue>, tick: nat, read: Transport, fmt: Formatter)
    requires c == Catalog()
    requires forall i :: 0 <= i < |c| ==>
      var rsp := read(RequestFor(c[i], tick, i));
      rsp.Ok? && |rsp.value| == 2
    ensures |c| == KindCount
    ensures var t := RunTick(c, tick, read, fmt);
      && t.fault.None?
      && |t.lines| == |t.requests| == KindCount
      && forall i :: 0 <= i < |c| ==>
        var ws := read(RequestFor(c[i], tick, i)).value;
        t.lines[i] == FormatLine(c[i], fmt(ws[0] * WordRange + ws[1]))
  {
    AllReadsSucceed(c, tick, read, fmt);
  }

  /**
   The fault scenario: if the fifth read of a tick fails and the four before
   it succeed, exactly four lines are printed, five reads go out, and the
   tick aborts with the client's error.
   */
  lemma FifthReadFails(tick: nat, read: Transport, fmt: Formatter, message: string)
    requires forall i :: 0 <= i < 4 ==>
      var rsp := read(RequestFor(Catalog()[i], tick, i));
      rsp.Ok? && |rsp.value| == 2
    requires read(RequestFor(Catalog()[4], tick, 4)) == Err(message)
    ensures var t := RunTick(Catalog(), tick, read, fmt);
      && |t.lines| == 4
      && |t.requests| == 5
      && t.fault == Some(ReadFailed(4, message))
  {
    FirstFailureAborts(Catalog(), tick, read, fmt, 4);
  }

  /**
   The fault scenario over the whole program, polling the catalog `c`: if
   the fifth read of the first tick fails after four good ones, the program
   prints four lines, issues five reads and ends with that error, however
   many ticks it is given.
   */
  lemma RunFifthReadFails(c: seq<InputRegisterValue>, n: nat, read: Transport, fmt: Formatter, message: string)
    requires c == Catalog()
    requires n >= 1
    requires forall i :: 0 <= i < 4 ==>
      var rsp := read(RequestFor(c[i], 0, i));
      rsp.Ok? && |rsp.value| == 2
    requires read(RequestFor(c[4], 0, 4)) == Err(message)
    ensures var t := Run(c, n, read, fmt);
      && |t.lines| == 4
      && |t.requests| == 5
      && t.fault == Some(ReadFailed(4, message))
  {
    var ticks := (tick: nat) => RunTick(c, tick, read, fmt);
    FifthReadFails(0, read, fmt, message);
    FirstAbortingTick(n, 0, ticks);
  }
}
