/** The incremental reader of the server's control stream as it is written, as a
    function of the saved parser state and one receive event, and the exact set of
    segmentations on which it agrees with the one-shot parse. */
module Deframer {
  import opened Bytes
  import opened Framing

  /** A receive buffer, and whether the one `malloc` the callback may need while
      scanning it succeeds. */
  datatype Buffer = Buffer(data: Chunk, mallocSucceeds: bool)

  datatype Mode =
    | NoPartialData
    | PartialSize(got: Chunk)
    | PartialMessage(length: nat, got: Chunk)

  datatype Parser = Parser(skip: nat, mode: Mode)

  const INITIAL := Parser(0, NoPartialData)

  /** How the callback leaves a buffer: on to the next one, out of the callback with the
      later buffers of the event dropped, or having read past the end of the buffer. */
  datatype Flow = NextBuffer | Return | Overread

  datatype Outcome = Outcome(parser: Parser, out: seq<Chunk>, flow: Flow)
  {
    function After(earlier: seq<Chunk>): Outcome {
      this.(out := earlier + out)
    }
  }

  function SizeAt(s: Chunk): nat
    requires |s| >= SIZE_BYTES
  {
    Decode(s[..SIZE_BYTES])
  }

  /** The callback's test on `TotalBufferLength - i` (server.cpp, both uses). */
  predicate StillShort(record: Chunk, available: int) {
    if |record| < SIZE_BYTES then available < SIZE_BYTES
    else available - SIZE_BYTES < SizeAt(record)
  }

  /** The inner `while` loop, from index `i` of the buffer. */
  function Scan(b: Buffer, i: nat, total: nat): Outcome
    decreases |b.data| - i
  {
    var left := |b.data| - i;
    if left <= 0 then Outcome(INITIAL, [], NextBuffer)
    else
      var record := b.data[i..];
      var flow := if StillShort(record, total - i) then Return else NextBuffer;
      if left < SIZE_BYTES then
        Outcome(Parser(0, PartialSize(record)), [], flow)
      else
        var size := SizeAt(record);
        if left - SIZE_BYTES < size then
          var mode := if b.mallocSucceeds then PartialMessage(size, record[SIZE_BYTES..]) else NoPartialData;
          var skip := if b.mallocSucceeds then 0 else size - (left - SIZE_BYTES);
          Outcome(Parser(skip, mode), [], flow)
        else
          var next := i + SIZE_BYTES + size;
          Scan(b, next, total).After([b.data[i + SIZE_BYTES..next]])
  }

  /** One buffer: first the partial record left by earlier receives, then the loop. */
  function ReceiveBuffer(p: Parser, b: Buffer, total: nat): Outcome {
    match p.mode
    case NoPartialData => Scan(b, p.skip, total)
    case PartialSize(got) =>
      if |b.data| < SIZE_BYTES - |got| then
        Outcome(Parser(0, PartialSize(got + b.data)), [], Return)
      else
        var i := if |got| < SIZE_BYTES then SIZE_BYTES - |got| else 0;
        var size := Decode(got + b.data[..i]);
        // AddFileToList is handed `size` bytes of this buffer without a check.
        if |b.data| - i < size then Outcome(INITIAL, [], Overread)
        else Scan(b, i + size, total).After([b.data[i..i + size]])
    case PartialMessage(length, got) =>
      if |b.data| < length - |got| then
        Outcome(Parser(0, PartialMessage(length, got + b.data)), [], Return)
      else
        var i := if |got| < length then length - |got| else 0;
        Scan(b, i, total).After([got + b.data[..i]])
  }

  function ReceiveEvent(p: Parser, event: seq<Buffer>, total: nat): Outcome
    decreases |event|
  {
    if event == [] then Outcome(p, [], NextBuffer)
    else
      var first := ReceiveBuffer(p, event[0], total);
      if first.flow != NextBuffer then first
      else ReceiveEvent(first.parser, event[1..], total).After(first.out)
  }

  /** What is left to do once `o` has been reached. */
  function Continue(o: Outcome, event: seq<Buffer>, total: nat): Outcome {
    if o.flow == NextBuffer then ReceiveEvent(o.parser, event, total).After(o.out) else o
  }

  lemma ContinueStart(p: Parser, event: seq<Buffer>, total: nat)
    ensures ReceiveEvent(p, event, total) == Continue(Outcome(p, [], NextBuffer), event[0..], total)
  {
    assert event[0..] == event;
  }

  lemma ContinueDone(o: Outcome, event: seq<Buffer>, total: nat)
    requires event == [] || o.flow != NextBuffer
    ensures Continue(o, event, total) == o
  {
  }

  lemma ContinueStep(o: Outcome, event: seq<Buffer>, k: nat, total: nat)
    requires o.flow == NextBuffer && k < |event|
    ensures Continue(o, event[k..], total) ==
            Continue(ReceiveBuffer(o.parser, event[k], total).After(o.out), event[k + 1..], total)
  {
    var first := ReceiveBuffer(o.parser, event[k], total);
    var tail := ReceiveEvent(first.parser, event[k + 1..], total);
    assert event[k..][1..] == event[k + 1..];
    assert tail.After(first.out).After(o.out) == tail.After(o.out + first.out);
  }

  lemma ScanStep(b: Buffer, i: nat, size: nat, total: nat, out: seq<Chunk>)
    requires i + SIZE_BYTES + size <= |b.data| && size == SizeAt(b.data[i..])
    ensures var next := i + SIZE_BYTES + size;
            Scan(b, i, total).After(out) == Scan(b, next, total).After(out + [b.data[next - size..next]])
  {
    var next := i + SIZE_BYTES + size;
    var tail := Scan(b, next, total);
    assert tail.After([b.data[next - size..next]]).After(out) == tail.After(out + [b.data[next - size..next]]);
  }

  function DataOf(event: seq<Buffer>): Chunk {
    if event == [] then [] else event[0].data + DataOf(event[1..])
  }

  function StreamOf(events: seq<seq<Buffer>>): Chunk {
    if events == [] then [] else DataOf(events[0]) + StreamOf(events[1..])
  }

  /** The whole life of the stream. Reading past a buffer ends it. */
  function Run(p: Parser, events: seq<seq<Buffer>>): Outcome
    decreases |events|
  {
    if events == [] then Outcome(p, [], NextBuffer)
    else
      var first := ReceiveEvent(p, events[0], |DataOf(events[0])|);
      if first.flow == Overread then first
      else Run(first.parser, events[1..]).After(first.out)
  }

  // ---- The saved state that stands for an unread suffix ----

  function ModeFor(rest: Chunk): Mode {
    if rest == [] then NoPartialData
    else if |rest| < SIZE_BYTES then PartialSize(rest)
    else PartialMessage(SizeAt(rest), rest[SIZE_BYTES..])
  }

  function Holding(rest: Chunk): Parser {
    Parser(0, ModeFor(rest))
  }

  /** Agreement with the one-shot parse: same messages, and exactly the unread suffix saved. */
  predicate Faithful(o: Outcome, stream: Chunk) {
    && o.flow != Overread
    && o.out == Parse(stream).messages
    && o.parser == Holding(Parse(stream).rest)
  }

  // ---- The segmentations that lose nothing ----

  /** Whether the callback returns from inside this buffer: it does if the record that is
      left started before the buffer, or if the event is too short for that record when
      counted from the record's place in the buffer. */
  predicate Returns(rest: Chunk, b: Buffer, total: nat) {
    var held := Parse(rest + b.data).rest;
    var available := total - (|b.data| - |held|);
    if |held| > |b.data| then true
    else if |held| >= SIZE_BYTES then available < SIZE_BYTES + SizeAt(held)
    else held != [] && available < SIZE_BYTES
  }

  /** `rest` is the unread suffix before the event, `event` what is left of the event.
      A size prefix split by the cut must be completed by a buffer that also holds its
      whole payload; a record that starts in a buffer and does not end there needs its
      allocation; and the callback must not return while later buffers hold data. */
  predicate Intact(rest: Chunk, event: seq<Buffer>, total: nat)
    decreases |event|
  {
    event == [] ||
    var b := event[0];
    var held := Parse(rest + b.data).rest;
    && (0 < |rest| < SIZE_BYTES <= |rest| + |b.data| ==> !Incomplete(rest + b.data))
    && (SIZE_BYTES <= |held| <= |b.data| ==> b.mallocSucceeds)
    && if Returns(rest, b, total) then DataOf(event[1..]) == []
       else Intact(held, event[1..], total)
  }

  predicate RunIntact(rest: Chunk, events: seq<seq<Buffer>>)
    decreases |events|
  {
    events == [] ||
    (&& Intact(rest, events[0], |DataOf(events[0])|)
     && RunIntact(Parse(rest + DataOf(events[0])).rest, events[1..]))
  }

  // ---- Byte accounting: nothing is ever gained ----

  function Held(m: Mode): nat {
    match m
    case NoPartialData => 0
    case PartialSize(got) => |got|
    case PartialMessage(_, got) => SIZE_BYTES + |got|
  }

  /** Bytes a list of messages took on the wire. */
  function WireLength(ms: seq<Chunk>): nat {
    if ms == [] then 0 else SIZE_BYTES + |ms[0]| + WireLength(ms[1..])
  }

  function Kept(o: Outcome): nat {
    WireLength(o.out) + Held(o.parser.mode)
  }

  lemma {:induction false} WireLengthAppend(a: seq<Chunk>, b: seq<Chunk>)
    ensures WireLength(a + b) == WireLength(a) + WireLength(b)
  {
    if a == [] {
      assert a + b == b;
    } else {
      assert (a + b)[1..] == a[1..] + b;
      WireLengthAppend(a[1..], b);
    }
  }

  lemma KeptAfter(o: Outcome, earlier: seq<Chunk>)
    ensures Kept(o.After(earlier)) == WireLength(earlier) + Kept(o)
  {
    WireLengthAppend(earlier, o.out);
  }

  predicate Valid(p: Parser) {
    match p.mode
    case NoPartialData => true
    case PartialSize(got) => |got| < SIZE_BYTES
    case PartialMessage(length, got) => |got| < length
  }

  lemma {:induction false} ScanKeeps(b: Buffer, i: nat, total: nat)
    ensures Valid(Scan(b, i, total).parser)
    ensures Scan(b, i, total).flow != Overread
    ensures Kept(Scan(b, i, total)) <= if i < |b.data| then |b.data| - i else 0
    decreases |b.data| - i
  {
    var left := |b.data| - i;
    if left >= SIZE_BYTES && left - SIZE_BYTES >= SizeAt(b.data[i..]) {
      var next := i + SIZE_BYTES + SizeAt(b.data[i..]);
      ScanKeeps(b, next, total);
      KeptAfter(Scan(b, next, total), [b.data[i + SIZE_BYTES..next]]);
    }
  }

  lemma ResumedScanKeeps(b: Buffer, i: nat, total: nat, message: Chunk)
    requires i <= |b.data|
    ensures var o := Scan(b, i, total).After([message]);
            Valid(o.parser) && Kept(o) <= SIZE_BYTES + |message| + |b.data| - i
  {
    ScanKeeps(b, i, total);
    KeptAfter(Scan(b, i, total), [message]);
  }

  predicate BufferNoGain(p: Parser, b: Buffer, total: nat) {
    var o := ReceiveBuffer(p, b, total);
    o.flow != Overread ==> Valid(o.parser) && Kept(o) <= Held(p.mode) + |b.data|
  }

  lemma SplitSizeKeeps(p: Parser, b: Buffer, total: nat)
    requires Valid(p) && p.mode.PartialSize?
    ensures BufferNoGain(p, b, total)
  {
    var got := p.mode.got;
    if |b.data| >= SIZE_BYTES - |got| {
      var i := SIZE_BYTES - |got|;
      var size := Decode(got + b.data[..i]);
      if |b.data| - i >= size {
        ResumedScanKeeps(b, i + size, total, b.data[i..i + size]);
      }
    }
  }

  lemma SplitMessageKeeps(p: Parser, b: Buffer, total: nat)
    requires Valid(p) && p.mode.PartialMessage?
    ensures BufferNoGain(p, b, total)
  {
    var got := p.mode.got;
    var i := p.mode.length - |got|;
    if |b.data| >= i {
      ResumedScanKeeps(b, i, total, got + b.data[..i]);
    }
  }

  lemma BufferKeeps(p: Parser, b: Buffer, total: nat)
    requires Valid(p)
    ensures BufferNoGain(p, b, total)
  {
    match p.mode
    case NoPartialData => ScanKeeps(b, p.skip, total);
    case PartialSize(_) => SplitSizeKeeps(p, b, total);
    case PartialMessage(_, _) => SplitMessageKeeps(p, b, total);
  }

  lemma {:induction false} EventKeeps(p: Parser, event: seq<Buffer>, total: nat)
    requires Valid(p)
    ensures var o := ReceiveEvent(p, event, total);
            o.flow != Overread ==> Valid(o.parser) && Kept(o) <= Held(p.mode) + |DataOf(event)|
    decreases |event|
  {
    if event != [] {
      BufferKeeps(p, event[0], total);
      var first := ReceiveBuffer(p, event[0], total);
      if first.flow == NextBuffer {
        EventKeeps(first.parser, event[1..], total);
        KeptAfter(ReceiveEvent(first.parser, event[1..], total), first.out);
      }
    }
  }

  lemma {:induction false} RunKeeps(p: Parser, events: seq<seq<Buffer>>)
    requires Valid(p)
    ensures var o := Run(p, events);
            o.flow != Overread ==> Kept(o) <= Held(p.mode) + |StreamOf(events)|
    decreases |events|
  {
    if events != [] {
      EventKeeps(p, events[0], |DataOf(events[0])|);
      var first := ReceiveEvent(p, events[0], |DataOf(events[0])|);
      if first.flow != Overread {
        RunKeeps(first.parser, events[1..]);
        KeptAfter(Run(first.parser, events[1..]), first.out);
      }
    }
  }

  /** The one-shot parse keeps every byte, so keeping fewer is never faithful. */
  lemma {:induction false} ParseKeepsAll(stream: Chunk)
    ensures var q := Parse(stream);
            WireLength(q.messages) + Held(ModeFor(q.rest)) == |stream|
    decreases |stream|
  {
    if !Incomplete(stream) {
      var n := SIZE_BYTES + SizeAt(stream);
      ParseKeepsAll(stream[n..]);
      WireLengthAppend([stream[SIZE_BYTES..n]], Parse(stream[n..]).messages);
    }
  }

  lemma KeepingLessIsUnfaithful(o: Outcome, stream: Chunk)
    requires o.flow == Overread || Kept(o) < |stream|
    ensures !Faithful(o, stream)
  {
    ParseKeepsAll(stream);
  }

  // ---- Agreement on intact segmentations, loss on all others ----

  /** The loop from index `i`, against the parse of the bytes from there on. */
  predicate ScanAgrees(b: Buffer, i: nat, total: nat)
    requires i <= |b.data|
  {
    var o, q := Scan(b, i, total), Parse(b.data[i..]);
    && o.out == q.messages && o.flow != Overread
    && (o.flow == Return <==> q.rest != [] && StillShort(q.rest, total - (|b.data| - |q.rest|)))
    && if |q.rest| >= SIZE_BYTES && !b.mallocSucceeds then
         Kept(o) + SIZE_BYTES <= |b.data| - i && o.parser == Parser(Missing(q.rest), NoPartialData)
       else o.parser == Holding(q.rest)
  }

  /** How many bytes the record that starts `rest` still lacks. */
  function Missing(rest: Chunk): nat
    requires |rest| >= SIZE_BYTES && Incomplete(rest)
  {
    SIZE_BYTES + SizeAt(rest) - |rest|
  }

  lemma ScanOfIncomplete(b: Buffer, i: nat, total: nat)
    requires i <= |b.data| && Incomplete(b.data[i..])
    ensures ScanAgrees(b, i, total)
  {
    assert |b.data| - |b.data[i..]| == i;
  }

  lemma ScanOfRecord(b: Buffer, i: nat, n: nat, total: nat)
    requires i <= |b.data| && !Incomplete(b.data[i..]) && n == SIZE_BYTES + SizeAt(b.data[i..])
    ensures i + n <= |b.data|
    ensures var message := b.data[i + SIZE_BYTES..i + n];
            && Scan(b, i, total) == Scan(b, i + n, total).After([message])
            && Parse(b.data[i..]) == Then(Parsed([message], []), Parse(b.data[i + n..]))
  {
    CutTwice(b.data, i, SIZE_BYTES, n);
  }

  lemma {:induction false} ScanExact(b: Buffer, i: nat, total: nat)
    requires i <= |b.data|
    ensures ScanAgrees(b, i, total)
    decreases |b.data| - i
  {
    if Incomplete(b.data[i..]) {
      ScanOfIncomplete(b, i, total);
    } else {
      var n := SIZE_BYTES + SizeAt(b.data[i..]);
      ScanOfRecord(b, i, n, total);
      hide Scan, Parse, Incomplete, StillShort, SizeAt;
      ScanExact(b, i + n, total);
      assert Parse(b.data[i..]).rest == Parse(b.data[i + n..]).rest;
      KeptAfter(Scan(b, i + n, total), [b.data[i + SIZE_BYTES..i + n]]);
    }
  }

  /** The part of `Intact` that is about one buffer. */
  predicate BufferIntact(rest: Chunk, b: Buffer) {
    var held := Parse(rest + b.data).rest;
    && (0 < |rest| < SIZE_BYTES <= |rest| + |b.data| ==> !Incomplete(rest + b.data))
    && (SIZE_BYTES <= |held| <= |b.data| ==> b.mallocSucceeds)
  }

  /** What holds of one buffer, read from the state that stands for `rest`. */
  predicate BufferExact(rest: Chunk, b: Buffer, total: nat) {
    var o, q := ReceiveBuffer(Holding(rest), b, total), Parse(rest + b.data);
    if BufferIntact(rest, b) then
      && o.flow != Overread
      && o.out == q.messages && o.parser == Holding(q.rest)
      && (o.flow == Return <==> Returns(rest, b, total))
    else
      o.flow == Overread || Kept(o) < |rest| + |b.data|
  }

  /** A failed allocation loses its own record and no other, and leaves its missing bytes
      to be skipped. */
  predicate LossExact(rest: Chunk, b: Buffer, total: nat) {
    var o, q := ReceiveBuffer(Holding(rest), b, total), Parse(rest + b.data);
    SIZE_BYTES <= |q.rest| <= |b.data| && !b.mallocSucceeds
    && (0 < |rest| < SIZE_BYTES <= |rest| + |b.data| ==> !Incomplete(rest + b.data)) ==>
      && o.out == q.messages && o.parser == Parser(Missing(q.rest), NoPartialData)
      && (o.flow == Return <==> Returns(rest, b, total)) && o.flow != Overread
  }

  lemma FreshBuffer(b: Buffer, total: nat)
    ensures BufferExact([], b, total) && LossExact([], b, total)
  {
    assert [] + b.data == b.data == b.data[0..];
    ScanExact(b, 0, total);
  }

  /** The scan that follows a completed partial record. */
  lemma ResumedScan(rest: Chunk, b: Buffer, i: nat, size: nat, total: nat)
    requires rest != [] && i <= |b.data|
    requires |rest| + i == SIZE_BYTES + size
    requires SizeAt(rest + b.data) == size
    ensures var stream, scan := rest + b.data, Scan(b, i, total);
            var message, q := stream[SIZE_BYTES..SIZE_BYTES + size], Parse(stream);
            && message == (rest + b.data[..i])[SIZE_BYTES..]
            && q == Then(Parsed([message], []), Parse(b.data[i..]))
            && scan.After([message]).out == q.messages
            && |q.rest| <= |b.data| - i && scan.flow != Overread
            && (scan.flow == Return <==> Returns(rest, b, total))
            && if SIZE_BYTES <= |q.rest| && !b.mallocSucceeds then
                 Kept(scan.After([message])) < |stream| && scan.parser == Parser(Missing(q.rest), NoPartialData)
               else scan.parser == Holding(q.rest)
  {
    var stream := rest + b.data;
    assert !Incomplete(stream);
    var message := stream[SIZE_BYTES..SIZE_BYTES + size];
    CutAcross(rest, b.data, SIZE_BYTES, i);
    ScanExact(b, i, total);
    KeptAfter(Scan(b, i, total), [message]);
  }

  lemma CompletedSizeStep(rest: Chunk, b: Buffer, total: nat, i: nat, size: nat)
    requires 0 < |rest| < SIZE_BYTES && !Incomplete(rest + b.data)
    requires i == SIZE_BYTES - |rest| && size == SizeAt(rest + b.data)
    ensures i + size <= |b.data|
    ensures var message := (rest + b.data)[SIZE_BYTES..SIZE_BYTES + size];
            ReceiveBuffer(Holding(rest), b, total) == Scan(b, i + size, total).After([message])
  {
    CutAcross(rest, b.data, SIZE_BYTES, i);
    CutInSecond(rest, b.data, SIZE_BYTES, SIZE_BYTES + size);
  }

  lemma SplitSizeCompleted(rest: Chunk, b: Buffer, total: nat)
    requires 0 < |rest| < SIZE_BYTES && !Incomplete(rest + b.data)
    ensures BufferExact(rest, b, total) && LossExact(rest, b, total)
  {
    var i, size := SIZE_BYTES - |rest|, SizeAt(rest + b.data);
    CompletedSizeStep(rest, b, total, i, size);
    ResumedScan(rest, b, i + size, size, total);
    hide Scan, Parse, SizeAt, Missing, ReceiveBuffer, Returns, ModeFor;
  }

  lemma SplitSize(rest: Chunk, b: Buffer, total: nat)
    requires 0 < |rest| < SIZE_BYTES
    ensures BufferExact(rest, b, total) && LossExact(rest, b, total)
  {
    var stream := rest + b.data;
    if !Incomplete(stream) {
      SplitSizeCompleted(rest, b, total);
    } else if |stream| >= SIZE_BYTES {
      CutAcross(rest, b.data, SIZE_BYTES, SIZE_BYTES - |rest|);
    }
  }

  lemma SplitMessage(rest: Chunk, b: Buffer, total: nat)
    requires |rest| >= SIZE_BYTES && Incomplete(rest)
    ensures BufferExact(rest, b, total) && LossExact(rest, b, total)
  {
    var stream, size := rest + b.data, SizeAt(rest);
    DropOfAppend(rest, b.data, 0, SIZE_BYTES);
    var got := rest[SIZE_BYTES..];
    if |b.data| < size - |got| {
      assert stream[SIZE_BYTES..] == got + b.data;
    } else {
      var i := size - |got|;
      assert (rest + b.data[..i])[SIZE_BYTES..] == got + b.data[..i];
      ResumedScan(rest, b, i, size, total);
    }
  }

  lemma OneBuffer(rest: Chunk, b: Buffer, total: nat)
    requires Incomplete(rest)
    ensures BufferExact(rest, b, total) && LossExact(rest, b, total)
  {
    if rest == [] {
      FreshBuffer(b, total);
    } else if |rest| < SIZE_BYTES {
      SplitSize(rest, b, total);
    } else {
      SplitMessage(rest, b, total);
    }
  }

  /** An intact event gives the messages and the saved suffix of the parse; any other
      event reads out of bounds or keeps fewer bytes than it received. */
  lemma {:induction false} OneEvent(rest: Chunk, event: seq<Buffer>, total: nat)
    requires Incomplete(rest)
    ensures var o, stream := ReceiveEvent(Holding(rest), event, total), rest + DataOf(event);
            if Intact(rest, event, total) then Faithful(o, stream)
            else o.flow == Overread || Kept(o) < |stream|
    decreases |event|
  {
    if event == [] {
      assert rest + DataOf(event) == rest;
      assert ReceiveEvent(Holding(rest), event, total) == Outcome(Holding(rest), [], NextBuffer);
    } else {
      var b, later := event[0], DataOf(event[1..]);
      var first, q := ReceiveBuffer(Holding(rest), b, total), Parse(rest + b.data);
      OneBuffer(rest, b, total);
      Join(rest, b.data, later);
      if BufferIntact(rest, b) {
        ParseAppend(rest + b.data, later);
        ParseKeepsAll(rest + b.data);
      }
      if first.flow == NextBuffer {
        var tail := ReceiveEvent(first.parser, event[1..], total);
        KeptAfter(tail, first.out);
        if BufferIntact(rest, b) {
          OneEvent(q.rest, event[1..], total);
        } else {
          HoldingIsValid(rest);
          BufferKeeps(Holding(rest), b, total);
          EventKeeps(first.parser, event[1..], total);
        }
      } else if later == [] {
        assert q.rest + later == q.rest;
        assert Parse(q.rest).messages == [];
      }
    }
  }

  lemma HoldingIsValid(rest: Chunk)
    requires Incomplete(rest)
    ensures Valid(Holding(rest)) && Held(ModeFor(rest)) == |rest|
  {
  }

  lemma {:induction false} RunFrom(rest: Chunk, events: seq<seq<Buffer>>)
    requires Incomplete(rest)
    ensures var o, stream := Run(Holding(rest), events), rest + StreamOf(events);
            if RunIntact(rest, events) then Faithful(o, stream)
            else o.flow == Overread || Kept(o) < |stream|
    decreases |events|
  {
    if events == [] {
      assert rest + StreamOf(events) == rest;
    } else {
      var data, later := DataOf(events[0]), StreamOf(events[1..]);
      var first, q := ReceiveEvent(Holding(rest), events[0], |data|), Parse(rest + data);
      OneEvent(rest, events[0], |data|);
      Join(rest, data, later);
      if first.flow != Overread {
        KeptAfter(Run(first.parser, events[1..]), first.out);
        if Intact(rest, events[0], |data|) {
          ParseAppend(rest + data, later);
          ParseKeepsAll(rest + data);
          RunFrom(q.rest, events[1..]);
        } else {
          HoldingIsValid(rest);
          EventKeeps(Holding(rest), events[0], |data|);
          RunKeeps(first.parser, events[1..]);
        }
      }
    }
  }

  /** The reader as written gives the messages of the stream and saves exactly the unread
      suffix if and only if the cuts are intact. */
  lemma FaithfulExactlyWhenIntact(events: seq<seq<Buffer>>)
    ensures Faithful(Run(INITIAL, events), StreamOf(events)) <==> RunIntact([], events)
  {
    RunFrom([], events);
    NoPrefix(StreamOf(events));
    if !RunIntact([], events) {
      KeepingLessIsUnfaithful(Run(INITIAL, events), StreamOf(events));
    }
  }

  // ---- What the theorem says of particular segmentations ----

  /** Every record of a correct client arrives, in order, with nothing left over, when
      the cuts are intact. */
  lemma DeliversAllRecords(records: seq<Chunk>, events: seq<seq<Buffer>>)
    requires AllFit(records) && StreamOf(events) == Frame(records) && RunIntact([], events)
    ensures Run(INITIAL, events).flow != Overread
    ensures Run(INITIAL, events).out == records && Run(INITIAL, events).parser == INITIAL
  {
    FaithfulExactlyWhenIntact(events);
    RoundTripExactly(records);
  }

  function SingleBuffers(chunks: seq<Chunk>): (r: seq<seq<Buffer>>)
    ensures |r| == |chunks|
  {
    if chunks == [] then [] else [[Buffer(chunks[0], true)]] + SingleBuffers(chunks[1..])
  }

  /** Whenever a chunk completes a split size prefix, it brings the whole payload. */
  predicate PrefixesBringPayload(rest: Chunk, chunks: seq<Chunk>)
    decreases |chunks|
  {
    chunks == [] ||
    (&& (0 < |rest| < SIZE_BYTES <= |rest| + |chunks[0]| ==> !Incomplete(rest + chunks[0]))
     && PrefixesBringPayload(Parse(rest + chunks[0]).rest, chunks[1..]))
  }

  /** With one buffer per event and no allocation failure, split prefixes are all that
      can go wrong. */
  lemma {:induction false} SingleBufferEvents(rest: Chunk, chunks: seq<Chunk>)
    ensures RunIntact(rest, SingleBuffers(chunks)) <==> PrefixesBringPayload(rest, chunks)
    decreases |chunks|
  {
    if chunks != [] {
      var event := [Buffer(chunks[0], true)];
      var held := Parse(rest + chunks[0]).rest;
      assert event[1..] == [];
      assert DataOf(event) == chunks[0];
      assert Intact(held, event[1..], |chunks[0]|);
      assert Intact(rest, event, |chunks[0]|) <==>
        (0 < |rest| < SIZE_BYTES <= |rest| + |chunks[0]| ==> !Incomplete(rest + chunks[0]));
      assert SingleBuffers(chunks)[1..] == SingleBuffers(chunks[1..]);
      SingleBufferEvents(held, chunks[1..]);
    }
  }

  /** The one-byte record [7] cut as 1 | 0 0 0 | 7: the callback reads past the buffer. */
  lemma OverreadOnSplitPrefix()
    ensures var events := SingleBuffers([[1], [0, 0, 0], [7]]);
            Run(INITIAL, events).flow == Overread && !RunIntact([], events)
  {
    var events := SingleBuffers([[1], [0, 0, 0], [7]]);
    var first, second: Buffer := Buffer([1], true), Buffer([0, 0, 0], true);
    assert events[0] == [first] && events[1..][0] == [second];
    assert first.data[0..] == [1];
    assert ReceiveBuffer(INITIAL, first, 1) == Outcome(Parser(0, PartialSize([1])), [], Return);
    assert DataOf([first]) == [1];
    var p := Parser(0, PartialSize([1]));
    assert ReceiveEvent(INITIAL, [first], 1).parser == p;
    assert second.data[..3] == [0, 0, 0];
    assert [1] + second.data[..3] == [1, 0, 0, 0];
    assert Decode([1, 0, 0, 0]) == 1 by {
      assert Decode([0, 0, 0]) == 0;
    }
    assert ReceiveBuffer(p, second, 3).flow == Overread;
    assert DataOf([second]) == [0, 0, 0];
    assert ReceiveEvent(p, [second], 3).flow == Overread;
    assert Run(p, events[1..]).flow == Overread;
    FaithfulExactlyWhenIntact(events);
  }

  /** The same record as 1 | (0, 0 0 7): the second event's later buffer is dropped. */
  lemma LaterBufferDropped()
    ensures var events := [[Buffer([1], true)], [Buffer([0], true), Buffer([0, 0, 7], true)]];
            && StreamOf(events) == [1, 0, 0, 0, 7]
            && Run(INITIAL, events).out == [] && !RunIntact([], events)
  {
    var first, second := [Buffer([1], true)], [Buffer([0], true), Buffer([0, 0, 7], true)];
    var events := [first, second];
    assert events[1..] == [second] && events[1..][1..] == [];
    assert first[0].data[0..] == [1] && [1] + [0] == [1, 0];
    assert second[1..] == [Buffer([0, 0, 7], true)] && second[1..][1..] == [];
    assert DataOf(first) == [1];
    assert DataOf(second) == [0, 0, 0, 7];
    assert StreamOf([second]) == [0, 0, 0, 7];
    var p := Parser(0, PartialSize([1]));
    assert ReceiveBuffer(INITIAL, first[0], 1) == Outcome(p, [], Return);
    assert ReceiveEvent(INITIAL, first, 1).parser == p;
    assert ReceiveBuffer(p, second[0], 4) == Outcome(Parser(0, PartialSize([1, 0])), [], Return);
    assert Run(p, [second]).parser == Parser(0, PartialSize([1, 0]));
    assert Kept(Run(INITIAL, events)) == 2;
    KeepingLessIsUnfaithful(Run(INITIAL, events), StreamOf(events));
    FaithfulExactlyWhenIntact(events);
  }

  // ---- Events of two buffers ----

  /** The record of which `held` is known does not end, or have its size, in `more` bytes. */
  predicate BeyondEvent(held: Chunk, more: nat) {
    if |held| >= SIZE_BYTES then |held| + more < SIZE_BYTES + SizeAt(held) else held != [] && |held| + more < SIZE_BYTES
  }

  /** What an event of the two buffers `a` and `b` comes to. */
  predicate AsTwoBuffers(o: Outcome, a: Chunk, b: Chunk) {
    var held := Parse(a).rest;
    if BeyondEvent(held, |b|) then o == Outcome(Holding(held), Parse(a).messages, Return)
    else if 0 < |held| < SIZE_BYTES && Incomplete(held + b) then o.flow == Overread
    else o.flow != Overread && o.out == Parse(a + b).messages && o.parser == Holding(Parse(a + b).rest)
  }

  /** An event of two buffers, read from the start of a record, with no failed allocation.
      If the event does not hold the rest of the record (or of its size) that the first
      buffer leaves, the second buffer is dropped; if the first buffer splits a size, the
      second must bring the whole payload; and otherwise the event is read as one. */
  lemma TwoBuffers(a: Chunk, b: Chunk)
    ensures AsTwoBuffers(ReceiveEvent(INITIAL, [Buffer(a, true), Buffer(b, true)], |a| + |b|), a, b)
  {
    hide *;
    FirstBuffer(a, |b|);
    TwoFrom(INITIAL, a, b);
  }

  /** What the first buffer comes to, if `more` bytes follow it in the event. */
  predicate FirstRead(p: Parser, a: Chunk, more: nat) {
    var o, held := ReceiveBuffer(p, Buffer(a, true), |a| + more), Parse(a).rest;
    && o.out == Parse(a).messages && o.parser == Holding(held) && o.flow != Overread
    && (o.flow == Return <==> BeyondEvent(held, more))
  }

  lemma TwoFrom(p: Parser, a: Chunk, b: Chunk)
    requires FirstRead(p, a, |b|)
    ensures AsTwoBuffers(ReceiveEvent(p, [Buffer(a, true), Buffer(b, true)], |a| + |b|), a, b)
  {
    hide ReceiveBuffer, ReceiveEvent, Parse, Holding, BeyondEvent, Incomplete;
    var held := Parse(a).rest;
    ParseAppend(a, b);
    OneThenOther(p, Buffer(a, true), Buffer(b, true), |a| + |b|);
    if !BeyondEvent(held, |b|) {
      SecondBuffer(held, Buffer(b, true), |a| + |b|);
    }
  }

  lemma OneThenOther(p: Parser, first: Buffer, second: Buffer, total: nat)
    ensures var o := ReceiveBuffer(p, first, total);
            ReceiveEvent(p, [first, second], total) ==
            if o.flow != NextBuffer then o else ReceiveEvent(o.parser, [second], total).After(o.out)
  {
    hide ReceiveBuffer;
    assert [first, second][1..] == [second];
  }

  lemma FirstBuffer(a: Chunk, more: nat)
    ensures FirstRead(INITIAL, a, more)
  {
    hide *;
    NothingHeld();
    NoPrefix(a);
    OneBuffer([], Buffer(a, true), |a| + more);
    FreshIsExact(Holding([]), [], a, more);
  }

  lemma NothingHeld()
    ensures Holding([]) == INITIAL && Incomplete([])
  {
  }

  lemma FreshIsExact(p: Parser, rest: Chunk, a: Chunk, more: nat)
    requires rest == [] && rest + a == a && p == Holding(rest)
    requires BufferExact(rest, Buffer(a, true), |a| + more)
    ensures FirstRead(p, a, more)
  {
    assert |Parse(a).rest| <= |a|;
    hide ReceiveBuffer, Parse, Holding;
  }

  /** The last buffer of an event; there is nothing after it that a return could drop. */
  lemma SecondBuffer(held: Chunk, b: Buffer, total: nat)
    requires Incomplete(held) && b.mallocSucceeds && !BeyondEvent(held, |b.data|)
    ensures var o, q := ReceiveEvent(Holding(held), [b], total), Parse(held + b.data);
            if 0 < |held| < SIZE_BYTES && Incomplete(held + b.data) then o.flow == Overread
            else o.flow != Overread && o.out == q.messages && o.parser == Holding(q.rest)
  {
    var first := ReceiveBuffer(Holding(held), b, total);
    OneBuffer(held, b, total);
    assert [b][1..] == [];
    assert ReceiveEvent(first.parser, [b][1..], total) == Outcome(first.parser, [], NextBuffer);
    if 0 < |held| < SIZE_BYTES {
      CutAcross(held, b.data, SIZE_BYTES, SIZE_BYTES - |held|);
    }
  }

  /** For instance the one-byte record [7] as (1 0 0 0, 7) in one event. */
  lemma ContinuesInNextBuffer()
    ensures Run(INITIAL, [[Buffer([1, 0, 0, 0], true), Buffer([7], true)]]).out == [[7]]
  {
    var a, b: Chunk := [1, 0, 0, 0], [7];
    var event := [Buffer(a, true), Buffer(b, true)];
    assert Decode([1, 0, 0, 0]) == 1 by {
      assert Decode([0, 0, 0]) == 0;
    }
    assert a[..SIZE_BYTES] == a && Incomplete(a) && Parse(a) == Parsed([], a);
    assert (a + b)[..SIZE_BYTES] == a && (a + b)[SIZE_BYTES..5] == b && (a + b)[5..] == [];
    TwoBuffers(a, b);
    assert DataOf(event) == a + b by {
      assert event[1..] == [Buffer(b, true)] && event[1..][1..] == [];
      assert DataOf(event[1..]) == b + DataOf(event[1..][1..]) == b;
    }
    var none: seq<seq<Buffer>> := [];
    assert [event][1..] == none;
  }

  /** What a reader that parses each event from the suffix saved before it ends with. */
  function EventByEvent(rest: Chunk, events: seq<seq<Buffer>>): Parsed
    decreases |events|
  {
    if events == [] then Parsed([], rest)
    else
      var first := Parse(rest + DataOf(events[0]));
      Then(first, EventByEvent(first.rest, events[1..]))
  }

  /** Such a reader (ControlStream.ReceiveRepaired) does not see the cuts at all. */
  lemma {:induction false} CutsDoNotMatter(rest: Chunk, events: seq<seq<Buffer>>)
    requires Incomplete(rest)
    ensures EventByEvent(rest, events) == Parse(rest + StreamOf(events))
    decreases |events|
  {
    if events == [] {
      NoSuffix(rest);
    } else {
      var data := DataOf(events[0]);
      CutsDoNotMatter(Parse(rest + data).rest, events[1..]);
      Join(rest, data, StreamOf(events[1..]));
      ParseAppend(rest + data, StreamOf(events[1..]));
    }
  }
}
