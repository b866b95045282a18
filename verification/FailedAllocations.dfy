/** What the reader of the control stream does when an allocation fails: the record that
    needed it is lost, its missing bytes are to be skipped, and the code as written forgets
    to skip what the next buffer does not hold. */
module FailedAllocations {
  import opened Bytes
  import opened Framing
  import opened Deframer
  import opened Wrappers

  // ---- What should be delivered ----

  /** The unread suffix, and whether the record that starts it has been given up. */
  datatype Unread = Unread(rest: Chunk, lost: bool)

  predicate Sound(u: Unread) {
    Incomplete(u.rest) && (u.lost ==> |u.rest| >= SIZE_BYTES)
  }

  /** The parser state that stands for it. */
  function Standing(u: Unread): Parser
    requires Sound(u)
  {
    if u.lost then Parser(Missing(u.rest), NoPartialData) else Holding(u.rest)
  }

  datatype Taken = Taken(unread: Unread, out: seq<Chunk>)
  {
    function After(earlier: seq<Chunk>): Taken {
      this.(out := earlier + out)
    }
  }

  /** One buffer: a record whose size is complete and whose payload is not needs the
      buffer's allocation, unless it had its own before. */
  function TakeBuffer(u: Unread, b: Buffer): (r: Taken)
    requires Sound(u)
    ensures Sound(r.unread)
  {
    var q := Parse(u.rest + b.data);
    if q.messages == [] && |u.rest| >= SIZE_BYTES then Taken(Unread(q.rest, u.lost), [])
    else Taken(Unread(q.rest, |q.rest| >= SIZE_BYTES && !b.mallocSucceeds), if u.lost then q.messages[1..] else q.messages)
  }

  function TakeAll(u: Unread, buffers: seq<Buffer>): (r: Taken)
    requires Sound(u)
    ensures Sound(r.unread)
    decreases |buffers|
  {
    if buffers == [] then Taken(u, [])
    else
      var first := TakeBuffer(u, buffers[0]);
      TakeAll(first.unread, buffers[1..]).After(first.out)
  }

  /** Whether the record with its size up to `headerEnd` and its payload up to `end`,
      counted from the start of the buffers, loses its allocation: it is made in the buffer
      that completes the size, if that one does not hold the whole payload. `lost` speaks
      for a record whose size was complete before. */
  predicate AllocationFails(lost: bool, buffers: seq<Buffer>, headerEnd: int, end: int)
    decreases |buffers|
  {
    if headerEnd <= 0 then lost
    else if buffers == [] then false
    else
      var n := |buffers[0].data|;
      if headerEnd <= n then end > n && !buffers[0].mallocSucceeds
      else AllocationFails(lost, buffers[1..], headerEnd - n, end - n)
  }

  /** The messages, laid out from offset `at` on, that do not lose their allocation. */
  function Survivors(lost: bool, ms: seq<Chunk>, at: int, buffers: seq<Buffer>): seq<Chunk>
    decreases |ms|
  {
    if ms == [] then []
    else
      var next := at + SIZE_BYTES + |ms[0]|;
      (if AllocationFails(lost, buffers, at + SIZE_BYTES, next) then [] else [ms[0]])
      + Survivors(lost, ms[1..], next, buffers)
  }

  // ---- A reader that skips as far as it has to delivers exactly those ----

  lemma {:induction false} SurvivorsAppend(lost: bool, ms: seq<Chunk>, more: seq<Chunk>, at: int, end: int, buffers: seq<Buffer>)
    requires end == at + WireLength(ms)
    ensures Survivors(lost, ms + more, at, buffers) == Survivors(lost, ms, at, buffers) + Survivors(lost, more, end, buffers)
    decreases |ms|
  {
    hide AllocationFails;
    if ms == [] {
      assert ms + more == more;
    } else {
      var next := at + SIZE_BYTES + |ms[0]|;
      var head := if AllocationFails(lost, buffers, at + SIZE_BYTES, next) then [] else [ms[0]];
      assert (ms + more)[0] == ms[0] && (ms + more)[1..] == ms[1..] + more;
      SurvivorsAppend(lost, ms[1..], more, next, end, buffers);
      Reassociate(head, Survivors(lost, ms[1..], next, buffers), Survivors(lost, more, end, buffers));
    }
  }

  /** Messages that start in a later buffer, or have their size completed in one. */
  lemma {:induction false} LaterSurvivors(lost: bool, later: bool, ms: seq<Chunk>, at: int, buffers: seq<Buffer>)
    requires buffers != [] && at > 0 && at + SIZE_BYTES > |buffers[0].data|
    ensures Survivors(lost, ms, at, buffers) == Survivors(later, ms, at - |buffers[0].data|, buffers[1..])
    decreases |ms|
  {
    if ms != [] {
      var n, next := |buffers[0].data|, at + SIZE_BYTES + |ms[0]|;
      SameFate(lost, later, buffers[1..], at + SIZE_BYTES - n, next - n);
      LaterSurvivors(lost, later, ms[1..], next, buffers);
    }
  }

  lemma {:induction false} SameFate(lost: bool, later: bool, buffers: seq<Buffer>, headerEnd: int, end: int)
    requires headerEnd > 0
    ensures AllocationFails(lost, buffers, headerEnd, end) == AllocationFails(later, buffers, headerEnd, end)
    decreases |buffers|
  {
    if buffers != [] && headerEnd > |buffers[0].data| {
      SameFate(lost, later, buffers[1..], headerEnd - |buffers[0].data|, end - |buffers[0].data|);
    }
  }

  /** Messages that end in the first buffer, with their size not complete before it. */
  lemma {:induction false} CompleteSurvive(lost: bool, ms: seq<Chunk>, at: int, buffers: seq<Buffer>)
    requires buffers != [] && at + SIZE_BYTES > 0 && at + WireLength(ms) <= |buffers[0].data|
    ensures Survivors(lost, ms, at, buffers) == ms
    decreases |ms|
  {
    if ms != [] {
      CompleteSurvive(lost, ms[1..], at + SIZE_BYTES + |ms[0]|, buffers);
      assert ms == [ms[0]] + ms[1..];
    }
  }

  lemma FirstSurvivors(lost: bool, ms: seq<Chunk>, rest: int, buffers: seq<Buffer>)
    requires buffers != [] && ms != [] && WireLength(ms) - rest <= |buffers[0].data| && 0 <= rest < SIZE_BYTES + |ms[0]|
    requires lost ==> rest >= SIZE_BYTES
    ensures Survivors(lost, ms, -rest, buffers) == if lost then ms[1..] else ms
  {
    if rest < SIZE_BYTES {
      CompleteSurvive(lost, ms, -rest, buffers);
    } else {
      CompleteSurvive(lost, ms[1..], SIZE_BYTES + |ms[0]| - rest, buffers);
      assert ms == [ms[0]] + ms[1..];
    }
  }

  /** What the parse of one more buffer consumes. */
  lemma BufferParsed(rest: Chunk, data: Chunk)
    requires Incomplete(rest)
    ensures var q := Parse(rest + data);
            && WireLength(q.messages) + |q.rest| == |rest| + |data|
            && (q.messages == [] ==> q.rest == rest + data)
            && (q.messages != [] ==> |rest| < SIZE_BYTES + |q.messages[0]| && |q.rest| <= |data|)
            && (|q.rest| >= SIZE_BYTES ==> |q.rest| < SIZE_BYTES + SizeAt(q.rest))
  {
    var stream := rest + data;
    ParseKeepsAll(stream);
    if !Incomplete(stream) {
      if |rest| >= SIZE_BYTES {
        DropOfAppend(rest, data, 0, SIZE_BYTES);
      }
      var n := SIZE_BYTES + SizeAt(stream);
      assert |Parse(stream[n..]).rest| <= |stream| - n;
    }
  }

  /** The fate of the record that the first buffer leaves incomplete. */
  lemma FateOfRest(u: Unread, buffers: seq<Buffer>, at: int, end: int)
    requires Sound(u) && buffers != []
    requires at == |buffers[0].data| - |Parse(u.rest + buffers[0].data).rest| && end > |buffers[0].data|
    ensures AllocationFails(u.lost, buffers, at + SIZE_BYTES, end) ==
            AllocationFails(TakeBuffer(u, buffers[0]).unread.lost, buffers[1..],
                            at + SIZE_BYTES - |buffers[0].data|, end - |buffers[0].data|)
  {
    var b, n := buffers[0], |buffers[0].data|;
    var first, q := TakeBuffer(u, b), Parse(u.rest + b.data);
    BufferParsed(u.rest, b.data);
    hide Parse, Incomplete, WireLength;
    if |q.rest| < SIZE_BYTES {
      SameFate(u.lost, first.unread.lost, buffers[1..], at + SIZE_BYTES - n, end - n);
    } else if at + SIZE_BYTES <= 0 {
      assert q.messages == [] && |u.rest| >= SIZE_BYTES;
    } else {
      assert !(q.messages == [] && |u.rest| >= SIZE_BYTES);
    }
  }

  /** The messages completed after the first buffer. */
  lemma TailSurvivors(u: Unread, buffers: seq<Buffer>, ms: seq<Chunk>, at: int)
    requires Sound(u) && buffers != [] && at == |buffers[0].data| - |Parse(u.rest + buffers[0].data).rest|
    requires ms != [] ==> at + SIZE_BYTES + |ms[0]| > |buffers[0].data|
    ensures Survivors(u.lost, ms, at, buffers) ==
            Survivors(TakeBuffer(u, buffers[0]).unread.lost, ms, at - |buffers[0].data|, buffers[1..])
  {
    hide TakeBuffer, AllocationFails, Parse, Incomplete;
    if ms != [] {
      var next := at + SIZE_BYTES + |ms[0]|;
      FateOfRest(u, buffers, at, next);
      LaterSurvivors(u.lost, TakeBuffer(u, buffers[0]).unread.lost, ms[1..], next, buffers);
    }
  }

  /** One buffer more; `from` is where the first message starts before it, `next` where the
      first one after it does. */
  lemma OneBufferSurvives(u: Unread, buffers: seq<Buffer>, first: Taken, q: Parsed, tail: Parsed, from: int, at: int, next: int)
    requires Sound(u) && buffers != [] && from == -|u.rest| && at == |buffers[0].data| - |q.rest| && next == -|q.rest|
    requires first == TakeBuffer(u, buffers[0]) && q == Parse(u.rest + buffers[0].data)
    requires tail.messages != [] ==> |q.rest| < SIZE_BYTES + |tail.messages[0]|
    ensures first.unread.rest == q.rest
    ensures Survivors(u.lost, q.messages + tail.messages, from, buffers)
            == first.out + Survivors(first.unread.lost, tail.messages, next, buffers[1..])
  {
    HeadSurvivors(u, buffers, from);
    BufferParsed(u.rest, buffers[0].data);
    hide Parse, Incomplete, AllocationFails, Survivors, TakeBuffer, WireLength;
    assert at == from + WireLength(q.messages);
    SurvivorsAppend(u.lost, q.messages, tail.messages, from, at, buffers);
    TailSurvivors(u, buffers, tail.messages, at);
    assert next == at - |buffers[0].data|;
  }

  lemma HeadSurvivors(u: Unread, buffers: seq<Buffer>, from: int)
    requires Sound(u) && buffers != [] && from == -|u.rest|
    ensures var first, q := TakeBuffer(u, buffers[0]), Parse(u.rest + buffers[0].data);
            first.unread.rest == q.rest && Survivors(u.lost, q.messages, from, buffers) == first.out
  {
    var q := Parse(u.rest + buffers[0].data);
    BufferParsed(u.rest, buffers[0].data);
    hide Parse, Incomplete, AllocationFails;
    if q.messages != [] {
      FirstSurvivors(u.lost, q.messages, |u.rest|, buffers);
    }
  }

  /** Every record of the stream is delivered, in order, except exactly those whose
      allocation failed, on every cut; `from` is where the first one starts. */
  lemma {:induction false} DeliversSurvivors(u: Unread, buffers: seq<Buffer>, from: int)
    requires Sound(u) && from == -|u.rest|
    ensures var q, r := Parse(u.rest + DataOf(buffers)), TakeAll(u, buffers);
            r.unread.rest == q.rest && r.out == Survivors(u.lost, q.messages, from, buffers)
    decreases |buffers|
  {
    if buffers == [] {
      NoSuffix(u.rest);
    } else {
      var first, q := TakeBuffer(u, buffers[0]), Parse(u.rest + buffers[0].data);
      var later, next := DataOf(buffers[1..]), -|q.rest|;
      var tail := Parse(q.rest + later);
      BufferParsed(q.rest, later);
      OneBufferSurvives(u, buffers, first, q, tail, from, |buffers[0].data| - |q.rest|, next);
      DeliversSurvivors(first.unread, buffers[1..], next);
      WholeParse(u, buffers, later);
      hide Parse, Survivors, TakeBuffer, DataOf, Incomplete;
    }
  }

  lemma WholeParse(u: Unread, buffers: seq<Buffer>, later: Chunk)
    requires Sound(u) && buffers != [] && later == DataOf(buffers[1..])
    ensures Parse(u.rest + DataOf(buffers)) ==
            Then(Parse(u.rest + buffers[0].data), Parse(Parse(u.rest + buffers[0].data).rest + later))
  {
    Join(u.rest, buffers[0].data, later);
    ParseAppend(u.rest + buffers[0].data, later);
  }

  /** If every allocation succeeds that is the whole parse. */
  lemma {:induction false} NothingLost(rest: Chunk, buffers: seq<Buffer>)
    requires Incomplete(rest) && forall b <- buffers :: b.mallocSucceeds
    ensures var q := Parse(rest + DataOf(buffers)); TakeAll(Unread(rest, false), buffers) == Taken(Unread(q.rest, false), q.messages)
    decreases |buffers|
  {
    if buffers == [] {
      NoSuffix(rest);
    } else {
      var b, later := buffers[0], DataOf(buffers[1..]);
      Join(rest, b.data, later);
      ParseAppend(rest + b.data, later);
      assert forall x <- buffers[1..] :: x in buffers;
      assert b in buffers;
      NothingLost(Parse(rest + b.data).rest, buffers[1..]);
    }
  }

  // ---- The code as written, buffer by buffer ----

  /** The buffer holds all that is to be skipped, and if it completes a split size prefix,
      the whole payload. */
  predicate BufferSound(u: Unread, b: Buffer)
    requires Sound(u)
  {
    if u.lost then Missing(u.rest) <= |b.data|
    else 0 < |u.rest| < SIZE_BYTES <= |u.rest| + |b.data| ==> !Incomplete(u.rest + b.data)
  }

  predicate AsItShould(u: Unread, b: Buffer, total: nat)
    requires Sound(u)
  {
    var o, r := ReceiveBuffer(Standing(u), b, total), TakeBuffer(u, b);
    o.flow != Overread && o.out == r.out && o.parser == Standing(r.unread)
  }

  /** A record that was given up, and the buffer with its last byte. */
  lemma Skipped(u: Unread, b: Buffer, total: nat)
    requires Sound(u) && u.lost && Missing(u.rest) <= |b.data|
    ensures AsItShould(u, b, total)
    ensures ReceiveBuffer(Standing(u), b, total).flow == Return <==> Returns(u.rest, b, total)
  {
    var k, stream := Missing(u.rest), u.rest + b.data;
    DropOfAppend(u.rest, b.data, 0, SIZE_BYTES);
    var n := SIZE_BYTES + SizeAt(stream);
    assert n == |u.rest| + k && stream[n..] == b.data[k..];
    assert Parse(stream) == Parsed([stream[SIZE_BYTES..n]] + Parse(b.data[k..]).messages, Parse(b.data[k..]).rest);
    ScanExact(b, k, total);
  }

  lemma NotSkipped(u: Unread, b: Buffer, total: nat)
    requires Sound(u) && u.lost && Missing(u.rest) > |b.data|
    ensures TakeBuffer(u, b) == Taken(Unread(u.rest + b.data, true), [])
    ensures ReceiveBuffer(Standing(u), b, total) == Outcome(INITIAL, [], NextBuffer)
    ensures Missing(u.rest + b.data) == Missing(u.rest) - |b.data|
  {
    DropOfAppend(u.rest, b.data, 0, SIZE_BYTES);
  }

  lemma SplitSizeOverreads(rest: Chunk, b: Buffer, total: nat)
    requires 0 < |rest| < SIZE_BYTES <= |rest| + |b.data| && Incomplete(rest + b.data)
    ensures ReceiveBuffer(Holding(rest), b, total).flow == Overread
  {
    CutAcross(rest, b.data, SIZE_BYTES, SIZE_BYTES - |rest|);
  }

  /** As written, one buffer leaves what it should, whatever its allocation, if and only
      if it holds what is still to be skipped and any split size comes with its payload:
      after a failed allocation the reader resynchronises exactly when the bytes to skip
      are no more than the next buffer holds. */
  lemma ResynchronisesExactly(u: Unread, b: Buffer, total: nat)
    requires Sound(u)
    ensures AsItShould(u, b, total) <==> BufferSound(u, b)
    ensures BufferSound(u, b) ==> (ReceiveBuffer(Standing(u), b, total).flow == Return <==> Returns(u.rest, b, total))
  {
    BufferParsed(u.rest, b.data);
    if u.lost {
      if Missing(u.rest) <= |b.data| {
        Skipped(u, b, total);
      } else {
        NotSkipped(u, b, total);
      }
    } else if BufferSound(u, b) {
      OneBuffer(u.rest, b, total);
    } else {
      SplitSizeOverreads(u.rest, b, total);
    }
  }

  function Zeros(n: nat): (r: Chunk)
    ensures |r| == n && forall i :: 0 <= i < n ==> r[i] == 0
  {
    seq(n, _ => 0)
  }

  /** Forgetting the rest of a skip shows: there is always a continuation, one buffer with
      the missing bytes and one empty record, that is read differently. */
  lemma ForgottenSkipShows(u: Unread, b: Buffer, total: nat) returns (next: Buffer)
    requires Sound(u) && u.lost && Missing(u.rest) > |b.data|
    ensures var o := ReceiveBuffer(Standing(u), b, total);
            ReceiveEvent(o.parser, [next], |next.data|).out != [] && ReceiveEvent(o.parser, [next], |next.data|).out[0] == [0]
    ensures TakeAll(u, [b, next]).out == [[]]
  {
    var k := Missing(u.rest) - |b.data|;
    next := Buffer([1] + Zeros(k + 3), true);
    NotSkipped(u, b, total);
    ReadAfresh(next);
    var v := Unread(u.rest + b.data, true);
    SkippedZeros(v, next);
    assert [b, next][1..] == [next] && [next][1..] == [];
    assert TakeAll(v, [next]).out == [[]] + [];
  }

  lemma ReadAfresh(next: Buffer)
    requires |next.data| >= 5 && next.data[0] == 1 && forall i :: 1 <= i < |next.data| ==> next.data[i] == 0
    ensures var o := ReceiveEvent(INITIAL, [next], |next.data|);
            o.out != [] && o.out[0] == [0]
  {
    var total := |next.data|;
    assert next.data[0..] == next.data;
    var header := next.data[..SIZE_BYTES];
    assert header == [1, 0, 0, 0];
    assert SizeAt(next.data) == 1 by {
      assert header[1..] == [0, 0, 0];
      assert Decode([0, 0, 0]) == 0;
    }
    ScanOfRecord(next, 0, 5, total) by {
      assert !Incomplete(next.data[0..]);
    }
    assert next.data[0 + SIZE_BYTES..5] == [0];
    var o := ReceiveBuffer(INITIAL, next, total);
    assert [next][1..] == [];
  }

  lemma SkippedZeros(v: Unread, next: Buffer)
    requires Sound(v) && v.lost && |next.data| == Missing(v.rest) + SIZE_BYTES
    requires forall i :: 1 <= i < |next.data| ==> next.data[i] == 0
    ensures TakeBuffer(v, next) == Taken(Unread([], false), [[]])
  {
    var k, stream := Missing(v.rest), v.rest + next.data;
    DropOfAppend(v.rest, next.data, 0, SIZE_BYTES);
    var n := SIZE_BYTES + SizeAt(stream);
    assert stream[n..] == next.data[k..] == [0, 0, 0, 0];
    assert Decode([0, 0, 0, 0]) == 0 by {
      assert Decode([0, 0]) == 0;
    }
    assert Parse([0, 0, 0, 0]) == Parsed([[]], []) by {
      assert [0, 0, 0, 0][..SIZE_BYTES] == [0, 0, 0, 0];
      assert [0, 0, 0, 0][SIZE_BYTES..] == [];
    }
  }

  // ---- Whole runs of the code as written ----

  predicate EventSound(u: Unread, event: seq<Buffer>, total: nat)
    requires Sound(u)
    decreases |event|
  {
    event == [] ||
    (&& BufferSound(u, event[0])
     && if Returns(u.rest, event[0], total) then DataOf(event[1..]) == []
        else EventSound(TakeBuffer(u, event[0]).unread, event[1..], total))
  }

  predicate RunSound(u: Unread, events: seq<seq<Buffer>>)
    requires Sound(u)
    decreases |events|
  {
    events == [] ||
    (EventSound(u, events[0], |DataOf(events[0])|) && RunSound(TakeAll(u, events[0]).unread, events[1..]))
  }

  lemma {:induction false} NothingToTake(u: Unread, buffers: seq<Buffer>)
    requires Sound(u) && DataOf(buffers) == []
    ensures TakeAll(u, buffers) == Taken(u, [])
    decreases |buffers|
  {
    if buffers != [] {
      assert buffers[0].data == [];
      NoSuffix(u.rest);
      NothingToTake(u, buffers[1..]);
    }
  }

  lemma {:induction false} SoundEvent(u: Unread, event: seq<Buffer>, total: nat)
    requires Sound(u) && EventSound(u, event, total)
    ensures var o, r := ReceiveEvent(Standing(u), event, total), TakeAll(u, event);
            o.flow != Overread && o.out == r.out && o.parser == Standing(r.unread)
    decreases |event|
  {
    if event != [] {
      ResynchronisesExactly(u, event[0], total);
      var first := TakeBuffer(u, event[0]);
      if Returns(u.rest, event[0], total) {
        NothingToTake(first.unread, event[1..]);
        assert first.out + [] == first.out;
      } else {
        SoundEvent(first.unread, event[1..], total);
      }
    }
  }

  function AllBuffers(events: seq<seq<Buffer>>): seq<Buffer> {
    if events == [] then [] else events[0] + AllBuffers(events[1..])
  }

  lemma {:induction false} TakeOn(u: Unread, a: seq<Buffer>, b: seq<Buffer>)
    requires Sound(u)
    ensures TakeAll(u, a + b) == TakeAll(TakeAll(u, a).unread, b).After(TakeAll(u, a).out)
    decreases |a|
  {
    if a == [] {
      assert a + b == b;
    } else {
      assert (a + b)[0] == a[0] && (a + b)[1..] == a[1..] + b;
      var first := TakeBuffer(u, a[0]);
      TakeOn(first.unread, a[1..], b);
      TakenAfter(TakeAll(TakeAll(first.unread, a[1..]).unread, b), TakeAll(first.unread, a[1..]).out, first.out);
    }
  }

  lemma TakenAfter(r: Taken, earlier: seq<Chunk>, earliest: seq<Chunk>)
    ensures r.After(earlier).After(earliest) == r.After(earliest + earlier)
  {
  }

  lemma {:induction false} DataOfAll(events: seq<seq<Buffer>>)
    ensures DataOf(AllBuffers(events)) == StreamOf(events)
  {
    if events != [] {
      DataOfAll(events[1..]);
      DataOfAppend(events[0], AllBuffers(events[1..]));
    }
  }

  lemma {:induction false} DataOfAppend(a: seq<Buffer>, b: seq<Buffer>)
    ensures DataOf(a + b) == DataOf(a) + DataOf(b)
  {
    if a == [] {
      assert a + b == b;
    } else {
      assert (a + b)[0] == a[0] && (a + b)[1..] == a[1..] + b;
      DataOfAppend(a[1..], b);
    }
  }

  lemma {:induction false} SoundRun(u: Unread, events: seq<seq<Buffer>>)
    requires Sound(u) && RunSound(u, events)
    ensures var o, r := Run(Standing(u), events), TakeAll(u, AllBuffers(events));
            o.flow != Overread && o.out == r.out && o.parser == Standing(r.unread)
    decreases |events|
  {
    if events != [] {
      SoundEvent(u, events[0], |DataOf(events[0])|);
      TakeOn(u, events[0], AllBuffers(events[1..]));
      SoundRun(TakeAll(u, events[0]).unread, events[1..]);
    }
  }

  /** As written, a run whose buffers are sound delivers every record of the stream but
      exactly those whose allocation failed. */
  lemma SoundRunDelivers(events: seq<seq<Buffer>>)
    requires RunSound(Unread([], false), events)
    ensures Run(INITIAL, events).flow != Overread
    ensures Run(INITIAL, events).out == Survivors(false, Parse(StreamOf(events)).messages, 0, AllBuffers(events))
  {
    hide Parse, Survivors, Run, TakeAll, RunSound, StreamOf, DataOf, AllBuffers;
    SoundRun(Unread([], false), events);
    DataOfAll(events);
    NoPrefix(StreamOf(events));
    DeliversSurvivors(Unread([], false), AllBuffers(events), 0);
  }

  /** A record of six bytes cut as 4 + 1 | 2 | 3, its allocation failing, and an empty
      record: the third buffer is read as a record of one byte. */
  lemma SkipForgotten()
    ensures var events := [[Buffer([6, 0, 0, 0, 9], false)], [Buffer([9, 9], true)], [Buffer([1, 0, 0, 0, 0, 0, 0], true)]];
            && Run(INITIAL, events).flow != Overread && Run(INITIAL, events).out != [] && Run(INITIAL, events).out[0] == [0]
            && TakeAll(Unread([], false), AllBuffers(events)).out == [[]]
  {
    var first, second, third := Buffer([6, 0, 0, 0, 9], false), Buffer([9, 9], true), Buffer([1, 0, 0, 0, 0, 0, 0], true);
    hide Run, TakeAll;
    AsWrittenForgets(first, second, third);
    RepairedSkips(first, second, third);
    assert AllBuffers([[third]]) == [third] && AllBuffers([[second], [third]]) == [second, third] by {
      assert [[second], [third]][1..] == [[third]] && AllBuffers([]) == [];
    }
    assert [[first], [second], [third]][1..] == [[second], [third]];
  }

  lemma AsWrittenForgets(first: Buffer, second: Buffer, third: Buffer)
    requires first == Buffer([6, 0, 0, 0, 9], false) && second == Buffer([9, 9], true)
    requires third == Buffer([1, 0, 0, 0, 0, 0, 0], true)
    ensures var o := Run(INITIAL, [[first], [second], [third]]); o.flow != Overread && o.out != [] && o.out[0] == [0]
  {
    FirstLost(first);
    NotSkipped(Unread([6, 0, 0, 0, 9], true), second, 2);
    ReadAfresh(third);
    hide ReceiveBuffer, Run;
    OneBufferRun(INITIAL, first, [[second], [third]]);
    OneBufferRun(Parser(5, NoPartialData), second, [[third]]);
    OneEventRun(INITIAL, third);
  }

  lemma RepairedSkips(first: Buffer, second: Buffer, third: Buffer)
    requires first == Buffer([6, 0, 0, 0, 9], false) && second == Buffer([9, 9], true)
    requires third == Buffer([1, 0, 0, 0, 0, 0, 0], true)
    ensures TakeAll(Unread([], false), [first, second, third]).out == [[]]
  {
    FirstLost(first);
    NotSkipped(Unread([6, 0, 0, 0, 9], true), second, 2);
    SkippedZeros(Unread([6, 0, 0, 0, 9] + [9, 9], true), third);
    hide TakeBuffer;
    ThreeTaken(first, second, third);
  }

  lemma FirstLost(first: Buffer)
    requires first == Buffer([6, 0, 0, 0, 9], false)
    ensures ReceiveBuffer(INITIAL, first, 5) == Outcome(Parser(5, NoPartialData), [], Return)
    ensures TakeBuffer(Unread([], false), first) == Taken(Unread([6, 0, 0, 0, 9], true), [])
    ensures Sound(Unread([6, 0, 0, 0, 9], true)) && Missing([6, 0, 0, 0, 9]) == 5
  {
    var data := first.data;
    assert data[0..] == data && [] + data == data;
    assert data[..SIZE_BYTES] == [6, 0, 0, 0];
    assert Decode([6, 0, 0, 0]) == 6 by {
      assert [6, 0, 0, 0][1..] == [0, 0, 0] && Decode([0, 0, 0]) == 0;
    }
  }

  lemma OneBufferRun(p: Parser, b: Buffer, later: seq<seq<Buffer>>)
    ensures var o := ReceiveBuffer(p, b, |b.data|);
            Run(p, [[b]] + later) == if o.flow == Overread then o else Run(o.parser, later).After(o.out)
  {
    var o := ReceiveBuffer(p, b, |b.data|);
    assert ([[b]] + later)[0] == [b] && ([[b]] + later)[1..] == later;
    assert [b][1..] == [] && DataOf([b]) == b.data + [] == b.data;
    assert o.out + [] == o.out;
    assert ReceiveEvent(p, [b], |b.data|) == o;
  }

  lemma OneEventRun(p: Parser, b: Buffer)
    ensures var o := ReceiveEvent(p, [b], |b.data|);
            Run(p, [[b]]).flow == (if o.flow == Overread then Overread else NextBuffer) && Run(p, [[b]]).out == o.out
  {
    assert DataOf([b]) == b.data + [] == b.data;
  }

  lemma ThreeTaken(first: Buffer, second: Buffer, third: Buffer)
    requires var r := TakeBuffer(Unread([], false), first);
             && r.out == [] && TakeBuffer(r.unread, second).out == []
             && TakeBuffer(TakeBuffer(r.unread, second).unread, third).out == [[]]
    ensures TakeAll(Unread([], false), [first, second, third]).out == [[]]
  {
    assert [first, second, third][1..] == [second, third] && [second, third][1..] == [third] && [third][1..] == [];
    var v := TakeBuffer(TakeBuffer(Unread([], false), first).unread, second).unread;
    assert TakeAll(v, [third]).out == [[]] + [] == [[]];
  }
}
