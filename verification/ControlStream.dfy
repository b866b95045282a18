/** The server's control stream callback with the fields it updates (server.h): as
    written, it computes `Deframer.ReceiveEvent`; with three repairs it gives, for every
    cut of the stream, the one-shot parse less the records whose allocation failed.

    The union of the partial size and the partial message is two arrays here, of which
    partialData says which one counts. */
module ControlStream {
  import opened Bytes
  import opened Framing
  import opened Deframer
  import opened FailedAllocations

  datatype PartialKind = NoPartial | Size | Message

  method CopyBytes(src: Chunk, dst: array<byte>, at: nat)
    requires at + |src| <= dst.Length
    modifies dst
    ensures dst[..at + |src|] == old(dst[..at]) + src
  {
    for k := 0 to |src|
      invariant dst[..at] == old(dst[..at])
      invariant dst[at..at + k] == src[..k]
    {
      dst[at + k] := src[k];
    }
    assert dst[..at + |src|] == dst[..at] + dst[at..at + |src|];
    assert src[..|src|] == src;
  }

  class ControlStream {
    var skipMessageBytes: nat
    var partialData: PartialKind
    var remainderSizeBytes: array<byte>
    var remainderMessage: array<byte>
    var remainderFilled: nat
    /** The records handed to AddFileToList, in the order they were queued. */
    var fileList: seq<Chunk>

    /** The parser state the fields stand for. */
    ghost var parser: Parser

    ghost predicate Valid()
      reads this, remainderSizeBytes, remainderMessage
    {
      && remainderSizeBytes.Length == SIZE_BYTES
      && remainderSizeBytes != remainderMessage
      && parser.skip == skipMessageBytes
      && match partialData
         case NoPartial => parser.mode == NoPartialData
         case Size => remainderFilled < SIZE_BYTES && parser.mode == PartialSize(remainderSizeBytes[..remainderFilled])
         case Message =>
           && remainderFilled < remainderMessage.Length
           && parser.mode == PartialMessage(remainderMessage.Length, remainderMessage[..remainderFilled])
    }

    constructor ()
      ensures Valid() && parser == INITIAL && fileList == []
      ensures fresh(remainderSizeBytes) && fresh(remainderMessage)
    {
      skipMessageBytes := 0;
      partialData := NoPartial;
      remainderSizeBytes := new byte[SIZE_BYTES];
      remainderMessage := new byte[0];
      remainderFilled := 0;
      fileList := [];
      parser := INITIAL;
    }

    method AddFileToList(file: Chunk)
      modifies `fileList
      ensures fileList == old(fileList) + [file]
    {
      fileList := fileList + [file];
    }

    /** Save the first bytes of a size. */
    method SavePartialSize(bytes: Chunk)
      requires Valid() && |bytes| < SIZE_BYTES
      modifies `remainderFilled, `partialData, `parser, remainderSizeBytes
      ensures Valid() && parser == Parser(skipMessageBytes, PartialSize(bytes))
    {
      remainderFilled := |bytes|;
      CopyBytes(bytes, remainderSizeBytes, 0);
      partialData := Size;
      parser := parser.(mode := PartialSize(bytes));
      assert remainderSizeBytes[..remainderFilled] == bytes;
    }

    /** Allocate for a record of `length` bytes and save its first bytes. */
    method SavePartialMessage(length: nat, bytes: Chunk)
      requires Valid() && |bytes| < length
      modifies `remainderMessage, `remainderFilled, `partialData, `parser
      ensures Valid() && fresh(remainderMessage)
      ensures parser == Parser(skipMessageBytes, PartialMessage(length, bytes))
    {
      remainderMessage := new byte[length];
      remainderFilled := |bytes|;
      CopyBytes(bytes, remainderMessage, 0);
      partialData := Message;
      parser := parser.(mode := PartialMessage(length, bytes));
      assert remainderMessage[..remainderFilled] == bytes;
    }

    /** The inner loop, from index `start`. */
    method ScanRecords(b: Buffer, start: nat, total: nat) returns (flow: Flow)
      requires Valid() && parser == INITIAL
      modifies this, remainderSizeBytes
      ensures Valid() && remainderSizeBytes == old(remainderSizeBytes)
      ensures remainderMessage == old(remainderMessage) || fresh(remainderMessage)
      ensures var o := Scan(b, start, total);
              flow == o.flow && parser == o.parser && fileList == old(fileList) + o.out
    {
      hide Decode;
      var i := start;
      ghost var out: seq<Chunk> := [];
      while i < |b.data|
        invariant Valid() && parser == INITIAL
        invariant remainderSizeBytes == old(remainderSizeBytes) && remainderMessage == old(remainderMessage)
        invariant fileList == old(fileList) + out
        invariant Scan(b, start, total) == Scan(b, i, total).After(out)
        decreases |b.data| - i
      {
        if |b.data| - i < SIZE_BYTES {
          SavePartialSize(b.data[i..]);
          return if total - i < SIZE_BYTES then Return else NextBuffer;
        }
        var messageSize := Decode(b.data[i..][..SIZE_BYTES]);
        CutTwice(b.data, i, SIZE_BYTES, |b.data| - i);
        i := i + SIZE_BYTES;
        if |b.data| - i < messageSize {
          flow := if total - i < messageSize then Return else NextBuffer;
          if b.mallocSucceeds {
            SavePartialMessage(messageSize, b.data[i..]);
          } else {
            skipMessageBytes := messageSize - (|b.data| - i);
            parser := Parser(skipMessageBytes, NoPartialData);
          }
          return;
        }
        ScanStep(b, i - SIZE_BYTES, messageSize, total, out);
        AddFileToList(b.data[i..i + messageSize]);
        out := out + [b.data[i..i + messageSize]];
        i := i + messageSize;
      }
      flow := NextBuffer;
    }

    /** The PartialSize branch; `i` is where the loop goes on. */
    method FinishSize(b: Buffer) returns (i: nat, flow: Flow)
      requires Valid() && partialData == Size && skipMessageBytes == 0
      modifies `partialData, `remainderFilled, `fileList, `parser, remainderSizeBytes
      ensures Valid()
      ensures var got := old(parser.mode.got);
              if |got| + |b.data| < SIZE_BYTES then
                flow == Return && fileList == old(fileList) && parser == Parser(0, PartialSize(got + b.data))
              else
                var start := SIZE_BYTES - |got|;
                var size := Decode(got + b.data[..start]);
                if |b.data| - start < size then
                  flow == Overread && fileList == old(fileList) && parser == INITIAL
                else flow == NextBuffer && i == start + size && parser == INITIAL
                     && fileList == old(fileList) + [b.data[start..i]]
    {
      ghost var got := remainderSizeBytes[..remainderFilled];
      i := 0;
      if |b.data| < SIZE_BYTES - remainderFilled {
        CopyBytes(b.data, remainderSizeBytes, remainderFilled);
        remainderFilled := remainderFilled + |b.data|;
        parser := Parser(0, PartialSize(got + b.data));
        return i, Return;
      }
      i := SIZE_BYTES - remainderFilled;
      CopyBytes(b.data[..i], remainderSizeBytes, remainderFilled);
      assert remainderSizeBytes[..] == got + b.data[..i];
      var size := Decode(remainderSizeBytes[..]);
      remainderFilled := 0;
      partialData := NoPartial;
      parser := INITIAL;
      if |b.data| - i < size {
        return i, Overread;
      }
      AddFileToList(b.data[i..i + size]);
      i := i + size;
      flow := NextBuffer;
    }

    /** The PartialMessage branch. */
    method FinishMessage(b: Buffer) returns (i: nat, flow: Flow)
      requires Valid() && partialData == Message && skipMessageBytes == 0
      modifies `partialData, `remainderFilled, `fileList, `parser, remainderMessage
      ensures Valid()
      ensures var got, length := old(parser.mode.got), remainderMessage.Length;
              if |got| + |b.data| < length then
                flow == Return && fileList == old(fileList)
                && parser == Parser(0, PartialMessage(length, got + b.data))
              else
                flow == NextBuffer && i == length - |got| && parser == INITIAL
                && fileList == old(fileList) + [got + b.data[..i]]
    {
      ghost var got := remainderMessage[..remainderFilled];
      i := 0;
      if |b.data| < remainderMessage.Length - remainderFilled {
        CopyBytes(b.data, remainderMessage, remainderFilled);
        remainderFilled := remainderFilled + |b.data|;
        parser := Parser(0, PartialMessage(remainderMessage.Length, got + b.data));
        return i, Return;
      }
      i := remainderMessage.Length - remainderFilled;
      CopyBytes(b.data[..i], remainderMessage, remainderFilled);
      assert remainderMessage[..] == got + b.data[..i];
      AddFileToList(remainderMessage[..]);
      remainderFilled := 0;
      partialData := NoPartial;
      parser := INITIAL;
      flow := NextBuffer;
    }

    /** One buffer: the rest of a partial record, then the loop. */
    method ReceiveOne(b: Buffer, total: nat) returns (flow: Flow)
      requires Valid()
      modifies this, remainderSizeBytes, remainderMessage
      ensures Valid() && remainderSizeBytes == old(remainderSizeBytes)
      ensures remainderMessage == old(remainderMessage) || fresh(remainderMessage)
      ensures var o := ReceiveBuffer(old(parser), b, total);
              flow == o.flow && fileList == old(fileList) + o.out
              && (parser == o.parser)
    {
      hide Scan, Decode;
      var i := skipMessageBytes;
      skipMessageBytes := 0;
      parser := parser.(skip := 0);
      flow := NextBuffer;
      if partialData == Size {
        i, flow := FinishSize(b);
      } else if partialData == Message {
        i, flow := FinishMessage(b);
      }
      if flow == NextBuffer {
        flow := ScanRecords(b, i, total);
      }
    }

    /** QUIC_STREAM_EVENT_RECEIVE, as written. */
    method Receive(event: seq<Buffer>) returns (flow: Flow)
      requires Valid()
      modifies this, remainderSizeBytes, remainderMessage
      ensures Valid() && remainderSizeBytes == old(remainderSizeBytes)
      ensures remainderMessage == old(remainderMessage) || fresh(remainderMessage)
      ensures var o := ReceiveEvent(old(parser), event, |DataOf(event)|);
              flow == o.flow && fileList == old(fileList) + o.out
              && (parser == o.parser)
    {
      hide ReceiveBuffer, ReceiveEvent, Continue, DataOf;
      var total := |DataOf(event)|;
      ghost var o := Outcome(parser, [], NextBuffer);
      flow := NextBuffer;
      var k := 0;
      ContinueStart(parser, event, total);
      while k < |event| && flow == NextBuffer
        invariant k <= |event| && flow == o.flow && parser == o.parser
        invariant Valid() && remainderSizeBytes == old(remainderSizeBytes)
        invariant remainderMessage == old(remainderMessage) || fresh(remainderMessage)
        invariant fileList == old(fileList) + o.out
        invariant ReceiveEvent(old(parser), event, total) == Continue(o, event[k..], total)
        decreases |event| - k, flow == NextBuffer
      {
        ContinueStep(o, event, k, total);
        flow := ReceiveOne(event[k], total);
        o := ReceiveBuffer(o.parser, event[k], total).After(o.out);
        k := k + 1;
      }
      ContinueDone(o, event[k..], total);
    }

    /** One buffer, with the payload of a completed size checked before it is taken, and
        as much of a skip as the buffer does not hold kept for the next. */
    method ReceiveOneRepaired(ghost u: Unread, b: Buffer, total: nat)
      requires Valid() && Sound(u) && parser == Standing(u)
      modifies this, remainderSizeBytes, remainderMessage
      ensures Valid() && remainderSizeBytes == old(remainderSizeBytes)
      ensures remainderMessage == old(remainderMessage) || fresh(remainderMessage)
      ensures var r := TakeBuffer(u, b);
              parser == Standing(r.unread) && fileList == old(fileList) + r.out
    {
      ResynchronisesExactly(u, b, total);
      if skipMessageBytes > |b.data| {
        NotSkipped(u, b, total);
        skipMessageBytes := skipMessageBytes - |b.data|;
        parser := parser.(skip := skipMessageBytes);
        return;
      }
      if partialData == Size && |b.data| >= SIZE_BYTES - remainderFilled {
        ghost var stream := u.rest + b.data;
        var i := SIZE_BYTES - remainderFilled;
        var header := remainderSizeBytes[..remainderFilled] + b.data[..i];
        assert header == stream[..SIZE_BYTES] && b.data[i..] == stream[SIZE_BYTES..];
        var size := Decode(header);
        if |b.data| - i < size {
          assert Incomplete(stream);
          if b.mallocSucceeds {
            SavePartialMessage(size, b.data[i..]);
          } else {
            skipMessageBytes := size - (|b.data| - i);
            partialData := NoPartial;
            parser := Parser(skipMessageBytes, NoPartialData);
          }
          return;
        }
      }
      var _ := ReceiveOne(b, total);
    }

    /** QUIC_STREAM_EVENT_RECEIVE without the early returns: for every cut of the bytes
        and whatever allocations fail it gives the records that do not lose theirs, and
        the one-shot parse if none fails. */
    method ReceiveRepaired(ghost u: Unread, event: seq<Buffer>)
      requires Valid() && Sound(u) && parser == Standing(u)
      modifies this, remainderSizeBytes, remainderMessage
      ensures Valid() && remainderSizeBytes == old(remainderSizeBytes)
      ensures remainderMessage == old(remainderMessage) || fresh(remainderMessage)
      ensures var r := TakeAll(u, event);
              parser == Standing(r.unread) && fileList == old(fileList) + r.out
      ensures !u.lost && (forall b <- event :: b.mallocSucceeds) ==>
                var q := Parse(u.rest + DataOf(event));
                parser == Holding(q.rest) && fileList == old(fileList) + q.messages
    {
      hide TakeBuffer, TakeAll, Standing, Parse, ModeFor, DataOf;
      ghost var v: Unread, seen: seq<Chunk> := u, [];
      TakeStart(u, event);
      for k := 0 to |event|
        invariant Valid() && remainderSizeBytes == old(remainderSizeBytes)
        invariant remainderMessage == old(remainderMessage) || fresh(remainderMessage)
        invariant Sound(v) && parser == Standing(v) && fileList == old(fileList) + seen
        invariant TakeAll(u, event) == TakeAll(v, event[k..]).After(seen)
      {
        TakeNext(v, event, k, seen);
        ReceiveOneRepaired(v, event[k], |DataOf(event)|);
        v, seen := TakeBuffer(v, event[k]).unread, seen + TakeBuffer(v, event[k]).out;
      }
      TakeEnd(v, event, seen);
      if !u.lost && forall b <- event :: b.mallocSucceeds {
        NothingLost(u.rest, event);
        NotLostStands(u, Parse(u.rest + DataOf(event)).rest);
      }
    }
  }

  lemma TakeStart(u: Unread, event: seq<Buffer>)
    requires Sound(u)
    ensures TakeAll(u, event) == TakeAll(u, event[0..]).After([])
  {
    assert event[0..] == event;
  }

  lemma TakeNext(v: Unread, event: seq<Buffer>, k: nat, seen: seq<Chunk>)
    requires Sound(v) && k < |event|
    ensures var r := TakeBuffer(v, event[k]);
            TakeAll(v, event[k..]).After(seen) == TakeAll(r.unread, event[k + 1..]).After(seen + r.out)
  {
    assert event[k..][1..] == event[k + 1..];
    TakenAfter(TakeAll(TakeBuffer(v, event[k]).unread, event[k + 1..]), TakeBuffer(v, event[k]).out, seen);
  }

  lemma TakeEnd(v: Unread, event: seq<Buffer>, seen: seq<Chunk>)
    requires Sound(v)
    ensures TakeAll(v, event[|event|..]).After(seen) == Taken(v, seen)
  {
  }

  lemma NotLostStands(u: Unread, rest: Chunk)
    requires !u.lost && Incomplete(rest)
    ensures u == Unread(u.rest, false) && Sound(Unread(rest, false)) && Standing(Unread(rest, false)) == Holding(rest)
  {
  }
}
