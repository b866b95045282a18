/** The client's side of the control stream: the table of announced files and the
    reassembly of acknowledged ids, with the fields of QsyncClient (client.h).

    The loop is proved against IdReader.ReadFrom as it is written, and against
    IdReader.IdsOf with the cursor advanced by the bytes that were taken. */
module ClientControl {
  import opened Bytes
  import opened IdReader

  /** The table after the entries of `ids` have been erased. */
  function Forget(infos: map<nat, Chunk>, ids: seq<nat>): (r: map<nat, Chunk>)
    ensures forall id :: id in r <==> id in infos && id !in ids
    ensures forall id :: id in r ==> r[id] == infos[id]
  {
    map id | id in infos && id !in ids :: infos[id]
  }

  /** What is read from one event, as written or with the cursor repaired. */
  function ReadEvent(repaired: bool, saved: Chunk, event: seq<Chunk>): (r: Reading)
    requires |saved| < ID_BYTES
    ensures |r.saved| < ID_BYTES
  {
    if repaired then IdsOf(saved + Flatten(event)) else ReadAll(saved, event)
  }

  datatype Table = Table(infos: map<nat, Chunk>, saved: Chunk)

  /** The table, and the bytes kept, after a run of events. */
  function AfterEvents(repaired: bool, t: Table, events: seq<seq<Chunk>>): Table
    requires |t.saved| < ID_BYTES
    decreases |events|
  {
    if events == [] then t
    else
      var r := ReadEvent(repaired, t.saved, events[0]);
      AfterEvents(repaired, Table(Forget(t.infos, r.ids), r.saved), events[1..])
  }

  function Buffers(events: seq<seq<Chunk>>): seq<Chunk> {
    if events == [] then [] else events[0] + Buffers(events[1..])
  }

  class ControlAcks {
    var fileInfos: map<nat, Chunk>
    var partialFileIdBytes: array<byte>
    var fileIdBytes: nat
    /** The bytes kept for the next id. */
    ghost var saved: Chunk

    ghost predicate Valid()
      reads this, partialFileIdBytes
    {
      && partialFileIdBytes.Length == ID_BYTES
      && fileIdBytes < ID_BYTES
      && saved == partialFileIdBytes[..fileIdBytes]
    }

    constructor (announced: map<nat, Chunk>)
      ensures Valid() && fileInfos == announced && saved == []
      ensures fresh(partialFileIdBytes)
    {
      fileInfos := announced;
      partialFileIdBytes := new byte[ID_BYTES];
      fileIdBytes := 0;
      saved := [];
    }

    /** memcpy into the partial id. */
    method Fill(src: Chunk, at: nat)
      requires at + |src| <= partialFileIdBytes.Length
      modifies partialFileIdBytes
      ensures partialFileIdBytes[..at + |src|] == old(partialFileIdBytes[..at]) + src
    {
      for k := 0 to |src|
        invariant partialFileIdBytes[..at] == old(partialFileIdBytes[..at])
        invariant partialFileIdBytes[at..at + k] == src[..k]
      {
        partialFileIdBytes[at + k] := src[k];
      }
      assert partialFileIdBytes[..at + |src|] == partialFileIdBytes[..at] + partialFileIdBytes[at..at + |src|];
      assert src[..|src|] == src;
    }

    /** Copies what is left of the buffer, or the bytes one id still needs. */
    method TakeBytes(b: Chunk, pos: nat) returns (complete: bool, id: nat)
      requires Valid() && pos <= |b|
      modifies `fileIdBytes, `saved, partialFileIdBytes
      ensures Valid()
      ensures var was, need := old(saved), ID_BYTES - |old(saved)|;
              complete == (|b| - pos >= need) &&
              if complete then saved == [] && id == Decode(was + b[pos..pos + need])
              else saved == was + b[pos..]
    {
      id := 0;
      var need := ID_BYTES - fileIdBytes;
      complete := |b| - pos >= need;
      if complete {
        Fill(b[pos..pos + need], fileIdBytes);
        assert partialFileIdBytes[..] == saved + b[pos..pos + need];
        id := Decode(partialFileIdBytes[..]);
        fileIdBytes, saved := 0, [];
      } else {
        Fill(b[pos..], fileIdBytes);
        fileIdBytes, saved := fileIdBytes + |b| - pos, saved + b[pos..];
      }
    }

    /** One buffer of a receive event; `repaired` advances by the bytes that were taken. */
    method ReadIds(b: Chunk, repaired: bool) returns (ids: seq<nat>)
      requires Valid()
      modifies `fileIdBytes, `saved, partialFileIdBytes
      ensures Valid()
      ensures Reading(ids, saved) ==
              if repaired then IdsOf(old(saved) + b) else ReadFrom(old(saved), b, 0)
    {
      hide Decode, IdsOf, ReadFrom;
      ids := [];
      var pos, again := 0, true;
      BeginIds(saved, b);
      while again
        invariant Valid() && pos <= |b| && (again && pos > 0 ==> saved == [])
        invariant again && repaired ==> IdsOf(old(saved) + b) == IdsOf(saved + b[pos..]).After(ids)
        invariant again && !repaired ==> ReadFrom(old(saved), b, 0) == ReadFrom(saved, b, pos).After(ids)
        invariant !again && repaired ==> IdsOf(old(saved) + b) == Reading(ids, saved)
        invariant !again && !repaired ==> ReadFrom(old(saved), b, 0) == Reading(ids, saved)
        decreases |b| - pos, again
      {
        ghost var was := saved;
        var step := if repaired then ID_BYTES - fileIdBytes else ID_BYTES;
        var complete, id := TakeBytes(b, pos);
        if complete {
          ReadStep(was, b, pos, ids);
          GroupStep(was, b, pos, pos + (ID_BYTES - |was|), ids);
          ids := ids + [id];
          again := pos + step < |b|;
          pos := if again then pos + step else |b|;
          EndIds([], b, pos, ids);
        } else {
          EndIds(was, b, pos, ids);
          again := false;
        }
      }
    }

    /** QUIC_STREAM_EVENT_RECEIVE on the control stream: every id read is erased. */
    method Receive(event: seq<Chunk>, repaired: bool)
      requires Valid()
      modifies this, partialFileIdBytes
      ensures Valid() && partialFileIdBytes == old(partialFileIdBytes)
      ensures var r := ReadEvent(repaired, old(saved), event);
              saved == r.saved && fileInfos == Forget(old(fileInfos), r.ids)
    {
      hide IdsOf, ReadAll, ReadFrom, Flatten;
      ghost var seen: seq<nat> := [];
      Start(saved, event);
      for i := 0 to |event|
        invariant Valid() && partialFileIdBytes == old(partialFileIdBytes)
        invariant fileInfos == Forget(old(fileInfos), seen)
        invariant if repaired then IdsOf(old(saved) + Flatten(event)) == IdsOf(saved + Flatten(event[i..])).After(seen)
                  else ReadAll(old(saved), event) == ReadAll(saved, event[i..]).After(seen)
      {
        NextChunk(saved, event, i, seen);
        var ids := ReadIds(event[i], repaired);
        fileInfos := Forget(fileInfos, ids);
        seen := seen + ids;
      }
      Finish(saved, event, seen);
    }
  }

  lemma BeginIds(saved: Chunk, b: Chunk)
    requires |saved| < ID_BYTES
    ensures IdsOf(saved + b) == IdsOf(saved + b[0..]).After([])
    ensures ReadFrom(saved, b, 0) == ReadFrom(saved, b, 0).After([])
  {
    assert b[0..] == b;
    hide *;
    AfterAfter(IdsOf(saved + b), [], []);
    AfterAfter(ReadFrom(saved, b, 0), [], []);
  }

  /** Where the loop stops: nothing left, or too little for an id. */
  lemma EndIds(saved: Chunk, b: Chunk, pos: nat, ids: seq<nat>)
    requires |saved| < ID_BYTES && pos <= |b|
    ensures [] + b[pos..] == b[pos..]
    ensures |saved| + |b| - pos < ID_BYTES ==>
      && IdsOf(saved + b[pos..]).After(ids) == Reading(ids, saved + b[pos..])
      && ReadFrom(saved, b, pos).After(ids) == Reading(ids, saved + b[pos..])
    ensures pos == |b| ==> saved + b[pos..] == saved
  {
  }

  lemma Start(saved: Chunk, event: seq<Chunk>)
    requires |saved| < ID_BYTES
    ensures IdsOf(saved + Flatten(event[0..])).After([]) == IdsOf(saved + Flatten(event))
    ensures ReadAll(saved, event[0..]).After([]) == ReadAll(saved, event)
  {
    hide IdsOf, ReadAll;
    assert event[0..] == event;
    AfterAfter(IdsOf(saved + Flatten(event)), [], []);
    AfterAfter(ReadAll(saved, event), [], []);
  }

  lemma NextChunk(saved: Chunk, event: seq<Chunk>, i: nat, seen: seq<nat>)
    requires |saved| < ID_BYTES && i < |event|
    ensures var r, later := IdsOf(saved + event[i]), Flatten(event[i + 1..]);
            IdsOf(saved + Flatten(event[i..])).After(seen) == IdsOf(r.saved + later).After(seen + r.ids)
    ensures var r := ReadFrom(saved, event[i], 0);
            ReadAll(saved, event[i..]).After(seen) == ReadAll(r.saved, event[i + 1..]).After(seen + r.ids)
  {
    var r, later := IdsOf(saved + event[i]), Flatten(event[i + 1..]);
    assert event[i..][1..] == event[i + 1..];
    var w := ReadFrom(saved, event[i], 0);
    assert ReadAll(saved, event[i..]) == ReadAll(w.saved, event[i + 1..]).After(w.ids);
    assert Flatten(event[i..]) == event[i] + later;
    hide *;
    Join(saved, event[i], later);
    IdsOfAppend(saved + event[i], later);
    AfterAfter(IdsOf(r.saved + later), r.ids, seen);
    AfterAfter(ReadAll(w.saved, event[i + 1..]), w.ids, seen);
  }

  lemma Finish(saved: Chunk, event: seq<Chunk>, seen: seq<nat>)
    requires |saved| < ID_BYTES
    ensures IdsOf(saved + Flatten(event[|event|..])).After(seen) == Reading(seen, saved)
    ensures ReadAll(saved, event[|event|..]).After(seen) == Reading(seen, saved)
  {
    NoSuffix(saved);
  }

  // ---- A run of events ----

  lemma {:induction false} ReadAllAppend(saved: Chunk, a: seq<Chunk>, b: seq<Chunk>)
    requires |saved| < ID_BYTES
    ensures ReadAll(saved, a + b) == ReadAll(ReadAll(saved, a).saved, b).After(ReadAll(saved, a).ids)
    decreases |a|
  {
    hide ReadFrom;
    if a == [] {
      assert a + b == b;
      AfterAfter(ReadAll(saved, b), [], []);
    } else {
      assert (a + b)[0] == a[0] && (a + b)[1..] == a[1..] + b;
      var first := ReadFrom(saved, a[0], 0);
      var rest := ReadAll(first.saved, a[1..]);
      ReadAllAppend(first.saved, a[1..], b);
      AfterAfter(ReadAll(rest.saved, b), rest.ids, first.ids);
    }
  }

  lemma ReadEventAppend(repaired: bool, saved: Chunk, a: seq<Chunk>, b: seq<Chunk>)
    requires |saved| < ID_BYTES
    ensures var r := ReadEvent(repaired, saved, a);
            ReadEvent(repaired, saved, a + b) == ReadEvent(repaired, r.saved, b).After(r.ids)
  {
    hide ReadAll, IdsOf, Flatten;
    if repaired {
      FlattenAppend(a, b);
      Join(saved, Flatten(a), Flatten(b));
      IdsOfAppend(saved + Flatten(a), Flatten(b));
    } else {
      ReadAllAppend(saved, a, b);
    }
  }

  lemma ForgetTwice(infos: map<nat, Chunk>, a: seq<nat>, b: seq<nat>)
    ensures Forget(Forget(infos, a), b) == Forget(infos, a + b) && Forget(infos, []) == infos
  {
  }

  /** However the stream is cut into events, they erase the ids of one reading of all
      their buffers. */
  lemma {:induction false} EventsAreOneReading(repaired: bool, t: Table, events: seq<seq<Chunk>>)
    requires |t.saved| < ID_BYTES
    ensures var r := ReadEvent(repaired, t.saved, Buffers(events));
            AfterEvents(repaired, t, events) == Table(Forget(t.infos, r.ids), r.saved)
    decreases |events|
  {
    if events == [] {
      NoSuffix(t.saved);
      ForgetTwice(t.infos, [], []);
    } else {
      hide ReadEvent, Forget;
      var r := ReadEvent(repaired, t.saved, events[0]);
      var later := ReadEvent(repaired, r.saved, Buffers(events[1..]));
      EventsAreOneReading(repaired, Table(Forget(t.infos, r.ids), r.saved), events[1..]);
      ReadEventAppend(repaired, t.saved, events[0], Buffers(events[1..]));
      ForgetTwice(t.infos, r.ids, later.ids);
    }
  }
}
