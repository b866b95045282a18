/** Reassembly of the eight-byte file ids the server sends back, one loop written twice
    in client.cpp (data stream and control stream): what it must compute, what it
    computes, and on which cuts of the stream the two agree. */
module IdReader {
  import opened Bytes

  const ID_BYTES := 8

  /** The ids looked up so far, and the zero to seven bytes kept for the next one. */
  datatype Reading = Reading(ids: seq<nat>, saved: Chunk)
  {
    function After(earlier: seq<nat>): Reading {
      this.(ids := earlier + ids)
    }
  }

  /** The meaning of the stream: consecutive little-endian groups of eight bytes. */
  function IdsOf(s: Chunk): (r: Reading)
    ensures |r.saved| < ID_BYTES
  {
    if |s| < ID_BYTES then Reading([], s)
    else IdsOf(s[ID_BYTES..]).After([Decode(s[..ID_BYTES])])
  }

  /** The server copies each 64-bit id into a buffer of its own. */
  function SendIds(ids: seq<nat>): Chunk {
    if ids == [] then [] else Encode(ids[0], ID_BYTES) + SendIds(ids[1..])
  }

  predicate Are64Bit(ids: seq<nat>) {
    forall k :: 0 <= k < |ids| ==> ids[k] < Pow256(ID_BYTES)
  }

  lemma {:induction false} IdsRoundTrip(ids: seq<nat>)
    requires Are64Bit(ids)
    ensures IdsOf(SendIds(ids)) == Reading(ids, [])
  {
    hide Encode, Decode, Pow256;
    if ids != [] {
      var head, tail := Encode(ids[0], ID_BYTES), SendIds(ids[1..]);
      Join([], head, tail);
      NoPrefix(head + tail);
      NoPrefix(head);
      DecodeEncode(ids[0], ID_BYTES);
      SmallRemainder(ids[0], Pow256(ID_BYTES));
      IdsRoundTrip(ids[1..]);
    }
  }

  lemma SmallRemainder(n: nat, d: nat)
    requires n < d
    ensures n % d == n
  {
  }

  lemma {:induction false} IdsOfAppend(a: Chunk, b: Chunk)
    ensures IdsOf(a + b) == IdsOf(IdsOf(a).saved + b).After(IdsOf(a).ids)
    decreases |a|
  {
    hide Decode;
    if |a| >= ID_BYTES {
      DropOfAppend(a, b, 0, ID_BYTES);
      IdsOfAppend(a[ID_BYTES..], b);
    }
  }

  /** The loop body as written, from position `pos` of a buffer: a completed partial id
      sets `FileIdBytes` to zero and then advances by eight minus it. */
  function ReadFrom(saved: Chunk, b: Chunk, pos: nat): (r: Reading)
    requires |saved| < ID_BYTES && pos <= |b|
    ensures |r.saved| < ID_BYTES
    decreases |b| - pos
  {
    var need := ID_BYTES - |saved|;
    if |b| - pos < need then Reading([], saved + b[pos..])
    else
      var id := Decode(saved + b[pos..pos + need]);
      var next := pos + ID_BYTES;
      if next < |b| then ReadFrom([], b, next).After([id]) else Reading([id], [])
  }

  function ReadAll(saved: Chunk, chunks: seq<Chunk>): (r: Reading)
    requires |saved| < ID_BYTES
    ensures |r.saved| < ID_BYTES
    decreases |chunks|
  {
    if chunks == [] then Reading([], saved)
    else
      var first := ReadFrom(saved, chunks[0], 0);
      ReadAll(first.saved, chunks[1..]).After(first.ids)
  }

  /** A partial id is never completed by a buffer that goes on after it. */
  predicate IntactIds(saved: Chunk, chunks: seq<Chunk>)
    decreases |chunks|
  {
    chunks == [] ||
    (&& (saved != [] ==> |saved| + |chunks[0]| <= ID_BYTES)
     && IntactIds(IdsOf(saved + chunks[0]).saved, chunks[1..]))
  }

  function KeptBytes(r: Reading): nat {
    ID_BYTES * |r.ids| + |r.saved|
  }

  lemma {:induction false} ReadingKeeps(saved: Chunk, b: Chunk, pos: nat)
    requires |saved| < ID_BYTES && pos <= |b|
    ensures KeptBytes(ReadFrom(saved, b, pos)) <= |saved| + |b| - pos
    decreases |b| - pos
  {
    if |b| - pos >= ID_BYTES - |saved| && pos + ID_BYTES < |b| {
      ReadingKeeps([], b, pos + ID_BYTES);
    }
  }

  lemma {:induction false} ReadingAllKeeps(saved: Chunk, chunks: seq<Chunk>)
    requires |saved| < ID_BYTES
    ensures KeptBytes(ReadAll(saved, chunks)) <= |saved| + |Flatten(chunks)|
    decreases |chunks|
  {
    if chunks != [] {
      ReadingKeeps(saved, chunks[0], 0);
      ReadingAllKeeps(ReadFrom(saved, chunks[0], 0).saved, chunks[1..]);
    }
  }

  lemma {:induction false} IdsKeepAll(s: Chunk)
    ensures KeptBytes(IdsOf(s)) == |s|
    decreases |s|
  {
    if |s| >= ID_BYTES {
      IdsKeepAll(s[ID_BYTES..]);
    }
  }

  lemma {:induction false} WholeIds(b: Chunk, pos: nat)
    requires pos <= |b|
    ensures ReadFrom([], b, pos) == IdsOf(b[pos..])
    decreases |b| - pos
  {
    hide Decode;
    NoPrefix(b[pos..]);
    if |b| - pos >= ID_BYTES {
      CutTwice(b, pos, 0, ID_BYTES);
      NoPrefix(b[pos..pos + ID_BYTES]);
      if pos + ID_BYTES < |b| {
        WholeIds(b, pos + ID_BYTES);
      } else {
        assert b[pos..][ID_BYTES..] == [];
      }
    }
  }

  /** One buffer: the groups of eight if it is intact, fewer bytes kept if it is not. */
  lemma OneBuffer(saved: Chunk, b: Chunk)
    requires |saved| < ID_BYTES
    ensures if saved != [] && |saved| + |b| > ID_BYTES
            then KeptBytes(ReadFrom(saved, b, 0)) < |saved| + |b|
            else ReadFrom(saved, b, 0) == IdsOf(saved + b)
  {
    hide Decode;
    assert b[0..] == b;
    if saved == [] {
      NoPrefix(b);
      WholeIds(b, 0);
    } else if |saved| + |b| > ID_BYTES {
      if ID_BYTES < |b| {
        ReadingKeeps([], b, ID_BYTES);
      }
    } else if |saved| + |b| == ID_BYTES {
      assert b[0..0 + ID_BYTES - |saved|] == b;
      assert (saved + b)[..ID_BYTES] == saved + b && (saved + b)[ID_BYTES..] == [];
    }
  }

  lemma {:induction false} ReadAllFrom(saved: Chunk, chunks: seq<Chunk>)
    requires |saved| < ID_BYTES
    ensures if IntactIds(saved, chunks) then ReadAll(saved, chunks) == IdsOf(saved + Flatten(chunks))
            else KeptBytes(ReadAll(saved, chunks)) < |saved| + |Flatten(chunks)|
    decreases |chunks|
  {
    if chunks == [] {
      NoSuffix(saved);
    } else {
      var b, later := chunks[0], Flatten(chunks[1..]);
      var first := ReadFrom(saved, b, 0);
      OneBuffer(saved, b);
      ReadingKeeps(saved, b, 0);
      if saved != [] && |saved| + |b| > ID_BYTES {
        ReadingAllKeeps(first.saved, chunks[1..]);
      } else {
        IdsKeepAll(saved + b);
        Join(saved, b, later);
        IdsOfAppend(saved + b, later);
        ReadAllFrom(first.saved, chunks[1..]);
      }
    }
  }

  /** The reader as written looks up exactly the ids of the stream, and keeps exactly the
      leftover bytes, if and only if no completed partial id has bytes after it. */
  lemma ExactlyWhenIntact(chunks: seq<Chunk>)
    ensures ReadAll([], chunks) == IdsOf(Flatten(chunks)) <==> IntactIds([], chunks)
  {
    ReadAllFrom([], chunks);
    NoPrefix(Flatten(chunks));
    IdsKeepAll(Flatten(chunks));
  }

  /** A data stream carries a single id and its end: there every cut is read right. */
  lemma SingleIdAlwaysRead(id: nat, chunks: seq<Chunk>)
    requires id < Pow256(ID_BYTES) && Flatten(chunks) == Encode(id, ID_BYTES)
    ensures ReadAll([], chunks) == Reading([id], [])
  {
    hide Encode, Decode, Pow256;
    ShortStreamIsIntact([], chunks);
    ExactlyWhenIntact(chunks);
    NoSuffix(Encode(id, ID_BYTES));
    assert [id][1..] == [];
    IdsRoundTrip([id]);
  }

  lemma {:induction false} ShortStreamIsIntact(saved: Chunk, chunks: seq<Chunk>)
    requires |saved| + |Flatten(chunks)| <= ID_BYTES && |saved| < ID_BYTES
    ensures IntactIds(saved, chunks)
    decreases |chunks|
  {
    if chunks != [] {
      IdsKeepAll(saved + chunks[0]);
      ShortStreamIsIntact(IdsOf(saved + chunks[0]).saved, chunks[1..]);
    }
  }

  /** Two acknowledgements cut as 4 bytes and 12: the second is never seen. */
  lemma SecondIdLost(ids: seq<nat>, chunks: seq<Chunk>)
    requires |chunks| == 2 && |chunks[0]| == 4 && |chunks[1]| == 12
    requires |ids| == 2 && Flatten(chunks) == SendIds(ids)
    ensures |ReadAll([], chunks).ids| == 1 && ReadAll([], chunks) != IdsOf(Flatten(chunks))
  {
    hide Decode, Encode;
    var a, b := chunks[0], chunks[1];
    NoPrefix(a);
    assert a[0..] == a;
    assert ReadFrom([], a, 0) == Reading([], a);
    assert |ReadFrom(a, b, 0).ids| == 1;
    assert IdsOf([] + a).saved == a;
    assert chunks[1..][1..] == [];
    assert ReadAll(a, chunks[1..]).ids == ReadFrom(a, b, 0).ids + [];
    ExactlyWhenIntact(chunks);
  }

  // ---- The steps of the loop, for the method that performs them ----

  lemma AfterAfter(r: Reading, earlier: seq<nat>, earliest: seq<nat>)
    ensures r.After(earlier).After(earliest) == r.After(earliest + earlier)
    ensures r.After([]) == r
  {
  }

  lemma ReadStep(saved: Chunk, b: Chunk, pos: nat, ids: seq<nat>)
    requires |saved| < ID_BYTES && pos <= |b| && |b| - pos >= ID_BYTES - |saved|
    ensures var next, id := pos + ID_BYTES, Decode(saved + b[pos..pos + ID_BYTES - |saved|]);
            ReadFrom(saved, b, pos).After(ids) ==
            if next < |b| then ReadFrom([], b, next).After(ids + [id]) else Reading(ids + [id], [])
  {
    hide Decode;
    var next, id := pos + ID_BYTES, Decode(saved + b[pos..pos + ID_BYTES - |saved|]);
    if next < |b| {
      AfterAfter(ReadFrom([], b, next), [id], ids);
    }
  }

  lemma GroupStep(saved: Chunk, b: Chunk, pos: nat, next: nat, ids: seq<nat>)
    requires pos <= next <= |b| && |saved| + (next - pos) == ID_BYTES
    ensures IdsOf(saved + b[pos..]).After(ids) == IdsOf(b[next..]).After(ids + [Decode(saved + b[pos..next])])
  {
    hide Decode, IdsOf;
    GroupSplit(saved, b, pos, next);
    TakeGroup(saved + b[pos..], saved + b[pos..next], b[next..], ids);
  }

  lemma GroupSplit(saved: Chunk, b: Chunk, pos: nat, next: nat)
    requires pos <= next <= |b|
    ensures saved + b[pos..] == (saved + b[pos..next]) + b[next..]
  {
  }

  lemma TakeGroup(s: Chunk, group: Chunk, tail: Chunk, ids: seq<nat>)
    requires |group| == ID_BYTES && s == group + tail
    ensures IdsOf(s).After(ids) == IdsOf(tail).After(ids + [Decode(group)])
  {
    assert s[..ID_BYTES] == group && s[ID_BYTES..] == tail;
    AfterAfter(IdsOf(tail), [Decode(group)], ids);
  }
}
