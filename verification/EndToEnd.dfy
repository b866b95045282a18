/** The layers put together: what the byte-level protocols carry is what the steps of
    Sync assume, and what a real source tree looks like after a run. */
module EndToEnd {
  import opened Bytes
  import opened Convergence
  import opened FindFiles
  import opened Framing
  import opened Sync
  import opened TempPaths
  import opened Traversal
  import opened Wrappers
  import ClientControl
  import Deframer
  import FinRace
  import IdReader
  import R = ReceivePipeline
  import S = SendPipeline

  // ---- Records on the control stream ----

  /** The Cap'n Proto encoding of fileinfo.capnp, of which only the inverse is used. */
  datatype Codec = Codec(pack: Record -> Chunk, unpack: Chunk -> Option<Record>)

  ghost predicate Inverts(c: Codec, records: seq<Record>) {
    forall r <- records :: c.unpack(c.pack(r)) == Some(r) && |c.pack(r)| < UINT32_RANGE
  }

  function Packed(c: Codec, records: seq<Record>): (r: seq<Chunk>)
    ensures |r| == |records|
  {
    seq(|records|, i requires 0 <= i < |records| => c.pack(records[i]))
  }

  /** The server's queue after the given messages: one record each, if all can be read. */
  function Unpacked(c: Codec, messages: seq<Chunk>): Option<seq<Record>> {
    if messages == [] then Some([])
    else
      var head, tail := c.unpack(messages[0]), Unpacked(c, messages[1..]);
      if head.None? || tail.None? then None else Some([head.value] + tail.value)
  }

  lemma {:induction false} UnpackedPacked(c: Codec, records: seq<Record>)
    requires Inverts(c, records)
    ensures Unpacked(c, Packed(c, records)) == Some(records) && AllFit(Packed(c, records))
  {
    if records != [] {
      assert Packed(c, records)[1..] == Packed(c, records[1..]);
      UnpackedPacked(c, records[1..]);
      assert records == [records[0]] + records[1..];
    } else {
      assert Packed(c, records) == [];
    }
  }

  /** The announced records reach the server's queue in order, however the stream is cut,
      if every event is read as its concatenation; and as written if the cut is intact. */
  lemma AnnouncementsArrive(c: Codec, records: seq<Record>, events: seq<seq<Deframer.Buffer>>)
    requires Inverts(c, records) && Deframer.StreamOf(events) == Frame(Packed(c, records))
    ensures Unpacked(c, Deframer.EventByEvent([], events).messages) == Some(records)
    ensures Deframer.EventByEvent([], events).rest == []
    ensures Deframer.RunIntact([], events) ==>
              var run := Deframer.Run(Deframer.INITIAL, events);
              Unpacked(c, run.out) == Some(records) && run.parser == Deframer.INITIAL
  {
    UnpackedPacked(c, records);
    Deframer.CutsDoNotMatter([], events);
    NoPrefix(Deframer.StreamOf(events));
    RoundTripExactly(Packed(c, records));
    if Deframer.RunIntact([], events) {
      Deframer.DeliversAllRecords(Packed(c, records), events);
    }
  }

  // ---- Acknowledgements on the control stream ----

  /** The first `k` acknowledgements arrive. */
  function Acknowledged(s: State, k: nat): State
    requires k <= |s.acks|
    decreases k
  {
    if k == 0 then s else Acknowledged(OnAck(s), k - 1)
  }

  lemma {:induction false} AcknowledgedKeys(s: State, k: nat)
    requires k <= |s.acks|
    ensures forall id :: id in Acknowledged(s, k).infos <==> id in s.infos && id !in s.acks[..k]
    decreases k
  {
    if k > 0 {
      AcknowledgedKeys(OnAck(s), k - 1);
      assert s.acks[..k] == [s.acks[0]] + s.acks[1..][..k - 1];
    }
  }

  predicate Distinct(ids: seq<nat>) {
    forall i, j :: 0 <= i < j < |ids| ==> ids[i] != ids[j]
  }

  lemma {:induction false} DistinctNeedAsMany(ids: seq<nat>, others: set<nat>)
    requires Distinct(ids) && forall id <- ids :: id in others
    ensures |ids| <= |others|
  {
    if ids != [] {
      var init, x := ids[..|ids| - 1], ids[|ids| - 1];
      forall id <- init ensures id in others - {x} {
        var i :| 0 <= i < |init| && init[i] == id;
        assert ids[i] == id;
      }
      DistinctNeedAsMany(init, others - {x});
    }
  }

  function Elements(ids: seq<nat>): (r: set<nat>)
    ensures |r| <= |ids| && forall id :: id in r <==> id in ids
  {
    if ids == [] then {} else {ids[0]} + Elements(ids[1..])
  }

  lemma {:induction false} SentBytes(ids: seq<nat>)
    ensures |IdReader.SendIds(ids)| == IdReader.ID_BYTES * |ids|
  {
    if ids != [] {
      SentBytes(ids[1..]);
    }
  }

  lemma OnceMeansDistinct(ids: seq<nat>)
    requires forall id: nat :: Times(ids, id) <= 1
    ensures Distinct(ids)
  {
    forall i, j | 0 <= i < j < |ids| ensures ids[i] != ids[j] {
      var x := ids[j];
      assert ids == ids[..j] + [x] + ids[j + 1..];
      assert Times(ids, x) >= Times(ids[..j], x) + 1;
      TimesIn(ids[..j], x);
      assert ids[..j][i] == ids[i];
    }
  }

  /** In a reachable state the acknowledged ids are different entries of the table. */
  lemma AcksAreEntries(records: seq<Record>, source: map<Path, Chunk>, fs: Tree, actions: seq<Action>, s: State)
    requires NumberedFromOne(records) && Reaches(records, source, Start(fs), actions, s)
    ensures Distinct(s.acks) && forall id <- s.acks :: id in s.infos && 1 <= id <= |records|
  {
    StartAccount(records, fs);
    RunKeepsAccount(records, source, Start(fs), actions, s);
    hide Reaches, NumberedFromOne, WireIsLatest;
    forall id <- s.acks ensures id in s.infos && 1 <= id <= |records| {
      TimesIn(s.acks, id);
      assert Pending(s, id) && Places(s, id) > 0;
    }
    forall id: nat ensures Times(s.acks, id) <= 1 {
      assert Places(s, id) <= 1;
    }
    OnceMeansDistinct(s.acks);
  }

  /** Erasing these ids leaves the same table, and fewer ids cannot. */
  lemma SameTable(s: State, k: nat, infos: map<nat, Chunk>, read: seq<nat>)
    requires k <= |s.acks| && infos.Keys == s.infos.Keys
    requires Distinct(s.acks) && forall id <- s.acks :: id in s.infos
    ensures read == s.acks[..k] ==> ClientControl.Forget(infos, read).Keys == Acknowledged(s, k).infos.Keys
    ensures |read| < k ==> ClientControl.Forget(infos, read).Keys != Acknowledged(s, k).infos.Keys
  {
    var ids := s.acks[..k];
    AcknowledgedKeys(s, k);
    hide Acknowledged;
    if |read| < k {
      if forall id <- ids :: id in read {
        DistinctNeedAsMany(ids, Elements(read));
        assert false;
      }
      var id :| id in ids && id !in read;
      assert id in infos.Keys && id in ClientControl.Forget(infos, read).Keys;
    }
  }

  /** The first `k` ids of a whole run that are on their way back, sent as eight bytes each
      and cut in any way into events and buffers, leave in the client's table what as many
      arrivals in Sync leave: always if the cursor is repaired, and as written if and only
      if the cut is intact. */
  lemma AcknowledgementsArrive(records: seq<Record>, source: map<Path, Chunk>, fs: Tree, actions: seq<Action>, s: State,
                               k: nat, infos: map<nat, Chunk>, events: seq<seq<Chunk>>)
    requires NumberedFromOne(records) && Reaches(records, source, Start(fs), actions, s)
    requires |records| < Pow256(IdReader.ID_BYTES) && infos.Keys == s.infos.Keys
    requires k <= |s.acks| && Flatten(ClientControl.Buffers(events)) == IdReader.SendIds(s.acks[..k])
    ensures ClientControl.AfterEvents(true, ClientControl.Table(infos, []), events).infos.Keys == Acknowledged(s, k).infos.Keys
    ensures ClientControl.AfterEvents(false, ClientControl.Table(infos, []), events).infos.Keys == Acknowledged(s, k).infos.Keys
            <==> IdReader.IntactIds([], ClientControl.Buffers(events))
  {
    var ids, buffers := s.acks[..k], ClientControl.Buffers(events);
    AcksAreEntries(records, source, fs, actions, s);
    hide Acknowledged, Distinct;
    hide Reaches, NumberedFromOne, Encode, Decode, Pow256, IdReader.IdsOf, IdReader.ReadAll, IdReader.IntactIds, IdReader.SendIds;
    forall i | 0 <= i < k ensures ids[i] < Pow256(IdReader.ID_BYTES) {
      assert ids[i] == s.acks[i] && s.acks[i] in s.acks;
    }
    IdReader.IdsRoundTrip(ids);
    NoPrefix(Flatten(buffers));
    ClientControl.EventsAreOneReading(true, ClientControl.Table(infos, []), events);
    ClientControl.EventsAreOneReading(false, ClientControl.Table(infos, []), events);
    IdReader.ReadAllFrom([], buffers);
    SameTable(s, k, infos, ids);
    if !IdReader.IntactIds([], buffers) {
      SentBytes(ids);
      SameTable(s, k, infos, IdReader.ReadAll([], buffers).ids);
    }
  }

  // ---- One transfer ----

  function AsFile(item: Option<Item>): Option<R.File> {
    if item.Some? && item.value.Plain? then Some(R.File(item.value.bytes, item.value.time)) else None
  }

  /** The server's context for the record of a data stream (QSyncServerWorkerCallback). */
  function ContextOf(job: Job): R.Context {
    R.Context(job.record.size, job.record.seconds * TICKS, R.SnapshotOf(AsFile(job.before)))
  }

  /** A file is about to be transferred into an existing directory, and what is at its
      path is what the server saw when it opened the data stream. */
  predicate ReadyToTransfer(source: map<Path, Chunk>, s: State, id: nat) {
    && id in s.jobs && id < Pow256(IdReader.ID_BYTES)
    && var r := s.jobs[id].record;
       && r.path != [] && r.path in source && IsFolderAt(s.fs, Parent(r.path))
       && s.jobs[id].before == Lookup(s.fs, r.path) && (r.path in s.fs ==> s.fs[r.path].Plain?)
  }

  /** The client reads the id from any cut of the eight bytes; every maximal interleaving
      of its send pipeline and every undisturbed interleaving of the server's receive
      pipeline, over any cut of the bytes sent if the run is clean and as written over any
      safe cut, then leave at the path what the Install step of Sync puts there: the
      source's bytes and the announced time if they are as many as announced, and
      otherwise what was there. */
  lemma TransferIsOneStep(source: map<Path, Chunk>, s: State, id: nat, now: int, request: seq<Chunk>,
                          recheck: bool, sends: seq<S.Action>, sent: S.State,
                          latched: bool, receives: seq<R.Action>, got: R.State, before: seq<Chunk>, last: Chunk)
    requires ReadyToTransfer(source, s, id)
    requires Flatten(request) == Encode(id, IdReader.ID_BYTES)
    requires S.Reaches(source[s.jobs[id].record.path], recheck, S.INITIAL, sends, sent)
    requires forall a :: !S.Enabled(sent, a)
    requires R.Reaches(ContextOf(s.jobs[id]), latched, R.Initial(AsFile(s.jobs[id].before)), receives, got)
    requires (forall a <- receives :: R.Smooth(a)) && FinRace.Ended(receives, got, before, last)
    requires R.Clean(latched, got)
             || FinRace.SafeCut(ContextOf(s.jobs[id]), AsFile(s.jobs[id].before), before == [], Flatten(before), last)
    requires got.received == Flatten(sent.wire)
    ensures IdReader.ReadAll([], request) == IdReader.Reading([id], [])
    ensures var r, after := s.jobs[id].record, OnInstall(source, s, id, now);
            && got.destination == AsFile(Lookup(after.fs, r.path))
            && (|source[r.path]| == r.size ==> got.destination == Some(R.File(source[r.path], r.seconds * TICKS)))
            && (|source[r.path]| != r.size ==> got.destination == AsFile(Lookup(s.fs, r.path)))
  {
    var job := s.jobs[id];
    IdReader.SingleIdAlwaysRead(id, request);
    S.TransferCompletes(source[job.record.path], recheck, sends, sent);
    if R.Clean(latched, got) {
      R.Delivers(ContextOf(job), latched, AsFile(job.before), receives, got);
    } else {
      FinRace.SafeCutDelivers(ContextOf(job), AsFile(job.before), before, last, receives, got);
      FinRace.ReceivedInAll(ContextOf(job), AsFile(job.before), before, last, receives, got);
    }
    hide S.Reaches, R.Reaches, S.Blocks, Encode, Flatten, TempPath, TouchParent;
  }

  // ---- A source tree ----

  /** The source still has, for every announced file, as many bytes as its entry said. */
  ghost predicate SizesHold(xs: seq<Located>, source: map<Path, Chunk>) {
    forall x <- xs :: x.node.kind == Regular && x.node.size.Some? ==>
      x.path in source && |source[x.path]| == x.node.size.value
  }

  /** What a finished run has made of the entry announced as `id`: a directory is one; a
      file has its size and is not older, to within a second; and if it was transferred it
      has the source's bytes and its time, to within a second. */
  predicate Arrived(x: Located, id: nat, source: map<Path, Chunk>, t: State) {
    && x.path in t.fs
    && (x.node.kind == Directory ==> t.fs[x.path].Folder?)
    && (x.node.kind == Regular ==>
          && t.fs[x.path].Plain? && Some(|t.fs[x.path].bytes|) == x.node.size && t.fs[x.path].time > x.node.time - TICKS
          && (id in t.installed ==>
                x.path in source && t.fs[x.path].bytes == source[x.path] && t.fs[x.path].time < x.node.time + TICKS))
  }

  ghost predicate EveryEntryArrives(xs: seq<Located>, source: map<Path, Chunk>, d: Tree)
    requires AllSized(xs)
  {
    forall actions, t :: Reaches(Numbered(0, xs), source, Start(d), actions, t) && Finished(Numbered(0, xs), t) ==>
      forall i :: 0 <= i < |xs| ==> Arrived(xs[i], i + 1, source, t)
  }

  /** From a source tree to the destination: of the records that FindFiles announces for a
      tree whose directories report sizes, every run that can go no further has delivered
      all, exactly when no file that needs a transfer has an announced temporary path; and
      then the entries themselves have arrived. */
  lemma TreeArrivesExactly(node: Node, hasStem: bool, source: map<Path, Chunk>, d: Tree)
    requires WellNamed(node) && IsFolder(node) && FoldersAreSized(Queued([RootOf(node, hasStem)]))
    requires SizesHold(Found(RootOf(node, hasStem)), source)
    ensures var xs := Found(RootOf(node, hasStem));
            AllSized(xs) && (Free(Numbered(0, xs), d) ==>
              && (EveryRunDelivers(Numbered(0, xs), source, d) <==> TempsClear(Numbered(0, xs), d))
              && (TempsClear(Numbered(0, xs), d) ==> EveryEntryArrives(xs, source, d)))
  {
    var xs := Found(RootOf(node, hasStem));
    RecordsOfTree(node, hasStem);
    var records := Numbered(0, xs);
    SizesAreSteady(xs, source);
    hide *;
    if Free(records, d) {
      EveryRunDeliversExactly(records, source, d);
      if TempsClear(records, d) {
        EntriesArrive(xs, source, d);
      }
    }
  }

  lemma EntriesArrive(xs: seq<Located>, source: map<Path, Chunk>, d: Tree)
    requires AllSized(xs) && WellOrdered(Numbered(0, xs)) && SourceSteady(Numbered(0, xs), source)
    requires Free(Numbered(0, xs), d) && TempsClear(Numbered(0, xs), d)
    ensures EveryEntryArrives(xs, source, d)
  {
    var records := Numbered(0, xs);
    hide Reaches, Finished, WellOrdered, SourceSteady, Free, TempsClear, Arrived, Converged, Settled, Numbered;
    forall actions, t, i | Reaches(records, source, Start(d), actions, t) && Finished(records, t) && 0 <= i < |xs|
      ensures Arrived(xs[i], i + 1, source, t)
    {
      RunConverges(records, source, d, actions, t);
      RecordTellsEntry(0, xs, i);
      assert records[i] in records;
      EntryArrives(xs[i], records[i], source, t);
    }
  }

  lemma EntryArrives(x: Located, r: Record, source: map<Path, Chunk>, t: State)
    requires Converged(source, r, t) && r.path == x.path && r.kind == x.node.kind && Some(r.size) == x.node.size
    requires x.node.time >= 0 ==> r.seconds * TICKS <= x.node.time < r.seconds * TICKS + TICKS
    requires x.node.time <= 0 ==> r.seconds * TICKS - TICKS < x.node.time <= r.seconds * TICKS
    ensures Arrived(x, r.id, source, t)
  {
  }

  lemma SizesAreSteady(xs: seq<Located>, source: map<Path, Chunk>)
    requires AllSized(xs) && SizesHold(xs, source)
    ensures SourceSteady(Numbered(0, xs), source)
  {
    var records := Numbered(0, xs);
    forall r <- records ensures r.kind == Regular ==> r.path in source && |source[r.path]| == r.size {
      var i :| 0 <= i < |records| && records[i] == r;
      assert xs[i] in xs;
    }
  }
}
