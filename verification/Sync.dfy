/** A whole run: records are announced, served, acknowledged, asked for, transferred and
    installed, all interleaved. One transfer is one step; EndToEnd says what it moves. */
module Sync {
  import opened Bytes
  import opened Traversal
  import opened FindFiles
  import opened Wrappers

  // ---- The destination tree and the server's decision ----

  datatype Item = Folder(time: int) | Plain(bytes: Chunk, time: int) | Special(time: int)

  type Tree = map<Path, Item>

  predicate Matches(item: Item, kind: Kind) {
    match kind
    case Directory => item.Folder?
    case Regular => item.Plain?
    case Unsupported => false
  }

  /** DoesFileNeedUpdate when nothing it asks of the file system fails. An entry of
      another type is never written to. */
  predicate NeedsUpdate(fs: Tree, r: Record) {
    if r.path !in fs then true
    else if !Matches(fs[r.path], r.kind) then false
    else if r.seconds * TICKS > fs[r.path].time then true
    else r.kind == Regular && |fs[r.path].bytes| != r.size
  }

  /** Which of its calls fail. */
  datatype ReadErrors = ReadErrors(existence: bool, status: bool, time: bool, size: bool)

  /** An error never causes an update, and prevents one unless it was not asked for. */
  predicate DoesFileNeedUpdate(fs: Tree, r: Record, e: ReadErrors): (update: bool)
    ensures update ==> NeedsUpdate(fs, r)
    ensures e.existence || (r.path in fs && (e.status || e.time)) ==> !update
    ensures NeedsUpdate(fs, r) && !update ==> e.existence || (r.path in fs && (e.status || e.time || e.size))
    ensures r.path in fs && r.seconds * TICKS > fs[r.path].time && !e.existence && !e.status && !e.time ==>
              update == Matches(fs[r.path], r.kind)
  {
    if e.existence then false
    else if r.path !in fs then true
    else if e.status || !Matches(fs[r.path], r.kind) || e.time then false
    else if r.seconds * TICKS > fs[r.path].time then true
    else r.kind == Regular && !e.size && |fs[r.path].bytes| != r.size
  }

  /** Whatever fails: an entry of another type is left alone, and so is a directory at least
      as new as announced and a file that also has the announced size. */
  lemma LeftAlone(fs: Tree, r: Record, e: ReadErrors)
    requires r.path in fs
    ensures fs[r.path].Special? || r.kind == Unsupported ==> !DoesFileNeedUpdate(fs, r, e)
    ensures fs[r.path].Folder? && r.kind == Regular ==> !DoesFileNeedUpdate(fs, r, e)
    ensures fs[r.path].Plain? && r.kind == Directory ==> !DoesFileNeedUpdate(fs, r, e)
    ensures fs[r.path].Folder? && fs[r.path].time >= r.seconds * TICKS ==> !DoesFileNeedUpdate(fs, r, e)
    ensures fs[r.path].Plain? && fs[r.path].time >= r.seconds * TICKS && |fs[r.path].bytes| == r.size ==>
              !DoesFileNeedUpdate(fs, r, e)
    ensures fs[r.path].Plain? && fs[r.path].time >= r.seconds * TICKS && e.size ==> !DoesFileNeedUpdate(fs, r, e)
  {
  }

  predicate IsFolderAt(fs: Tree, p: Path) {
    p in fs && fs[p].Folder?
  }

  /** Creating or renaming an entry sets the time of the directory that holds it. */
  function TouchParent(fs: Tree, p: Path, now: int): Tree {
    if p == [] || !IsFolderAt(fs, Parent(p)) then fs else fs[Parent(p) := Folder(now)]
  }

  function TempPath(p: Path): Path {
    if p == [] then [] else Parent(p) + [p[|p| - 1] + ".qsync"]
  }

  lemma TempPathInjective(p: Path, q: Path)
    requires p != [] && q != [] && TempPath(p) == TempPath(q)
    ensures p == q
  {
    var a, b := p[|p| - 1], q[|q| - 1];
    assert TempPath(p)[|p| - 1] == a + ".qsync" && TempPath(q)[|q| - 1] == b + ".qsync";
    assert a == (a + ".qsync")[..|a + ".qsync"| - 6] == (b + ".qsync")[..|b + ".qsync"| - 6] == b;
    assert Parent(p) == TempPath(p)[..|p| - 1] == Parent(q);
    assert p == Parent(p) + [a] && q == Parent(q) + [b];
  }

  lemma TempIsLonger(p: Path)
    requires p != []
    ensures TempPath(p) != p && TempPath(p) != Parent(p)
  {
    assert |TempPath(p)[|p| - 1]| == |p[|p| - 1]| + 6;
    assert |TempPath(p)| == |p|;
  }

  // ---- States and steps ----

  datatype Stage = Asked | Taken | Writing

  /** A file the server has opened a data stream for, and what was there then. */
  datatype Job = Job(record: Record, before: Option<Item>, stage: Stage)

  datatype State = State(
    announced: nat,             // how many records the client has announced
    infos: map<nat, Record>,    // the client's FileInfos
    wire: seq<Record>,          // on the control stream or in the server's queue
    acks: seq<nat>,             // ids on their way back on the control stream
    jobs: map<nat, Job>,        // data streams that are open
    resolved: multiset<nat>,    // acknowledged to the client, or installed
    silent: multiset<nat>,      // directories updated, for which no reply is sent
    refused: multiset<nat>,     // create_directory failed: no reply either
    abandoned: multiset<nat>,   // transfers that ended without an install
    unopened: multiset<nat>,    // asked for, but the client could not open the file
    installed: set<nat>,
    fs: Tree)

  datatype Action =
    | Announce
    | Serve(now: int)
    | AckArrives
    | AskArrives(id: nat)
    | OpenTemp(id: nat, now: int)
    | Install(id: nat, now: int)

  function Start(fs: Tree): State {
    State(0, map[], [], [], map[], multiset{}, multiset{}, multiset{}, multiset{}, multiset{}, {}, fs)
  }

  predicate InStage(s: State, id: nat, stage: Stage) {
    id in s.jobs && s.jobs[id].stage == stage
  }

  predicate Enabled(records: seq<Record>, s: State, a: Action) {
    match a
    case Announce => s.announced < |records|
    case Serve(_) => s.wire != []
    case AckArrives => s.acks != []
    case AskArrives(id) => InStage(s, id, Asked)
    case OpenTemp(id, _) => InStage(s, id, Taken)
    case Install(id, _) => InStage(s, id, Writing)
  }

  function Lookup(fs: Tree, p: Path): Option<Item> {
    if p in fs then Some(fs[p]) else None
  }

  function OnAnnounce(s: State, r: Record): State {
    s.(announced := s.announced + 1, infos := s.infos[r.id := r], wire := s.wire + [r])
  }

  /** The directory branch of the server's worker: None if create_directory fails. */
  function UpdatedFolder(fs: Tree, r: Record, now: int): Option<Tree> {
    var folder := Folder(r.seconds * TICKS);
    if r.path in fs then Some(fs[r.path := folder])
    else if r.path == [] || !IsFolderAt(fs, Parent(r.path)) then None
    else Some(TouchParent(fs, r.path, now)[r.path := folder])
  }

  function Acknowledge(s: State, r: Record): State {
    s.(acks := s.acks + [r.id])
  }

  function Refuse(s: State, r: Record): State {
    s.(refused := s.refused + multiset{r.id})
  }

  function UpdateSilently(s: State, r: Record, fs: Tree): State {
    s.(silent := s.silent + multiset{r.id}, fs := fs)
  }

  function OpenStream(s: State, r: Record): State {
    s.(jobs := s.jobs[r.id := Job(r, Lookup(s.fs, r.path), Asked)])
  }

  /** QSyncServerWorkerCallback on one record. */
  function Decide(s: State, r: Record, now: int): State {
    if !NeedsUpdate(s.fs, r) then Acknowledge(s, r)
    else if r.kind == Directory then
      var updated := UpdatedFolder(s.fs, r, now);
      if updated.None? then Refuse(s, r) else UpdateSilently(s, r, updated.value)
    else OpenStream(s, r)
  }

  function OnServe(s: State, now: int): State
    requires s.wire != []
  {
    Decide(s.(wire := s.wire[1..]), s.wire[0], now)
  }

  /** Who hears of a served record, and what becomes of the tree: only a current entry, or
      one of another type, is acknowledged; a file goes to a data stream; a directory is
      made current without a reply, and if it cannot be created nobody is told. */
  lemma ServeEnds(s: State, now: int)
    requires s.wire != [] && s.wire[0].kind != Unsupported
    ensures var r, t := s.wire[0], OnServe(s, now);
            var there := r.path in s.fs;
            var current := there && (match s.fs[r.path]
              case Folder(time) => r.kind == Regular || time >= r.seconds * TICKS
              case Plain(bytes, time) => r.kind == Directory || (time >= r.seconds * TICKS && |bytes| == r.size)
              case Special(_) => true);
            var orphan := !there && (r.path == [] || !IsFolderAt(s.fs, Parent(r.path)));
            && t.acks == (if current then s.acks + [r.id] else s.acks)
            && t.jobs == (if !current && r.kind == Regular then s.jobs[r.id := Job(r, Lookup(s.fs, r.path), Asked)] else s.jobs)
            && t.silent == s.silent + (if !current && r.kind == Directory && !orphan then multiset{r.id} else multiset{})
            && t.refused == s.refused + (if r.kind == Directory && orphan then multiset{r.id} else multiset{})
            && (current || r.kind == Regular || orphan ==> t.fs == s.fs)
            && (!current && r.kind == Directory && !orphan ==> Lookup(t.fs, r.path) == Some(Folder(r.seconds * TICKS)))
  {
    assert s.silent + multiset{} == s.silent && s.refused + multiset{} == s.refused;
    hide Parent;
  }

  function OnAck(s: State): State
    requires s.acks != []
  {
    s.(acks := s.acks[1..], infos := s.infos - {s.acks[0]}, resolved := s.resolved + multiset{s.acks[0]})
  }

  function Abandon(s: State, id: nat): State {
    s.(jobs := s.jobs - {id}, abandoned := s.abandoned + multiset{id})
  }

  function GiveUp(s: State, id: nat): State {
    s.(jobs := s.jobs - {id}, unopened := s.unopened + multiset{id})
  }

  /** The client looks the id up and opens the file; `source` are the files it can open.
      Only then does it take the entry out of its table: if the file cannot be opened it
      shuts the stream down and the entry stays. */
  function OnAsk(source: map<Path, Chunk>, s: State, id: nat): State
    requires id in s.jobs
  {
    if id !in s.infos then Abandon(s, id)
    else if s.jobs[id].record.path !in source then GiveUp(s, id)
    else s.(infos := s.infos - {id}, jobs := s.jobs[id := s.jobs[id].(stage := Taken)])
  }

  function OpenedTemp(fs: Tree, p: Path, now: int): Option<Tree> {
    if p == [] || !IsFolderAt(fs, Parent(p)) then None
    else
      var temp := TempPath(p);
      if temp !in fs then Some(TouchParent(fs, p, now)[temp := Plain([], now)])
      else if fs[temp].Plain? then Some(fs[temp := Plain([], now)])
      else None
  }

  function OnOpen(s: State, id: nat, now: int): State
    requires id in s.jobs
  {
    var opened' := OpenedTemp(s.fs, s.jobs[id].record.path, now);
    if opened'.None? then Abandon(s, id)
    else s.(jobs := s.jobs[id := s.jobs[id].(stage := Writing)], fs := opened'.value)
  }

  /** The file seen at the snapshot, if it is still there, must not have changed. */
  predicate Unchanged(before: Option<Item>, current: Option<Item>) {
    before.Some? && current.Some? ==>
      && before.value.Plain? && current.value.Plain?
      && |current.value.bytes| == |before.value.bytes| && current.value.time == before.value.time
  }

  /** The exits that remove the temporary file. */
  function Discard(s: State, id: nat, now: int): State
    requires id in s.jobs
  {
    var p := s.jobs[id].record.path;
    var fs := if p == [] || TempPath(p) !in s.fs then s.fs else TouchParent(s.fs, p, now) - {TempPath(p)};
    Abandon(s, id).(fs := fs)
  }

  /** The rename replaces a file, or puts one into an existing directory. */
  predicate CanRename(fs: Tree, p: Path) {
    (p in fs ==> fs[p].Plain?) && p != [] && IsFolderAt(fs, Parent(p))
  }

  function Replace(s: State, id: nat, bytes: Chunk, now: int): State
    requires id in s.jobs
  {
    var r := s.jobs[id].record;
    var fs := TouchParent(s.fs, r.path, now) - {TempPath(r.path)};
    s.(jobs := s.jobs - {id}, resolved := s.resolved + multiset{id}, installed := s.installed + {id},
       fs := fs[r.path := Plain(bytes, r.seconds * TICKS)])
  }

  /** What the stream's last worker does, for bytes that have all arrived: validation,
      the size test, the rename. */
  function OnInstall(source: map<Path, Chunk>, s: State, id: nat, now: int): State
    requires id in s.jobs
  {
    var r := s.jobs[id].record;
    var same := Unchanged(s.jobs[id].before, Lookup(s.fs, r.path));
    if r.path !in source || (same && |source[r.path]| != r.size) then Abandon(s, id)
    else if !same || !CanRename(s.fs, r.path) then Discard(s, id, now)
    else Replace(s, id, source[r.path], now)
  }

  /** The entry of a transfer's path has been replaced, or another kind of entry has come
      up, since the data stream was opened. */
  predicate ChangedSince(job: Job, fs: Tree) {
    && job.before.Some? && job.record.path in fs
    && !(job.before.value.Plain? && fs[job.record.path].Plain?
         && |fs[job.record.path].bytes| == |job.before.value.bytes| && fs[job.record.path].time == job.before.value.time)
  }

  /** How a transfer can end: with the source's bytes and the announced time in place and
      the temporary file gone, exactly if nothing has changed at the path, as many bytes as
      announced have come and the rename is possible. If only the number of bytes is wrong
      the temporary file stays; otherwise it is removed, and nothing else but the time of
      its directory changes. */
  lemma InstallEnds(source: map<Path, Chunk>, s: State, id: nat, now: int)
    requires id in s.jobs && s.jobs[id].record.path != [] && s.jobs[id].record.path in source
    ensures var job, t, p := s.jobs[id], OnInstall(source, s, id, now), s.jobs[id].record.path;
            var changed, fits := ChangedSince(job, s.fs), |source[p]| == job.record.size;
            var possible := IsFolderAt(s.fs, Parent(p)) && (p in s.fs ==> s.fs[p].Plain?);
            && id !in t.jobs
            && (id in t.installed <==> id in s.installed || (!changed && fits && possible))
            && (!changed && fits && possible ==>
                  Lookup(t.fs, p) == Some(Plain(source[p], job.record.seconds * TICKS)) && TempPath(p) !in t.fs)
            && (!changed && !fits ==> t.fs == s.fs)
            && (changed || (fits && !possible) ==>
                  TempPath(p) !in t.fs
                  && forall q :: q != TempPath(p) && q != Parent(p) ==> Lookup(t.fs, q) == Lookup(s.fs, q))
  {
    TempIsLonger(s.jobs[id].record.path);
    hide TempPath, Parent;
  }

  function Step(records: seq<Record>, source: map<Path, Chunk>, s: State, a: Action): State
    requires Enabled(records, s, a)
  {
    match a
    case Announce => OnAnnounce(s, records[s.announced])
    case Serve(now) => OnServe(s, now)
    case AckArrives => OnAck(s)
    case AskArrives(id) => OnAsk(source, s, id)
    case OpenTemp(id, now) => OnOpen(s, id, now)
    case Install(id, now) => OnInstall(source, s, id, now)
  }

  predicate Reaches(records: seq<Record>, source: map<Path, Chunk>, s: State, actions: seq<Action>, t: State)
    decreases |actions|
  {
    if actions == [] then s == t
    else Enabled(records, s, actions[0])
         && Reaches(records, source, Step(records, source, s, actions[0]), actions[1..], t)
  }

  // ---- Exactly-once accounting of ids ----

  function Ids(rs: seq<Record>): seq<nat> {
    if rs == [] then [] else [rs[0].id] + Ids(rs[1..])
  }

  function Times(xs: seq<nat>, id: nat): nat {
    multiset(xs)[id]
  }

  /** In how many places an id is. */
  function Places(s: State, id: nat): nat {
    Times(Ids(s.wire), id) + Times(s.acks, id) + (if id in s.jobs then 1 else 0)
    + s.resolved[id] + s.silent[id] + s.refused[id] + s.abandoned[id] + s.unopened[id]
  }

  lemma TimesHead(xs: seq<nat>, id: nat)
    requires xs != []
    ensures Times(xs, id) == (if id == xs[0] then 1 else 0) + Times(xs[1..], id)
  {
    assert xs == [xs[0]] + xs[1..];
  }

  lemma TimesLast(xs: seq<nat>, x: nat, id: nat)
    ensures Times(xs + [x], id) == Times(xs, id) + (if id == x then 1 else 0)
  {
  }

  lemma TimesIn(xs: seq<nat>, id: nat)
    ensures Times(xs, id) > 0 <==> id in xs
  {
  }

  /** The counter numbers the records from one. */
  predicate NumberedFromOne(records: seq<Record>) {
    forall i :: 0 <= i < |records| ==> records[i].id == i + 1
  }

  /** Whether the client must still hold the entry of `id`. */
  predicate Pending(s: State, id: nat) {
    id in Ids(s.wire) || id in s.acks || InStage(s, id, Asked) || id in s.silent || id in s.refused
    || id in s.unopened
  }

  ghost predicate AccountInv(records: seq<Record>, s: State) {
    && s.announced <= |records|
    && (forall id: nat :: Places(s, id) == if 1 <= id <= s.announced then 1 else 0)
    && (forall id: nat :: id in s.infos <==> Pending(s, id))
    && WireIsLatest(records, s)
    && (forall id <- s.jobs :: 1 <= id <= s.announced && s.jobs[id].record == records[id - 1])
  }

  /** The wire carries the records announced last, in order. */
  ghost predicate WireIsLatest(records: seq<Record>, s: State)
    requires s.announced <= |records|
  {
    |s.wire| <= s.announced && s.wire == records[s.announced - |s.wire|..s.announced]
  }

  lemma {:induction false} IdsAppend(a: seq<Record>, b: seq<Record>)
    ensures Ids(a + b) == Ids(a) + Ids(b)
  {
    if a == [] {
      assert a + b == b;
    } else {
      assert (a + b)[1..] == a[1..] + b;
      IdsAppend(a[1..], b);
    }
  }

  lemma {:induction false} IdsMember(rs: seq<Record>, i: nat)
    requires i < |rs|
    ensures rs[i].id in Ids(rs)
  {
    if i > 0 {
      IdsMember(rs[1..], i - 1);
      assert Ids(rs)[1..] == Ids(rs[1..]);
    }
  }

  /** The invariant carries over when every id stays in as many places. */
  ghost predicate SamePlaces(s: State, t: State) {
    forall id: nat :: Places(t, id) == Places(s, id)
  }

  lemma AnnouncePlaces(s: State, r: Record)
    ensures forall id: nat :: Places(OnAnnounce(s, r), id) == Places(s, id) + if id == r.id then 1 else 0
    ensures forall id: nat :: Pending(OnAnnounce(s, r), id) <==> Pending(s, id) || id == r.id
  {
    IdsAppend(s.wire, [r]);
    assert Ids([r]) == [r.id];
    forall id: nat ensures Places(OnAnnounce(s, r), id) == Places(s, id) + if id == r.id then 1 else 0 {
      TimesLast(Ids(s.wire), r.id, id);
    }
  }

  lemma AnnounceKeepsAccount(records: seq<Record>, s: State)
    requires NumberedFromOne(records) && AccountInv(records, s) && s.announced < |records|
    ensures AccountInv(records, OnAnnounce(s, records[s.announced]))
    ensures records[s.announced].id !in s.infos
  {
    var r := records[s.announced];
    hide Places, Pending;
    AnnouncePlaces(s, r);
    assert Places(s, r.id) == 0;
    NowhereMeansNotPending(s, r.id);
  }

  lemma NowhereMeansNotPending(s: State, id: nat)
    requires Places(s, id) == 0
    ensures !Pending(s, id) && id !in s.jobs
  {
    TimesIn(Ids(s.wire), id);
    TimesIn(s.acks, id);
  }

  /** Taking the first record off the control stream. */
  lemma HeadOfWire(records: seq<Record>, s: State)
    requires NumberedFromOne(records) && AccountInv(records, s) && s.wire != []
    ensures var r := s.wire[0];
            && 1 <= r.id <= s.announced && r == records[r.id - 1] && r.id in s.infos
            && r.id !in Ids(s.wire[1..]) && r.id !in s.acks && r.id !in s.jobs
  {
    var r := s.wire[0];
    assert Ids(s.wire)[0] == r.id && Ids(s.wire)[1..] == Ids(s.wire[1..]);
    assert r == records[s.announced - |s.wire|];
    TimesHead(Ids(s.wire), r.id);
    TimesIn(Ids(s.wire[1..]), r.id);
    TimesIn(s.acks, r.id);
    assert Places(s, r.id) == 1;
    assert Pending(s, r.id);
  }

  /** The server's decision puts the id of its record in exactly one more place, from
      which the client is still to hear, and changes nothing else but the tree. */
  ghost predicate OneMorePlace(s: State, t: State, r: Record) {
    && (forall id: nat :: Places(t, id) == Places(s, id) + if id == r.id then 1 else 0)
    && (forall id: nat :: Pending(t, id) <==> Pending(s, id) || id == r.id)
    && t.announced == s.announced && t.wire == s.wire && t.infos == s.infos
    && (forall id <- t.jobs :: (id in s.jobs && t.jobs[id] == s.jobs[id]) || (id == r.id && t.jobs[id].record == r))
  }

  lemma AcknowledgePlaces(s: State, r: Record)
    ensures OneMorePlace(s, Acknowledge(s, r), r)
  {
    forall id: nat ensures Times(s.acks + [r.id], id) == Times(s.acks, id) + (if id == r.id then 1 else 0) {
      TimesLast(s.acks, r.id, id);
    }
  }

  lemma RefusePlaces(s: State, r: Record)
    ensures OneMorePlace(s, Refuse(s, r), r)
  {
  }

  lemma SilentPlaces(s: State, r: Record, fs: Tree)
    ensures OneMorePlace(s, UpdateSilently(s, r, fs), r)
  {
  }

  lemma StreamPlaces(s: State, r: Record)
    requires r.id !in s.jobs
    ensures OneMorePlace(s, OpenStream(s, r), r)
  {
  }

  lemma DecidePlaces(s: State, r: Record, now: int)
    requires r.id !in s.jobs
    ensures OneMorePlace(s, Decide(s, r, now), r)
  {
    hide OneMorePlace, Acknowledge, Refuse, UpdateSilently, OpenStream;
    if !NeedsUpdate(s.fs, r) {
      AcknowledgePlaces(s, r);
    } else if r.kind == Directory {
      var updated := UpdatedFolder(s.fs, r, now);
      if updated.None? {
        RefusePlaces(s, r);
      } else {
        SilentPlaces(s, r, updated.value);
      }
    } else {
      StreamPlaces(s, r);
    }
  }

  /** The record has left the wire and not arrived anywhere yet. */
  lemma WirePlaces(s: State, u: State)
    requires s.wire != [] && u == s.(wire := s.wire[1..]) && s.wire[0].id !in Ids(s.wire[1..])
    ensures forall id: nat :: Places(s, id) == Places(u, id) + if id == s.wire[0].id then 1 else 0
    ensures forall id: nat :: Pending(s, id) <==> Pending(u, id) || id == s.wire[0].id
  {
    assert Ids(s.wire)[0] == s.wire[0].id && Ids(s.wire)[1..] == Ids(s.wire[1..]);
    assert Ids(s.wire) == [s.wire[0].id] + Ids(s.wire[1..]);
    forall id: nat ensures Places(s, id) == Places(u, id) + if id == s.wire[0].id then 1 else 0 {
      TimesHead(Ids(s.wire), id);
    }
  }

  lemma AckKeepsAccount(records: seq<Record>, s: State)
    requires AccountInv(records, s) && s.acks != []
    ensures AccountInv(records, OnAck(s)) && s.acks[0] in s.infos
  {
    var a, t := s.acks[0], OnAck(s);
    forall id: nat ensures Places(t, id) == Places(s, id) {
      TimesHead(s.acks, id);
    }
    assert a in s.acks && Pending(s, a) && Places(s, a) == 1;
    TimesIn(t.acks, a);
    TimesIn(Ids(s.wire), a);
    assert !Pending(t, a);
    assert s.acks == [a] + t.acks;
  }

  lemma AbandonKeepsAccount(records: seq<Record>, s: State, id: nat)
    requires AccountInv(records, s) && id in s.jobs && s.jobs[id].stage != Asked
    ensures AccountInv(records, Abandon(s, id))
  {
    assert SamePlaces(s, Abandon(s, id));
    assert forall i: nat :: Pending(Abandon(s, id), i) <==> Pending(s, i);
  }

  lemma AskKeepsAccount(records: seq<Record>, source: map<Path, Chunk>, s: State, id: nat)
    requires AccountInv(records, s) && InStage(s, id, Asked)
    ensures AccountInv(records, OnAsk(source, s, id)) && id in s.infos
  {
    var t := OnAsk(source, s, id);
    assert Pending(s, id) && Places(s, id) == 1;
    AskedIsNowhereElse(s, id);
    assert SamePlaces(s, t);
    if s.jobs[id].record.path in source {
      assert !Pending(t, id) && forall i: nat :: i != id ==> (Pending(t, i) <==> Pending(s, i));
    } else {
      assert forall i: nat :: Pending(t, i) <==> Pending(s, i);
    }
    hide Places, Pending;
  }

  lemma AskedIsNowhereElse(s: State, id: nat)
    requires Places(s, id) == 1 && InStage(s, id, Asked)
    ensures id !in s.acks && id !in Ids(s.wire) && id !in s.silent && id !in s.refused && id !in s.unopened
  {
    TimesIn(s.acks, id);
    TimesIn(Ids(s.wire), id);
  }

  lemma OpenKeepsAccount(records: seq<Record>, s: State, id: nat, now: int)
    requires AccountInv(records, s) && InStage(s, id, Taken)
    ensures AccountInv(records, OnOpen(s, id, now))
  {
    if OpenedTemp(s.fs, s.jobs[id].record.path, now).None? {
      AbandonKeepsAccount(records, s, id);
    } else {
      assert SamePlaces(s, OnOpen(s, id, now));
      assert forall i: nat :: Pending(OnOpen(s, id, now), i) <==> Pending(s, i);
    }
  }

  /** An install is an abandoned transfer as far as the other ids are concerned. */
  lemma InstallKeepsAccount(records: seq<Record>, source: map<Path, Chunk>, s: State, id: nat, now: int)
    requires AccountInv(records, s) && InStage(s, id, Writing)
    ensures AccountInv(records, OnInstall(source, s, id, now))
  {
    var t, u := OnInstall(source, s, id, now), Abandon(s, id);
    AbandonKeepsAccount(records, s, id);
    InstallFrame(source, s, id, now);
    hide OnInstall;
    assert SamePlaces(u, t);
    assert forall i: nat :: Pending(t, i) <==> Pending(u, i);
  }

  lemma InstallFrame(source: map<Path, Chunk>, s: State, id: nat, now: int)
    requires id in s.jobs
    ensures var t := OnInstall(source, s, id, now);
            && ((t.resolved == s.resolved + multiset{id} && t.abandoned == s.abandoned)
                || (t.resolved == s.resolved && t.abandoned == s.abandoned + multiset{id}))
            && t.jobs == s.jobs - {id} && t.silent == s.silent && t.refused == s.refused && t.unopened == s.unopened
            && t.wire == s.wire && t.acks == s.acks && t.infos == s.infos && t.announced == s.announced
  {
    hide Unchanged, TouchParent, TempPath, Lookup, CanRename;
  }

  lemma ServePlaces(records: seq<Record>, s: State, now: int)
    requires NumberedFromOne(records) && AccountInv(records, s) && s.wire != []
    ensures var t := OnServe(s, now);
            && SamePlaces(s, t) && t.infos == s.infos && t.announced == s.announced && t.wire == s.wire[1..]
            && (forall id: nat :: Pending(t, id) <==> Pending(s, id))
            && forall id <- t.jobs :: (id in s.jobs && t.jobs[id] == s.jobs[id]) || (id == s.wire[0].id && t.jobs[id].record == s.wire[0])
  {
    HeadOfWire(records, s);
    hide Decide, Places, Pending, AccountInv, NumberedFromOne;
    WirePlaces(s, s.(wire := s.wire[1..]));
    DecidePlaces(s.(wire := s.wire[1..]), s.wire[0], now);
  }

  lemma ServeKeepsAccount(records: seq<Record>, s: State, now: int)
    requires NumberedFromOne(records) && AccountInv(records, s) && s.wire != []
    ensures AccountInv(records, OnServe(s, now))
  {
    ServePlaces(records, s, now);
    HeadOfWire(records, s);
    WireAfterServe(records, s, OnServe(s, now));
    hide OnServe, Places, Pending, Ids, NumberedFromOne, WireIsLatest;
  }

  lemma WireAfterServe(records: seq<Record>, s: State, t: State)
    requires s.announced <= |records| && WireIsLatest(records, s) && s.wire != []
    requires t.announced == s.announced && t.wire == s.wire[1..]
    ensures WireIsLatest(records, t)
  {
  }

  lemma StepKeepsAccount(records: seq<Record>, source: map<Path, Chunk>, s: State, a: Action)
    requires NumberedFromOne(records) && AccountInv(records, s) && Enabled(records, s, a)
    ensures AccountInv(records, Step(records, source, s, a))
  {
    hide AccountInv, OnServe, OnAck, OnAsk, OnOpen, OnInstall, OnAnnounce;
    match a
    case Announce => AnnounceFits(records, s); AnnounceKeepsAccount(records, s);
    case Serve(now) => ServeKeepsAccount(records, s, now);
    case AckArrives => AckKeepsAccount(records, s);
    case AskArrives(id) => AskKeepsAccount(records, source, s, id);
    case OpenTemp(id, now) => OpenKeepsAccount(records, s, id, now);
    case Install(id, now) => InstallKeepsAccount(records, source, s, id, now);
  }

  lemma AnnounceFits(records: seq<Record>, s: State)
    requires Enabled(records, s, Announce)
    ensures s.announced < |records|
  {
  }

  lemma {:induction false} RunKeepsAccount(records: seq<Record>, source: map<Path, Chunk>, s: State, actions: seq<Action>, t: State)
    requires NumberedFromOne(records) && AccountInv(records, s) && Reaches(records, source, s, actions, t)
    ensures AccountInv(records, t)
    decreases |actions|
  {
    hide AccountInv, Step, NumberedFromOne;
    if actions != [] {
      StepKeepsAccount(records, source, s, actions[0]);
      RunKeepsAccount(records, source, Step(records, source, s, actions[0]), actions[1..], t);
    }
  }

  lemma StartAccount(records: seq<Record>, fs: Tree)
    ensures AccountInv(records, Start(fs))
  {
    assert forall id: nat :: Places(Start(fs), id) == 0;
  }

  /** In every reachable state, whatever failed on the way, each announced id is in exactly
      one place, no other id is anywhere, and the client's table holds exactly the ids
      that have not been acknowledged, or asked for with a file that could be opened. */
  lemma EachIdInOnePlace(records: seq<Record>, source: map<Path, Chunk>, fs: Tree, actions: seq<Action>, t: State)
    requires NumberedFromOne(records) && Reaches(records, source, Start(fs), actions, t)
    ensures forall id: nat :: Places(t, id) == if 1 <= id <= t.announced then 1 else 0
    ensures forall id: nat :: id in t.infos <==> Pending(t, id)
  {
    StartAccount(records, fs);
    RunKeepsAccount(records, source, Start(fs), actions, t);
  }

  // ---- Order of the acknowledgements ----

  /** Acknowledgements are in the order of the announcements, and ahead of the wire. */
  ghost predicate AcksInv(s: State) {
    && (forall i, j :: 0 <= i < j < |s.acks| ==> s.acks[i] < s.acks[j])
    && (forall i :: 0 <= i < |s.acks| ==> s.acks[i] <= s.announced - |s.wire|)
  }

  lemma {:induction false} RunKeepsAcks(records: seq<Record>, source: map<Path, Chunk>, s: State, actions: seq<Action>, t: State)
    requires NumberedFromOne(records) && AccountInv(records, s) && AcksInv(s) && Reaches(records, source, s, actions, t)
    ensures AcksInv(t)
    decreases |actions|
  {
    hide AccountInv, Step, NumberedFromOne, AcksInv;
    if actions != [] {
      StepKeepsAccount(records, source, s, actions[0]);
      StepKeepsAcks(records, source, s, actions[0]);
      RunKeepsAcks(records, source, Step(records, source, s, actions[0]), actions[1..], t);
    }
  }

  lemma StepKeepsAcks(records: seq<Record>, source: map<Path, Chunk>, s: State, a: Action)
    requires NumberedFromOne(records) && AccountInv(records, s) && AcksInv(s) && Enabled(records, s, a)
    ensures AcksInv(Step(records, source, s, a))
  {
    match a
    case Serve(now) =>
      NextIsServed(records, s);
      hide AccountInv, NeedsUpdate, UpdatedFolder, Lookup;
    case Install(id, now) => InstallFrame(source, s, id, now); hide AccountInv, OnInstall;
    case OpenTemp(_, _) => hide AccountInv, OpenedTemp;
    case _ => hide AccountInv;
  }

  lemma NextIsServed(records: seq<Record>, s: State)
    requires NumberedFromOne(records) && AccountInv(records, s) && s.wire != []
    ensures s.wire[0].id == s.announced - |s.wire| + 1
  {
    assert s.wire[0] == records[s.announced - |s.wire|];
  }

  /** The ids on their way back are in the order of their announcement. */
  lemma AcksInOrder(records: seq<Record>, source: map<Path, Chunk>, fs: Tree, actions: seq<Action>, t: State)
    requires NumberedFromOne(records) && Reaches(records, source, Start(fs), actions, t)
    ensures forall i, j :: 0 <= i < j < |t.acks| ==> t.acks[i] < t.acks[j]
  {
    StartAccount(records, fs);
    RunKeepsAcks(records, source, Start(fs), actions, t);
  }

  /** So no announcement ever clashes with an entry of the table, and every id that reaches
      the client is found there. */
  lemma LookupsSucceed(records: seq<Record>, source: map<Path, Chunk>, fs: Tree, actions: seq<Action>, t: State)
    requires NumberedFromOne(records) && Reaches(records, source, Start(fs), actions, t)
    ensures t.announced < |records| ==> records[t.announced].id !in t.infos
    ensures t.acks != [] ==> t.acks[0] in t.infos
    ensures forall id: nat :: InStage(t, id, Asked) ==> id in t.infos
  {
    StartAccount(records, fs);
    RunKeepsAccount(records, source, Start(fs), actions, t);
    if t.announced < |records| {
      AnnounceKeepsAccount(records, t);
    }
    if t.acks != [] {
      AckKeepsAccount(records, t);
    }
  }
}
