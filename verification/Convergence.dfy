/** What a whole run leaves at the destination, and what a second run does. */
module Convergence {
  import opened Bytes
  import opened Traversal
  import opened FindFiles
  import opened Progress
  import opened Sync
  import opened Wrappers

  // ---- What is asked of the records and of the two trees ----

  ghost predicate DistinctRecordPaths(records: seq<Record>) {
    forall i, j :: 0 <= i < j < |records| ==> records[i].path != records[j].path
  }

  /** The record of the directory that holds record `i` comes before it. */
  predicate FollowsParent(records: seq<Record>, i: nat)
    requires i < |records| && records[i].path != []
  {
    var p := Parent(records[i].path);
    p == [] || exists j :: 0 <= j < i && records[j].path == p && records[j].kind == Directory
  }

  /** What FindFiles provides (RecordsOfTree). */
  ghost predicate WellOrdered(records: seq<Record>) {
    && NumberedFromOne(records) && DistinctRecordPaths(records)
    && forall i :: 0 <= i < |records| ==>
         records[i].kind != Unsupported && records[i].path != [] && FollowsParent(records, i)
  }

  /** No entry of another type in the way, at its path or at its temporary path. */
  ghost predicate Free(records: seq<Record>, fs: Tree) {
    && IsFolderAt(fs, [])
    && (forall r <- records :: r.path in fs ==> Matches(fs[r.path], r.kind))
    && (forall r <- records :: NeedsTransfer(fs, r) ==> TempPath(r.path) in fs ==> fs[TempPath(r.path)].Plain?)
  }

  predicate NeedsTransfer(fs: Tree, r: Record) {
    r.kind == Regular && NeedsUpdate(fs, r)
  }

  /** No file that will be transferred has a temporary path that is itself announced. */
  ghost predicate TempsClear(records: seq<Record>, fs: Tree) {
    forall r <- records, q <- records :: NeedsTransfer(fs, r) ==> q.path != TempPath(r.path)
  }

  /** The announced files still have the announced size. */
  ghost predicate SourceSteady(records: seq<Record>, source: map<Path, Chunk>) {
    forall r <- records :: r.kind == Regular ==> r.path in source && |source[r.path]| == r.size
  }

  // ---- Steps touch their own paths only ----

  /** Outside `own` the trees are the same, except that directories in `stamped` may have
      got the time `now`. */
  ghost predicate Confined(fs: Tree, fs': Tree, own: set<Path>, stamped: set<Path>, now: int) {
    forall p :: p !in own ==>
      && (p in fs <==> p in fs')
      && (p in fs ==> fs'[p] == fs[p] || (p in stamped && fs[p].Folder? && fs'[p] == Folder(now)))
  }

  lemma ConfinedToMore(fs: Tree, fs': Tree, own: set<Path>, more: set<Path>, stamped: set<Path>, now: int)
    requires (fs' == fs || Confined(fs, fs', own, stamped, now)) && own <= more
    ensures Confined(fs, fs', more, stamped, now)
  {
  }

  lemma UpdateIsConfined(fs: Tree, r: Record, now: int)
    requires r.path != [] && (r.path in fs || IsFolderAt(fs, Parent(r.path)))
    ensures UpdatedFolder(fs, r, now).Some?
    ensures Confined(fs, UpdatedFolder(fs, r, now).value, {r.path}, if r.path in fs then {} else {Parent(r.path)}, now)
    ensures Lookup(UpdatedFolder(fs, r, now).value, r.path) == Some(Folder(r.seconds * TICKS))
  {
  }

  lemma TempDiffers(p: Path)
    requires p != []
    ensures |TempPath(p)| == |p| && TempPath(p) != p && TempPath(p) != Parent(p) && Parent(p) != p
  {
    TempIsLonger(p);
  }

  lemma OpenIsConfined(fs: Tree, p: Path, now: int)
    requires p != [] && IsFolderAt(fs, Parent(p)) && (TempPath(p) in fs ==> fs[TempPath(p)].Plain?)
    ensures var after := OpenedTemp(fs, p, now);
            after.Some? && Confined(fs, after.value, {p, TempPath(p)}, {Parent(p)}, now)
            && Lookup(after.value, p) == Lookup(fs, p)
            && Lookup(after.value, TempPath(p)) == Some(Plain([], now))
  {
    TempDiffers(p);
  }

  lemma InstallIsConfined(fs: Tree, p: Path, item: Item, now: int)
    requires p != [] && IsFolderAt(fs, Parent(p))
    ensures var after := (TouchParent(fs, p, now) - {TempPath(p)})[p := item];
            Confined(fs, after, {p, TempPath(p)}, {Parent(p)}, now) && Lookup(after, p) == Some(item)
            && TempPath(p) !in after && Lookup(after, Parent(p)) == Some(Folder(now))
  {
    TempDiffers(p);
  }

  // ---- One record ----

  function Served(s: State): int {
    s.announced - |s.wire|
  }

  predicate IsInstalled(source: map<Path, Chunk>, r: Record, s: State) {
    r.path in source && r.id !in s.jobs && Lookup(s.fs, r.path) == Some(Plain(source[r.path], r.seconds * TICKS))
  }

  /** All that holds of record `r`, which the server has seen if its id is not beyond
      Served. What becomes of it is settled by the tree at the start. */
  ghost predicate RecordInv(source: map<Path, Chunk>, d: Tree, r: Record, s: State) {
    && (r.path in s.fs ==> Matches(s.fs[r.path], r.kind))
    && (r.id > Served(s) ==> Lookup(s.fs, r.path) == Lookup(d, r.path) && r.id !in s.silent)
    && (r.kind == Directory ==> DirectoryInv(d, r, s))
    && (r.kind == Regular ==> FileInv(source, d, r, s))
  }

  ghost predicate DirectoryInv(d: Tree, r: Record, s: State) {
    r.id !in s.installed && (r.id <= Served(s) ==> r.path in s.fs && (r.id in s.silent <==> NeedsUpdate(d, r)))
  }

  ghost predicate FileInv(source: map<Path, Chunk>, d: Tree, r: Record, s: State) {
    && (r.id <= Served(s) && r.id !in s.jobs ==> r.path in s.fs && !NeedsUpdate(s.fs, r))
    && (r.id <= Served(s) && NeedsTransfer(d, r) ==> r.id in s.jobs || r.id in s.installed)
    && (!NeedsTransfer(d, r) ==> Lookup(s.fs, r.path) == Lookup(d, r.path) && r.id !in s.jobs && r.id !in s.installed)
    && (r.id in s.jobs ==> s.jobs[r.id].before == Lookup(s.fs, r.path))
    && (r.id in s.installed ==> IsInstalled(source, r, s))
    && (NeedsTransfer(d, r) && TempPath(r.path) in s.fs ==> s.fs[TempPath(r.path)].Plain?)
  }

  /** The paths written on behalf of a record. */
  function OwnPaths(d: Tree, r: Record): set<Path> {
    if NeedsTransfer(d, r) then {r.path, TempPath(r.path)} else {r.path}
  }

  /** Something is put into the directory that holds the record's path. */
  predicate Creates(d: Tree, r: Record) {
    NeedsTransfer(d, r) || (r.kind == Directory && r.path !in d)
  }

  /** The directory whose time is set on behalf of a record, if there is one. */
  function Stamped(d: Tree, r: Record): set<Path> {
    if r.path != [] && Creates(d, r) then {Parent(r.path)} else {}
  }

  /** The step from `s` to `t` concerns no other id. */
  ghost predicate OthersUntouched(s: State, t: State, id: nat) {
    forall k: nat :: k != id ==>
      && (k in t.installed <==> k in s.installed) && (k in t.jobs <==> k in s.jobs) && (k in t.silent <==> k in s.silent)
      && (k in s.jobs ==> t.jobs[k].before == s.jobs[k].before) && (k <= Served(t) <==> k <= Served(s))
  }

  /** A step on another record's paths leaves this one as it is. */
  lemma OthersKeepRecord(source: map<Path, Chunk>, d: Tree, r: Record, s: State, t: State,
                         own: set<Path>, stamped: set<Path>, now: int, id: nat)
    requires RecordInv(source, d, r, s) && Confined(s.fs, t.fs, own, stamped, now) && OthersUntouched(s, t, id) && r.id != id
    requires r.path !in own && (NeedsTransfer(d, r) ==> TempPath(r.path) !in own)
    requires r.kind != Unsupported && (r.kind == Directory && r.id > Served(t) ==> r.path !in stamped)
    ensures RecordInv(source, d, r, t)
  {
    assert (r.path in t.fs <==> r.path in s.fs) && (r.id in t.jobs <==> r.id in s.jobs);
    assert (r.id <= Served(t) <==> r.id <= Served(s)) && (r.id in t.silent <==> r.id in s.silent);
    if r.kind == Regular {
      assert Lookup(t.fs, r.path) == Lookup(s.fs, r.path);
      SameFileSameNeed(s.fs, t.fs, r);
    }
    hide NeedsUpdate, TempPath;
  }

  lemma SameFileSameNeed(fs: Tree, fs': Tree, r: Record)
    requires Lookup(fs, r.path) == Lookup(fs', r.path)
    ensures NeedsUpdate(fs, r) == NeedsUpdate(fs', r) && (r.path in fs <==> r.path in fs')
  {
  }

  // ---- The whole run ----

  ghost predicate RecordsInv(records: seq<Record>, source: map<Path, Chunk>, d: Tree, s: State) {
    forall r <- records :: RecordInv(source, d, r, s)
  }

  ghost predicate JobsAreFiles(s: State) {
    forall id <- s.jobs :: s.jobs[id].record.kind == Regular && id <= Served(s)
  }

  ghost predicate SilentAreDirectories(records: seq<Record>, s: State) {
    forall id <- s.silent :: 1 <= id <= |records| && records[id - 1].kind == Directory
  }

  predicate InstalledAreServed(s: State) {
    forall id <- s.installed :: 1 <= id <= Served(s)
  }

  predicate NothingFailed(s: State) {
    s.refused == multiset{} && s.abandoned == multiset{} && s.unopened == multiset{}
  }

  ghost predicate TreeInv(records: seq<Record>, source: map<Path, Chunk>, d: Tree, s: State) {
    && IsFolderAt(s.fs, []) && RecordsInv(records, source, d, s) && JobsAreFiles(s)
    && SilentAreDirectories(records, s) && InstalledAreServed(s) && NothingFailed(s)
  }

  /** What stays fixed during a run. */
  ghost predicate Given(records: seq<Record>, source: map<Path, Chunk>, d: Tree) {
    WellOrdered(records) && SourceSteady(records, source) && TempsClear(records, d)
  }

  predicate HasParent(fs: Tree, r: Record) {
    r.path != [] && IsFolderAt(fs, Parent(r.path))
  }

  lemma ParentIsThere(records: seq<Record>, source: map<Path, Chunk>, d: Tree, s: State, i: nat)
    requires WellOrdered(records) && TreeInv(records, source, d, s) && i < |records| && i <= Served(s)
    ensures HasParent(s.fs, records[i])
  {
    hide JobsAreFiles, SilentAreDirectories, InstalledAreServed, NothingFailed, NeedsUpdate;
    if Parent(records[i].path) != [] {
      var j :| 0 <= j < i && records[j].path == Parent(records[i].path) && records[j].kind == Directory;
      assert records[j] in records && records[j].id <= Served(s);
    }
  }

  /** The paths of another record are not touched on behalf of record `i`. */
  lemma PathsApart(records: seq<Record>, d: Tree, i: nat, r: Record)
    requires WellOrdered(records) && TempsClear(records, d) && i < |records| && r in records && r != records[i]
    ensures r.path !in OwnPaths(d, records[i]) && r.id != i + 1
    ensures NeedsTransfer(d, r) ==> TempPath(r.path) !in OwnPaths(d, records[i])
    ensures r.id > i + 1 ==> r.path !in Stamped(d, records[i])
  {
    hide Parent, TempPath, NeedsTransfer;
    var j :| 0 <= j < |records| && records[j] == r;
    assert records[i] in records && r.path != [] && records[i].path != [];
    assert r.path != records[i].path;
    if r.path == Parent(records[i].path) {
      assert FollowsParent(records, i);
      var k :| 0 <= k < i && records[k].path == Parent(records[i].path) && records[k].kind == Directory;
      assert j == k;
    }
    hide FollowsParent;
    if TempPath(r.path) == TempPath(records[i].path) {
      TempPathInjective(r.path, records[i].path);
    }
  }

  lemma Supported(records: seq<Record>, r: Record)
    requires WellOrdered(records) && r in records
    ensures r.kind != Unsupported && r.path != []
  {
    hide FollowsParent;
  }

  /** A step on behalf of one record is a matter of that record only. */
  lemma OthersKept(records: seq<Record>, source: map<Path, Chunk>, d: Tree, s: State, t: State, id: nat, now: int)
    requires Given(records, source, d) && RecordsInv(records, source, d, s) && 1 <= id <= |records| && id <= Served(t)
    requires Confined(s.fs, t.fs, OwnPaths(d, records[id - 1]), Stamped(d, records[id - 1]), now) && OthersUntouched(s, t, id)
    requires RecordInv(source, d, records[id - 1], t)
    ensures RecordsInv(records, source, d, t)
  {
    hide RecordInv, WellOrdered, TempsClear, SourceSteady, Confined, OthersUntouched, OwnPaths, Stamped;
    forall q <- records ensures RecordInv(source, d, q, t) {
      if q != records[id - 1] {
        PathsApart(records, d, id - 1, q);
        Supported(records, q);
        OthersKeepRecord(source, d, q, s, t, OwnPaths(d, records[id - 1]), Stamped(d, records[id - 1]), now, id);
      }
    }
  }

  /** A step that writes nothing and opens and closes no data stream. */
  lemma AllKept(records: seq<Record>, source: map<Path, Chunk>, d: Tree, s: State, t: State)
    requires TreeInv(records, source, d, s) && t.fs == s.fs && t.installed == s.installed && Served(t) == Served(s)
    requires t.jobs.Keys == s.jobs.Keys
    requires forall k <- s.jobs :: t.jobs[k].before == s.jobs[k].before && t.jobs[k].record == s.jobs[k].record
    requires t.silent == s.silent && NothingFailedSince(s, t)
    ensures TreeInv(records, source, d, t)
  {
    hide NeedsUpdate, Matches;
    assert forall k: nat :: (k in t.jobs <==> k in t.jobs.Keys) && (k in s.jobs <==> k in s.jobs.Keys);
  }

  lemma BaseStays(fs: Tree, fs': Tree, d: Tree, r: Record, now: int)
    requires r.path != [] && Confined(fs, fs', OwnPaths(d, r), Stamped(d, r), now) && IsFolderAt(fs, [])
    ensures IsFolderAt(fs', [])
  {
    TempDiffers(r.path);
    assert [] !in OwnPaths(d, r);
  }

  lemma AnnounceKeepsTree(records: seq<Record>, source: map<Path, Chunk>, d: Tree, s: State)
    requires TreeInv(records, source, d, s) && s.announced < |records|
    ensures TreeInv(records, source, d, OnAnnounce(s, records[s.announced]))
  {
    hide TreeInv;
    AllKept(records, source, d, s, OnAnnounce(s, records[s.announced]));
  }

  /** The head of the wire is the record the server has not seen yet. */
  lemma WireHeadIsNext(records: seq<Record>, s: State)
    requires NumberedFromOne(records) && AccountInv(records, s) && s.wire != []
    ensures 1 <= s.wire[0].id <= |records| && s.wire[0] == records[s.wire[0].id - 1] && s.wire[0] in records
    ensures s.wire[0].id == Served(s) + 1 && s.wire[0].id !in s.jobs
  {
    HeadOfWire(records, s);
    hide Places, Pending;
  }

  /** What is known of the record about to be served. */
  lemma ServedRecord(records: seq<Record>, source: map<Path, Chunk>, d: Tree, s: State)
    requires Given(records, source, d) && AccountInv(records, s) && TreeInv(records, source, d, s) && s.wire != []
    ensures var r := s.wire[0];
            && 1 <= r.id <= |records| && r == records[r.id - 1] && r.kind != Unsupported && HasParent(s.fs, r)
            && r.id !in s.jobs && r.id !in s.installed && r.id == Served(s) + 1 && RecordInv(source, d, r, s)
  {
    hide RecordInv, HasParent, AccountInv, TempsClear, SourceSteady, FollowsParent, DistinctRecordPaths;
    WireHeadIsNext(records, s);
    ParentIsThere(records, source, d, s, s.wire[0].id - 1);
  }

  /** What the decision on `r` adds to the data streams and to the directories updated. */
  predicate DecidedFrame(s: State, t: State, r: Record) {
    && NothingFailedSince(s, t) && t.installed == s.installed
    && (t.jobs == s.jobs || (r.kind == Regular && t.jobs == s.jobs[r.id := Job(r, Lookup(s.fs, r.path), Asked)]))
    && (t.silent == s.silent || (r.kind == Directory && t.silent == s.silent + multiset{r.id}))
  }

  /** What the server's decision on a record leaves alone. */
  lemma DecisionFrame(s: State, now: int)
    requires s.wire != [] && s.wire[0].id == Served(s) + 1 && s.wire[0].kind != Unsupported
    requires s.wire[0].path in s.fs || HasParent(s.fs, s.wire[0])
    ensures var r, t := s.wire[0], OnServe(s, now);
            OthersUntouched(s, t, r.id) && Served(t) == r.id && DecidedFrame(s, t, r)
  {
    var r, t := s.wire[0], OnServe(s, now);
    hide NeedsUpdate, TouchParent, OthersUntouched, UpdatedFolder;
    JobsUntouched(s, t, r.id, Job(r, Lookup(s.fs, r.path), Asked));
  }

  lemma JobsUntouched(s: State, t: State, id: nat, job: Job)
    requires t.installed == s.installed && Served(t) == Served(s) + 1 == id
    requires t.jobs == s.jobs || t.jobs == s.jobs[id := job]
    requires t.silent == s.silent || t.silent == s.silent + multiset{id}
    ensures OthersUntouched(s, t, id)
  {
  }

  /** What it makes of the record. */
  lemma DecidedRecord(source: map<Path, Chunk>, d: Tree, s: State, now: int)
    requires s.wire != []
    requires var r := s.wire[0];
             && r.kind != Unsupported && HasParent(s.fs, r) && r.id !in s.jobs && r.id !in s.installed
             && r.id == Served(s) + 1 && RecordInv(source, d, r, s)
    ensures var r, t := s.wire[0], OnServe(s, now);
            RecordInv(source, d, r, t) && Confined(s.fs, t.fs, OwnPaths(d, r), Stamped(d, r), now)
  {
    var r := s.wire[0];
    UpdateIsConfined(s.fs, r, now);
    SameFileSameNeed(s.fs, d, r);
    hide UpdatedFolder, TempPath, Parent, Confined, NeedsUpdate;
    ConfinedToMore(s.fs, OnServe(s, now).fs, {r.path}, OwnPaths(d, r), Stamped(d, r), now);
  }

  predicate NothingFailedSince(s: State, t: State) {
    t.refused == s.refused && t.abandoned == s.abandoned && t.unopened == s.unopened
  }

  lemma ServeKeepsTree(records: seq<Record>, source: map<Path, Chunk>, d: Tree, s: State, now: int)
    requires Given(records, source, d) && AccountInv(records, s) && TreeInv(records, source, d, s) && s.wire != []
    ensures TreeInv(records, source, d, OnServe(s, now))
  {
    hide *;
    ServeKeepsRecords(records, source, d, s, now);
    ServeKeepsRest(records, source, d, s, now);
    TreeFromParts(records, source, d, OnServe(s, now));
  }

  lemma ServeKeepsRecords(records: seq<Record>, source: map<Path, Chunk>, d: Tree, s: State, now: int)
    requires Given(records, source, d) && AccountInv(records, s) && TreeInv(records, source, d, s) && s.wire != []
    ensures RecordsInv(records, source, d, OnServe(s, now)) && IsFolderAt(OnServe(s, now).fs, [])
  {
    var r, t := s.wire[0], OnServe(s, now);
    hide AccountInv, Given, Parent, OnServe, RecordInv, Confined, OthersUntouched, OwnPaths, Stamped, RecordsInv, Lookup,
         DecidedFrame, TreeInv, IsFolderAt, NothingFailedSince, JobsAreFiles, SilentAreDirectories, InstalledAreServed, NothingFailed;
    ServedRecord(records, source, d, s);
    DecisionFrame(s, now);
    DecidedRecord(source, d, s, now);
    PartsOfTree(records, source, d, s);
    hide Served;
    OthersKept(records, source, d, s, t, r.id, now);
    BaseStays(s.fs, t.fs, d, r, now);
  }

  lemma ServeKeepsRest(records: seq<Record>, source: map<Path, Chunk>, d: Tree, s: State, now: int)
    requires Given(records, source, d) && AccountInv(records, s) && TreeInv(records, source, d, s) && s.wire != []
    ensures var t := OnServe(s, now);
            JobsAreFiles(t) && SilentAreDirectories(records, t) && InstalledAreServed(t) && NothingFailed(t)
  {
    var r, t := s.wire[0], OnServe(s, now);
    hide AccountInv, Given, Parent, OnServe, RecordInv, OthersUntouched, RecordsInv, Lookup, DecidedFrame,
         TreeInv, IsFolderAt, NothingFailedSince, JobsAreFiles, SilentAreDirectories, InstalledAreServed, NothingFailed;
    ServedRecord(records, source, d, s);
    DecisionFrame(s, now);
    PartsOfTree(records, source, d, s);
    OneMoreServed(records, s, t, r);
  }

  lemma PartsOfTree(records: seq<Record>, source: map<Path, Chunk>, d: Tree, s: State)
    requires TreeInv(records, source, d, s)
    ensures IsFolderAt(s.fs, []) && RecordsInv(records, source, d, s) && JobsAreFiles(s)
    ensures SilentAreDirectories(records, s) && InstalledAreServed(s) && NothingFailed(s)
  {
  }

  lemma TreeFromParts(records: seq<Record>, source: map<Path, Chunk>, d: Tree, s: State)
    requires IsFolderAt(s.fs, []) && RecordsInv(records, source, d, s) && JobsAreFiles(s)
    requires SilentAreDirectories(records, s) && InstalledAreServed(s) && NothingFailed(s)
    ensures TreeInv(records, source, d, s)
  {
  }

  lemma OneMoreServed(records: seq<Record>, s: State, t: State, r: Record)
    requires JobsAreFiles(s) && SilentAreDirectories(records, s) && InstalledAreServed(s) && NothingFailed(s)
    requires Served(t) == r.id == Served(s) + 1 && 1 <= r.id <= |records| && r == records[r.id - 1]
    requires DecidedFrame(s, t, r)
    ensures JobsAreFiles(t) && SilentAreDirectories(records, t) && InstalledAreServed(t) && NothingFailed(t)
  {
  }

  lemma AckKeepsTree(records: seq<Record>, source: map<Path, Chunk>, d: Tree, s: State)
    requires TreeInv(records, source, d, s) && s.acks != []
    ensures TreeInv(records, source, d, OnAck(s))
  {
    hide TreeInv;
    AllKept(records, source, d, s, OnAck(s));
  }

  lemma AskKeepsTree(records: seq<Record>, source: map<Path, Chunk>, d: Tree, s: State, id: nat)
    requires Given(records, source, d) && AccountInv(records, s) && TreeInv(records, source, d, s) && InStage(s, id, Asked)
    ensures TreeInv(records, source, d, OnAsk(source, s, id))
  {
    hide TreeInv, AccountInv, RecordInv, HasParent, WellOrdered, SourceSteady, TempsClear;
    AskKeepsAccount(records, source, s, id);
    JobRecord(records, source, d, s, id);
    AllKept(records, source, d, s, OnAsk(source, s, id));
  }

  /** The record a data stream is open for, and its directory at the destination. */
  lemma JobRecord(records: seq<Record>, source: map<Path, Chunk>, d: Tree, s: State, id: nat)
    requires Given(records, source, d) && AccountInv(records, s) && TreeInv(records, source, d, s) && id in s.jobs
    ensures 1 <= id <= |records|
    ensures var r := s.jobs[id].record;
            && r == records[id - 1] && r.id == id && r.kind == Regular && HasParent(s.fs, r)
            && RecordInv(source, d, r, s) && r.path in source && |source[r.path]| == r.size && id <= Served(s)
  {
    hide RecordInv, AccountInv, FollowsParent, HasParent, TempsClear, DistinctRecordPaths;
    JobIsAnnounced(records, s, id);
    ParentIsThere(records, source, d, s, id - 1);
  }

  lemma OpenedRecord(source: map<Path, Chunk>, d: Tree, s: State, id: nat, now: int)
    requires id in s.jobs
    requires var r := s.jobs[id].record;
             r.id == id && r.kind == Regular && HasParent(s.fs, r) && RecordInv(source, d, r, s)
    ensures var r, t := s.jobs[id].record, OnOpen(s, id, now);
            && t == s.(jobs := s.jobs[id := s.jobs[id].(stage := Writing)], fs := t.fs)
            && RecordInv(source, d, r, t) && Confined(s.fs, t.fs, OwnPaths(d, r), Stamped(d, r), now) && OthersUntouched(s, t, id)
  {
    hide Parent, TempPath;
    OpenIsConfined(s.fs, s.jobs[id].record.path, now);
  }

  lemma OpenKeepsTree(records: seq<Record>, source: map<Path, Chunk>, d: Tree, s: State, id: nat, now: int)
    requires Given(records, source, d) && AccountInv(records, s) && TreeInv(records, source, d, s) && InStage(s, id, Taken)
    ensures TreeInv(records, source, d, OnOpen(s, id, now))
  {
    var r, t := s.jobs[id].record, OnOpen(s, id, now);
    hide AccountInv, Given, Parent, OnOpen, IsFolderAt, RecordInv, Confined, OthersUntouched, OwnPaths, Stamped, RecordsInv;
    JobRecord(records, source, d, s, id);
    OpenedRecord(source, d, s, id, now);
    OthersKept(records, source, d, s, t, id, now);
    BaseStays(s.fs, t.fs, d, r, now);
    JobMovedOn(records, s, t, id);
    hide JobsAreFiles, SilentAreDirectories, InstalledAreServed, NothingFailed;
  }

  lemma JobMovedOn(records: seq<Record>, s: State, t: State, id: nat)
    requires JobsAreFiles(s) && SilentAreDirectories(records, s) && InstalledAreServed(s) && NothingFailed(s)
    requires id in s.jobs && t == s.(jobs := s.jobs[id := s.jobs[id].(stage := Writing)], fs := t.fs)
    ensures JobsAreFiles(t) && SilentAreDirectories(records, t) && InstalledAreServed(t) && NothingFailed(t)
  {
  }

  lemma InstalledRecord(source: map<Path, Chunk>, d: Tree, s: State, id: nat, now: int)
    requires id in s.jobs
    requires var r := s.jobs[id].record;
             && r.id == id && r.kind == Regular && HasParent(s.fs, r) && RecordInv(source, d, r, s)
             && r.path in source && |source[r.path]| == r.size && id <= Served(s)
    ensures var r, t := s.jobs[id].record, OnInstall(source, s, id, now);
            && t.jobs == s.jobs - {id} && t.installed == s.installed + {id} && NothingFailedSince(s, t)
            && t.silent == s.silent && Served(t) == Served(s)
            && RecordInv(source, d, r, t) && Confined(s.fs, t.fs, OwnPaths(d, r), Stamped(d, r), now) && OthersUntouched(s, t, id)
  {
    hide Parent, TempPath;
    var r := s.jobs[id].record;
    InstallIsConfined(s.fs, r.path, Plain(source[r.path], r.seconds * TICKS), now);
  }

  lemma InstallKeepsTree(records: seq<Record>, source: map<Path, Chunk>, d: Tree, s: State, id: nat, now: int)
    requires Given(records, source, d) && AccountInv(records, s) && TreeInv(records, source, d, s) && InStage(s, id, Writing)
    ensures TreeInv(records, source, d, OnInstall(source, s, id, now))
  {
    var r, t := s.jobs[id].record, OnInstall(source, s, id, now);
    hide AccountInv, Given, Parent, OnInstall, IsFolderAt, RecordInv, Confined, OthersUntouched, OwnPaths, Stamped, RecordsInv;
    JobRecord(records, source, d, s, id);
    InstalledRecord(source, d, s, id, now);
    OthersKept(records, source, d, s, t, id, now);
    BaseStays(s.fs, t.fs, d, r, now);
  }

  lemma StepKeepsTree(records: seq<Record>, source: map<Path, Chunk>, d: Tree, s: State, a: Action)
    requires Given(records, source, d) && AccountInv(records, s) && TreeInv(records, source, d, s) && Enabled(records, s, a)
    ensures TreeInv(records, source, d, Step(records, source, s, a))
  {
    hide Given, AccountInv, TreeInv, OnAnnounce, OnServe, OnAck, OnAsk, OnOpen, OnInstall;
    match a
    case Announce => AnnounceKeepsTree(records, source, d, s);
    case Serve(now) => ServeKeepsTree(records, source, d, s, now);
    case AckArrives => AckKeepsTree(records, source, d, s);
    case AskArrives(id) => AskKeepsTree(records, source, d, s, id);
    case OpenTemp(id, now) => OpenKeepsTree(records, source, d, s, id, now);
    case Install(id, now) => InstallKeepsTree(records, source, d, s, id, now);
  }

  lemma {:induction false} RunKeepsTree(records: seq<Record>, source: map<Path, Chunk>, d: Tree, s: State, actions: seq<Action>, t: State)
    requires Given(records, source, d) && AccountInv(records, s) && TreeInv(records, source, d, s)
    requires Reaches(records, source, s, actions, t)
    ensures AccountInv(records, t) && TreeInv(records, source, d, t)
    decreases |actions|
  {
    hide AccountInv, TreeInv, SourceSteady, TempsClear, Step;
    if actions != [] {
      StepKeepsAccount(records, source, s, actions[0]);
      StepKeepsTree(records, source, d, s, actions[0]);
      RunKeepsTree(records, source, d, Step(records, source, s, actions[0]), actions[1..], t);
    }
  }

  lemma Reached(records: seq<Record>, source: map<Path, Chunk>, d: Tree, actions: seq<Action>, t: State)
    requires WellOrdered(records) && SourceSteady(records, source) && Free(records, d) && TempsClear(records, d)
    requires Reaches(records, source, Start(d), actions, t)
    ensures AccountInv(records, t) && TreeInv(records, source, d, t)
  {
    StartAccount(records, d);
    assert TreeInv(records, source, d, Start(d));
    hide AccountInv, TreeInv, Reaches;
    RunKeepsTree(records, source, d, Start(d), actions, t);
  }

  lemma GivenFrom(records: seq<Record>, source: map<Path, Chunk>, d: Tree)
    requires WellOrdered(records) && SourceSteady(records, source) && TempsClear(records, d)
    ensures Given(records, source, d)
  {
  }

  /** In every interleaving each directory is there before anything is put into it: no
      create_directory and no temporary file ever fails for want of a parent. */
  lemma ParentsAlwaysExist(records: seq<Record>, source: map<Path, Chunk>, d: Tree, actions: seq<Action>, t: State)
    requires WellOrdered(records) && SourceSteady(records, source) && Free(records, d) && TempsClear(records, d)
    requires Reaches(records, source, Start(d), actions, t)
    ensures t.wire != [] ==> HasParent(t.fs, t.wire[0])
    ensures forall id <- t.jobs :: HasParent(t.fs, t.jobs[id].record)
    ensures NothingFailed(t)
  {
    Reached(records, source, d, actions, t);
    hide Free, AccountInv, Reaches, HasParent, RecordsInv, Given, RecordInv;
    assert Given(records, source, d) by {
      GivenFrom(records, source, d);
    }
    if t.wire != [] {
      ServedRecord(records, source, d, t);
    }
    forall id <- t.jobs ensures HasParent(t.fs, t.jobs[id].record) {
      JobRecord(records, source, d, t, id);
    }
  }

  /** The run can go no further. */
  ghost predicate Finished(records: seq<Record>, t: State) {
    forall a :: !Enabled(records, t, a)
  }

  /** What a finished run has made of one record. */
  ghost predicate Converged(source: map<Path, Chunk>, r: Record, t: State) {
    && r.path in t.fs && Matches(t.fs[r.path], r.kind)
    && (r.kind == Regular ==> !NeedsUpdate(t.fs, r) && |t.fs[r.path].bytes| == r.size)
    && (r.kind == Regular && r.id in t.installed ==>
          r.path in source && t.fs[r.path] == Plain(source[r.path], r.seconds * TICKS))
  }

  /** Which way a record has gone, by the tree at the start: a directory that was missing or
      older is updated without a reply, a file that was missing, older or of another size
      is installed, and every other record is acknowledged, as are the installed ones. */
  ghost predicate Settled(d: Tree, r: Record, t: State) {
    && (r.id in t.silent <==> r.kind == Directory && NeedsUpdate(d, r))
    && (r.id in t.installed <==> NeedsTransfer(d, r))
    && (r.id in t.resolved <==> r.kind != Directory || !NeedsUpdate(d, r))
  }

  /** Every run that can go no further has converged: each announced directory exists,
      each announced file exists with the announced size and is up to date, each file that
      was transferred has the source's bytes and the announced time, and the client's
      table holds exactly the directories that were updated without a reply. */
  lemma RunConverges(records: seq<Record>, source: map<Path, Chunk>, d: Tree, actions: seq<Action>, t: State)
    requires WellOrdered(records) && SourceSteady(records, source) && Free(records, d) && TempsClear(records, d)
    requires Reaches(records, source, Start(d), actions, t) && Finished(records, t)
    ensures forall r <- records :: Converged(source, r, t)
    ensures forall id: nat :: id in t.infos <==> id in t.silent
    ensures forall id <- t.silent :: 1 <= id <= |records| && records[id - 1].kind == Directory
    ensures forall r <- records :: Settled(d, r, t)
  {
    Reached(records, source, d, actions, t);
    NothingLeftToDo(records, t);
    forall r <- records ensures Converged(source, r, t) && Settled(d, r, t) {
      var i :| 0 <= i < |records| && records[i] == r;
      InOnePlace(records, t, r.id);
      assert r.id in t.silent ==> r.kind == Directory;
      Supported(records, r);
      hide *;
      RecordConverges(source, d, r, t);
    }
  }

  lemma RecordConverges(source: map<Path, Chunk>, d: Tree, r: Record, t: State)
    requires RecordInv(source, d, r, t) && r.id <= Served(t) && t.jobs == map[] && r.kind != Unsupported
    requires (r.id in t.silent ==> r.kind == Directory) && (r.id in t.resolved <==> r.id !in t.silent)
    ensures Converged(source, r, t) && Settled(d, r, t)
  {
  }

  lemma InOnePlace(records: seq<Record>, t: State, id: nat)
    requires AccountInv(records, t) && 1 <= id <= t.announced && t.wire == [] && t.acks == [] && t.jobs == map[]
    requires NothingFailed(t)
    ensures id in t.resolved <==> id !in t.silent
  {
    assert Places(t, id) == 1 && Ids([]) == [];
  }

  lemma NothingLeftToDo(records: seq<Record>, t: State)
    requires Finished(records, t)
    ensures t.announced >= |records| && t.wire == [] && t.acks == [] && t.jobs == map[]
  {
    assert !Enabled(records, t, Announce) && !Enabled(records, t, Serve(0)) && !Enabled(records, t, AckArrives);
    forall id: nat ensures id !in t.jobs {
      assert !Enabled(records, t, AskArrives(id)) && !Enabled(records, t, OpenTemp(id, 0)) && !Enabled(records, t, Install(id, 0));
    }
  }

  // ---- The records of a real tree ----

  lemma RecordsOfTree(node: Node, hasStem: bool)
    requires WellNamed(node) && IsFolder(node) && FoldersAreSized(Queued([RootOf(node, hasStem)]))
    ensures var xs := Found(RootOf(node, hasStem));
            AllSized(xs) && WellOrdered(Numbered(0, xs))
  {
    var root := RootOf(node, hasStem);
    var xs := Found(root);
    ParentsFirstExactly(node, hasStem);
    FoundPathsDistinct(root);
    FoundAreSized(root);
    hide *;
    OrderOfRecords(xs);
  }

  lemma OrderOfRecords(xs: seq<Located>)
    requires AllSized(xs) && ParentsFirst(xs) && DistinctPaths(xs)
    ensures WellOrdered(Numbered(0, xs))
  {
    var records := Numbered(0, xs);
    forall i | 0 <= i < |records|
      ensures records[i].kind != Unsupported && records[i].path != [] && FollowsParent(records, i)
    {
      RecordInOrder(xs, i);
    }
  }

  lemma RecordInOrder(xs: seq<Located>, i: nat)
    requires AllSized(xs) && ParentsFirst(xs) && i < |xs|
    ensures var r := Numbered(0, xs)[i];
            r.kind != Unsupported && r.path != [] && FollowsParent(Numbered(0, xs), i)
  {
    var records, p := Numbered(0, xs), Parent(xs[i].path);
    assert IsAnnounced(xs[i].node);
    if p != [] {
      assert ListsFolder(xs[..i], p);
      var j :| 0 <= j < i && xs[..i][j].path == p && xs[..i][j].node.kind == Directory;
      assert records[j].path == p && records[j].kind == Directory;
    }
  }

  lemma {:induction false} AllAnnouncedAreSized(ds: seq<Located>)
    ensures AllSized(AllAnnounced(ds))
  {
    if ds != [] {
      AllAnnouncedAreSized(ds[1..]);
    }
  }

  lemma FoundAreSized(root: Located)
    ensures AllSized(Found(root))
  {
    AllAnnouncedAreSized(Queued([root]));
  }
}
