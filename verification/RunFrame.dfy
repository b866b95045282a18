/** What a whole run leaves as it is: current files, entries that were not announced, and
    the times of directories. */
module RunFrame {
  import opened Bytes
  import opened Convergence
  import opened FindFiles
  import opened Progress
  import opened Sync
  import opened TempPaths
  import opened Traversal
  import opened Wrappers

  // ---- One step ----

  /** The record on whose behalf a step writes to the tree. */
  predicate Writes(s: State, a: Action, id: nat, now: int) {
    match a
    case Serve(n) => s.wire != [] && id == s.wire[0].id && now == n
    case OpenTemp(k, n) => id == k && now == n
    case Install(k, n) => id == k && now == n
    case _ => false
  }

  lemma StepIsConfined(records: seq<Record>, source: map<Path, Chunk>, d: Tree, s: State, a: Action, id: nat, now: int)
    requires Given(records, source, d) && AccountInv(records, s) && TreeInv(records, source, d, s)
    requires Enabled(records, s, a) && Writes(s, a, id, now)
    ensures 1 <= id <= |records|
    ensures var t, r := Step(records, source, s, a), records[id - 1];
            Confined(s.fs, t.fs, OwnPaths(d, r), Stamped(d, r), now) && OthersUntouched(s, t, id)
  {
    hide AccountInv, Given, TreeInv, OnServe, OnOpen, OnInstall, RecordInv, Confined, OthersUntouched, OwnPaths, Stamped, HasParent;
    match a
    case Serve(_) =>
      ServedRecord(records, source, d, s);
      DecisionFrame(s, now);
      DecidedRecord(source, d, s, now);
    case OpenTemp(_, _) =>
      JobRecord(records, source, d, s, id);
      OpenedRecord(source, d, s, id, now);
    case Install(_, _) =>
      JobRecord(records, source, d, s, id);
      InstalledRecord(source, d, s, id, now);
    case _ =>
  }

  lemma OtherStepsWriteNothing(records: seq<Record>, source: map<Path, Chunk>, s: State, a: Action)
    requires Enabled(records, s, a) && !a.Serve? && !a.OpenTemp? && !a.Install?
    ensures var t := Step(records, source, s, a); t.fs == s.fs && t.silent == s.silent && t.installed == s.installed
  {
  }

  /** Serving a directory's record without a reply sets the announced time. */
  lemma ServingSetsTime(s: State, now: int)
    requires s.wire != []
    ensures var r, t := s.wire[0], OnServe(s, now);
            t.silent != s.silent ==> r.kind == Directory && t.silent == s.silent + multiset{r.id}
                                     && Lookup(t.fs, r.path) == Some(Folder(r.seconds * TICKS))
  {
    hide NeedsUpdate;
  }

  // ---- Files that are current ----

  /** In every reachable state, a file that at the start was there, at least as new as
      announced and of the announced size has its bytes and time as they were, and no data
      stream has been opened for it. */
  lemma CurrentFilesAreKept(records: seq<Record>, source: map<Path, Chunk>, d: Tree, actions: seq<Action>, t: State, r: Record)
    requires WellOrdered(records) && SourceSteady(records, source) && Free(records, d) && TempsClear(records, d)
    requires Reaches(records, source, Start(d), actions, t)
    requires r in records && r.kind == Regular && r.path in d && d[r.path].Plain?
    requires d[r.path].time >= r.seconds * TICKS && |d[r.path].bytes| == r.size
    ensures Lookup(t.fs, r.path) == Some(d[r.path]) && r.id !in t.jobs && r.id !in t.installed
  {
    Reached(records, source, d, actions, t);
    assert RecordInv(source, d, r, t) && !NeedsTransfer(d, r);
  }

  // ---- Entries that were not announced ----

  ghost predicate NotWritten(records: seq<Record>, d: Tree, p: Path) {
    forall r <- records :: p !in OwnPaths(d, r)
  }

  ghost predicate SomeoneStamps(records: seq<Record>, d: Tree, p: Path) {
    exists r :: r in records && p in Stamped(d, r)
  }

  ghost predicate KeptEntry(records: seq<Record>, d: Tree, p: Path, fs: Tree) {
    || Lookup(fs, p) == Lookup(d, p)
    || (p in d && d[p].Folder? && p in fs && fs[p].Folder? && SomeoneStamps(records, d, p))
  }

  lemma {:induction false} EntryIsKept(records: seq<Record>, source: map<Path, Chunk>, d: Tree, p: Path,
                                       s: State, actions: seq<Action>, t: State)
    requires Given(records, source, d) && AccountInv(records, s) && TreeInv(records, source, d, s)
    requires Reaches(records, source, s, actions, t) && NotWritten(records, d, p) && KeptEntry(records, d, p, s.fs)
    ensures KeptEntry(records, d, p, t.fs)
    decreases |actions|
  {
    hide Given, AccountInv, TreeInv, Step, NotWritten, KeptEntry;
    if actions != [] {
      var a, u := actions[0], Step(records, source, s, actions[0]);
      StepKeepsAccount(records, source, s, a) by {
        GivenIsNumbered(records, source, d);
      }
      StepKeepsTree(records, source, d, s, a);
      EntryKeptByStep(records, source, d, p, s, a);
      EntryIsKept(records, source, d, p, u, actions[1..], t);
    }
  }

  lemma GivenIsNumbered(records: seq<Record>, source: map<Path, Chunk>, d: Tree)
    requires Given(records, source, d)
    ensures NumberedFromOne(records)
  {
  }

  lemma EntryKeptByStep(records: seq<Record>, source: map<Path, Chunk>, d: Tree, p: Path, s: State, a: Action)
    requires Given(records, source, d) && AccountInv(records, s) && TreeInv(records, source, d, s)
    requires Enabled(records, s, a) && NotWritten(records, d, p) && KeptEntry(records, d, p, s.fs)
    ensures KeptEntry(records, d, p, Step(records, source, s, a).fs)
  {
    hide Given, AccountInv, TreeInv, Step, OwnPaths, Stamped, OthersUntouched;
    if a.Serve? || a.OpenTemp? || a.Install? {
      SomeoneWrites(records, s, a);
      var id: nat, now :| Writes(s, a, id, now);
      StepIsConfined(records, source, d, s, a, id, now);
      assert records[id - 1] in records;
    } else {
      OtherStepsWriteNothing(records, source, s, a);
    }
  }

  lemma SomeoneWrites(records: seq<Record>, s: State, a: Action)
    requires Enabled(records, s, a) && (a.Serve? || a.OpenTemp? || a.Install?)
    ensures exists id: nat, now :: Writes(s, a, id, now)
  {
    match a
    case Serve(now) => assert Writes(s, a, s.wire[0].id, now);
    case OpenTemp(id, now) => assert Writes(s, a, id, now);
    case Install(id, now) => assert Writes(s, a, id, now);
    case _ =>
  }

  /** In every reachable state, what is at a path that is neither announced nor the
      temporary path of a file to be transferred is as it was, but for the time of a
      directory into which something has been put. */
  lemma UnannouncedIsKept(records: seq<Record>, source: map<Path, Chunk>, d: Tree, actions: seq<Action>, t: State, p: Path)
    requires WellOrdered(records) && SourceSteady(records, source) && Free(records, d) && TempsClear(records, d)
    requires Reaches(records, source, Start(d), actions, t)
    requires forall r <- records :: p != r.path && (NeedsTransfer(d, r) ==> p != TempPath(r.path))
    ensures Lookup(t.fs, p) == Lookup(d, p) ||
            (IsFolderAt(d, p) && IsFolderAt(t.fs, p)
             && exists r :: r in records && Creates(d, r) && r.path != [] && Parent(r.path) == p)
  {
    StartHolds(records, source, d);
    assert NotWritten(records, d, p);
    EntryIsKept(records, source, d, p, Start(d), actions, t);
    if SomeoneStamps(records, d, p) {
      var r :| r in records && p in Stamped(d, r);
      assert Creates(d, r) && r.path != [] && Parent(r.path) == p;
    }
  }

  lemma StartHolds(records: seq<Record>, source: map<Path, Chunk>, d: Tree)
    requires WellOrdered(records) && SourceSteady(records, source) && Free(records, d) && TempsClear(records, d)
    ensures Given(records, source, d) && AccountInv(records, Start(d)) && TreeInv(records, source, d, Start(d))
  {
    GivenFrom(records, source, d);
    Reached(records, source, d, [], Start(d));
  }

  // ---- The times of directories ----

  /** Directories that were handled without a reply and that nothing has been, or will be,
      put into have the announced time. */
  ghost predicate TimesInv(records: seq<Record>, d: Tree, s: State) {
    forall r <- records :: r.id in s.silent && !SomeoneStamps(records, d, r.path) ==>
      Lookup(s.fs, r.path) == Some(Folder(r.seconds * TICKS))
  }

  lemma OtherEntryKept(records: seq<Record>, source: map<Path, Chunk>, d: Tree, s: State, a: Action, id: nat, now: int, r: Record)
    requires Given(records, source, d) && AccountInv(records, s) && TreeInv(records, source, d, s)
    requires Enabled(records, s, a) && Writes(s, a, id, now) && r in records && r.id != id
    ensures 1 <= id <= |records|
    ensures var t := Step(records, source, s, a);
            && (r.id in t.silent <==> r.id in s.silent) && (r.id in t.installed <==> r.id in s.installed)
            && (Lookup(t.fs, r.path) == Lookup(s.fs, r.path)
                || (r.path in Stamped(d, records[id - 1]) && Lookup(t.fs, r.path) == Some(Folder(now))))
  {
    hide Step, OwnPaths, Stamped, AccountInv, TreeInv, Given, Confined, OthersUntouched, Enabled, Writes, Lookup;
    var t := Step(records, source, s, a);
    StepIsConfined(records, source, d, s, a, id, now);
    SameRecord(records, source, d, r);
    GivenPathsApart(records, source, d, id - 1, r);
    EntryUnderConfined(s.fs, t.fs, OwnPaths(d, records[id - 1]), Stamped(d, records[id - 1]), now, r.path);
    OtherIdUntouched(s, t, id, r.id);
  }

  lemma EntryUnderConfined(fs: Tree, fs': Tree, own: set<Path>, stamped: set<Path>, now: int, p: Path)
    requires Confined(fs, fs', own, stamped, now) && p !in own
    ensures Lookup(fs', p) == Lookup(fs, p) || (p in stamped && Lookup(fs', p) == Some(Folder(now)))
  {
  }

  lemma OtherIdUntouched(s: State, t: State, id: nat, k: nat)
    requires OthersUntouched(s, t, id) && k != id
    ensures (k in t.silent <==> k in s.silent) && (k in t.installed <==> k in s.installed)
  {
  }

  lemma GivenPathsApart(records: seq<Record>, source: map<Path, Chunk>, d: Tree, i: nat, r: Record)
    requires Given(records, source, d) && i < |records| && r in records && r.id != i + 1
    ensures r.path !in OwnPaths(d, records[i])
  {
    SameRecord(records, source, d, r);
    assert records[i].id == i + 1;
    PathsApart(records, d, i, r);
  }

  lemma SameRecord(records: seq<Record>, source: map<Path, Chunk>, d: Tree, q: Record)
    requires Given(records, source, d) && q in records
    ensures 1 <= q.id <= |records| && records[q.id - 1] == q
  {
    GivenIsNumbered(records, source, d);
    var i :| 0 <= i < |records| && records[i] == q;
  }

  lemma TimesKeptByStep(records: seq<Record>, source: map<Path, Chunk>, d: Tree, s: State, a: Action)
    requires Given(records, source, d) && AccountInv(records, s) && TreeInv(records, source, d, s)
    requires Enabled(records, s, a) && TimesInv(records, d, s)
    ensures TimesInv(records, d, Step(records, source, s, a))
  {
    hide Given, AccountInv, TreeInv, Step, Stamped;
    var t := Step(records, source, s, a);
    if a.Serve? || a.OpenTemp? || a.Install? {
      SomeoneWrites(records, s, a);
      var id: nat, now :| Writes(s, a, id, now);
      StepIsConfined(records, source, d, s, a, id, now);
      forall r <- records | r.id in t.silent && !SomeoneStamps(records, d, r.path)
        ensures Lookup(t.fs, r.path) == Some(Folder(r.seconds * TICKS))
      {
        if r.id != id {
          OtherEntryKept(records, source, d, s, a, id, now, r);
          assert records[id - 1] in records;
        } else {
          OwnTimeIsSet(records, source, d, s, a, r, now);
        }
      }
    } else {
      OtherStepsWriteNothing(records, source, s, a);
    }
  }

  lemma OwnTimeIsSet(records: seq<Record>, source: map<Path, Chunk>, d: Tree, s: State, a: Action, r: Record, now: int)
    requires Given(records, source, d) && AccountInv(records, s) && TreeInv(records, source, d, s)
    requires Enabled(records, s, a) && Writes(s, a, r.id, now) && r in records && r.id in Step(records, source, s, a).silent
    ensures Lookup(Step(records, source, s, a).fs, r.path) == Some(Folder(r.seconds * TICKS))
  {
    hide Given, AccountInv, TreeInv, OnServe, OnOpen, OnInstall;
    match a
    case Serve(_) => ServedTimeIsSet(records, source, d, s, r, now);
    case OpenTemp(_, _) => JobIsNotSilent(records, source, d, s, r); OpenedRecordFrame(s, r.id, now); assert false;
    case Install(_, _) => JobIsNotSilent(records, source, d, s, r); InstallFrame(source, s, r.id, now); assert false;
  }

  lemma ServedTimeIsSet(records: seq<Record>, source: map<Path, Chunk>, d: Tree, s: State, r: Record, now: int)
    requires Given(records, source, d) && AccountInv(records, s) && TreeInv(records, source, d, s)
    requires s.wire != [] && r.id == s.wire[0].id && r in records && r.id in OnServe(s, now).silent
    ensures Lookup(OnServe(s, now).fs, r.path) == Some(Folder(r.seconds * TICKS))
  {
    hide Given, AccountInv, TreeInv, OnServe, RecordInv, HasParent;
    ServedRecord(records, source, d, s);
    SameRecord(records, source, d, r);
    StartsAsBefore(source, d, s, r);
    ServingSetsTime(s, now);
  }

  lemma JobIsNotSilent(records: seq<Record>, source: map<Path, Chunk>, d: Tree, s: State, r: Record)
    requires Given(records, source, d) && AccountInv(records, s) && TreeInv(records, source, d, s)
    requires r.id in s.jobs && r in records
    ensures r.id !in s.silent
  {
    JobRecord(records, source, d, s, r.id);
    hide AccountInv, Given, RecordInv, HasParent, RecordsInv, JobsAreFiles, InstalledAreServed, NothingFailed, IsFolderAt;
  }

  lemma {:induction false} TimesAreKept(records: seq<Record>, source: map<Path, Chunk>, d: Tree, s: State, actions: seq<Action>, t: State)
    requires Given(records, source, d) && AccountInv(records, s) && TreeInv(records, source, d, s)
    requires Reaches(records, source, s, actions, t) && TimesInv(records, d, s)
    ensures TimesInv(records, d, t)
    decreases |actions|
  {
    hide Given, AccountInv, TreeInv, Step, TimesInv;
    if actions != [] {
      StepKeepsAccount(records, source, s, actions[0]) by {
        GivenIsNumbered(records, source, d);
      }
      StepKeepsTree(records, source, d, s, actions[0]);
      TimesKeptByStep(records, source, d, s, actions[0]);
      TimesAreKept(records, source, d, Step(records, source, s, actions[0]), actions[1..], t);
    }
  }

  // Runs in which every clock reading is `now`.

  predicate AtTime(a: Action, now: int) {
    match a
    case Serve(n) => n == now
    case OpenTemp(_, n) => n == now
    case Install(_, n) => n == now
    case _ => true
  }

  function WithTime(a: Action, now: int): (r: Action)
    ensures AtTime(r, now)
  {
    match a
    case Serve(_) => Serve(now)
    case OpenTemp(id, _) => OpenTemp(id, now)
    case Install(id, _) => Install(id, now)
    case _ => a
  }

  /** Every run can be finished, with any readings of the clock. */
  lemma {:induction false} Finish(records: seq<Record>, source: map<Path, Chunk>, s: State, now: int)
    returns (actions: seq<Action>, t: State)
    requires NumberedFromOne(records) && AccountInv(records, s)
    ensures Reaches(records, source, s, actions, t) && Finished(records, t) && forall a <- actions :: AtTime(a, now)
    decreases Work(records, s)
  {
    if x :| Enabled(records, s, x) {
      var a := WithTime(x, now);
      StepKeepsAccount(records, source, s, a);
      StepUsesWork(records, source, s, a);
      WorkIsNatural(records, s);
      hide Step, AccountInv, Work, NumberedFromOne;
      actions, t := Finish(records, source, Step(records, source, s, a), now);
      StepOn(records, source, s, a, actions, t);
      actions := [a] + actions;
    } else {
      actions, t := [], s;
    }
  }

  lemma WorkIsNatural(records: seq<Record>, s: State)
    requires AccountInv(records, s)
    ensures Work(records, s) >= 0
  {
    hide AllJobSteps;
  }

  /** What the record needed has been put into the directory that holds its path. */
  predicate HasCreated(r: Record, s: State) {
    r.id in s.installed || (r.kind == Directory && r.id in s.silent)
  }

  ghost predicate StampInv(records: seq<Record>, d: Tree, p: Path, now: int, s: State) {
    forall q <- records :: p in Stamped(d, q) && HasCreated(q, s) ==> Lookup(s.fs, p) == Some(Folder(now))
  }

  lemma CreatingStamps(records: seq<Record>, source: map<Path, Chunk>, d: Tree, s: State, a: Action, q: Record, now: int)
    requires Given(records, source, d) && AccountInv(records, s) && TreeInv(records, source, d, s)
    requires Enabled(records, s, a) && Writes(s, a, q.id, now) && q in records && q.path != [] && Creates(d, q)
    requires HasCreated(q, Step(records, source, s, a)) && !HasCreated(q, s)
    ensures Lookup(Step(records, source, s, a).fs, Parent(q.path)) == Some(Folder(now))
  {
    hide Given, AccountInv, TreeInv, HasCreated, Creates, OnServe, OnOpen, OnInstall;
    match a
    case Serve(_) => ServeCreates(records, source, d, s, q, now);
    case OpenTemp(_, _) => OpeningCreatesNothing(s, q, now);
    case Install(_, _) => InstallCreates(records, source, d, s, q, now);
    case _ =>
  }

  lemma ServeCreates(records: seq<Record>, source: map<Path, Chunk>, d: Tree, s: State, q: Record, now: int)
    requires Given(records, source, d) && AccountInv(records, s) && TreeInv(records, source, d, s)
    requires s.wire != [] && q.id == s.wire[0].id && q in records && q.path != [] && Creates(d, q)
    requires HasCreated(q, OnServe(s, now)) && !HasCreated(q, s)
    ensures Lookup(OnServe(s, now).fs, Parent(q.path)) == Some(Folder(now))
  {
    hide AccountInv, TreeInv, HasCreated, Creates, OnServe, RecordInv, HasParent;
    ServedRecord(records, source, d, s);
    SameRecord(records, source, d, q);
    StartsAsBefore(source, d, s, q);
    ServingStamps(d, s, now);
  }

  lemma InstallCreates(records: seq<Record>, source: map<Path, Chunk>, d: Tree, s: State, q: Record, now: int)
    requires Given(records, source, d) && AccountInv(records, s) && TreeInv(records, source, d, s)
    requires q.id in s.jobs && q in records
    requires HasCreated(q, OnInstall(source, s, q.id, now)) && !HasCreated(q, s)
    ensures Lookup(OnInstall(source, s, q.id, now).fs, Parent(q.path)) == Some(Folder(now))
  {
    hide AccountInv, TreeInv, HasCreated, OnInstall, RecordInv, HasParent;
    JobRecord(records, source, d, s, q.id);
    SameRecord(records, source, d, q);
    InstallingStamps(source, s, q.id, now);
  }

  lemma StartsAsBefore(source: map<Path, Chunk>, d: Tree, s: State, r: Record)
    requires RecordInv(source, d, r, s) && r.id > Served(s)
    ensures Lookup(s.fs, r.path) == Lookup(d, r.path) && r.id !in s.silent
  {
  }

  lemma OpeningCreatesNothing(s: State, q: Record, now: int)
    requires q.id in s.jobs
    ensures HasCreated(q, OnOpen(s, q.id, now)) == HasCreated(q, s)
  {
    OpenedRecordFrame(s, q.id, now);
    hide OnOpen;
  }

  lemma OpenedRecordFrame(s: State, id: nat, now: int)
    requires id in s.jobs
    ensures OnOpen(s, id, now).installed == s.installed && OnOpen(s, id, now).silent == s.silent
  {
    hide OpenedTemp;
  }

  lemma ServingStamps(d: Tree, s: State, now: int)
    requires s.wire != []
    requires var q := s.wire[0];
             && q.path != [] && Creates(d, q) && HasParent(s.fs, q) && Lookup(s.fs, q.path) == Lookup(d, q.path)
             && HasCreated(q, OnServe(s, now)) && !HasCreated(q, s)
    ensures Lookup(OnServe(s, now).fs, Parent(s.wire[0].path)) == Some(Folder(now))
  {
    TempDiffers(s.wire[0].path);
    hide TempPath;
  }

  lemma InstallingStamps(source: map<Path, Chunk>, s: State, id: nat, now: int)
    requires id in s.jobs && s.jobs[id].record.id == id && HasParent(s.fs, s.jobs[id].record)
    requires HasCreated(s.jobs[id].record, OnInstall(source, s, id, now)) && !HasCreated(s.jobs[id].record, s)
    ensures Lookup(OnInstall(source, s, id, now).fs, Parent(s.jobs[id].record.path)) == Some(Folder(now))
  {
    var r := s.jobs[id].record;
    if r.path in source {
      InstallIsConfined(s.fs, r.path, Plain(source[r.path], r.seconds * TICKS), now);
    }
    hide Confined, TempPath, Parent;
  }

  /** The records of what is in a directory come after its own. */
  lemma ChildIsLater(records: seq<Record>, d: Tree, r: Record, q: Record)
    requires WellOrdered(records) && r in records && q in records && r.path in Stamped(d, q)
    ensures q.id > r.id
  {
    Supported(records, r);
    var i :| 0 <= i < |records| && records[i] == q;
    assert FollowsParent(records, i);
    var k :| 0 <= k < i && records[k].path == Parent(q.path) && records[k].kind == Directory;
    var j :| 0 <= j < |records| && records[j] == r;
    assert j == k;
  }

  lemma StampKeptByStep(records: seq<Record>, source: map<Path, Chunk>, d: Tree, r: Record, now: int, s: State, a: Action)
    requires Given(records, source, d) && AccountInv(records, s) && TreeInv(records, source, d, s)
    requires Enabled(records, s, a) && AtTime(a, now) && r in records && r.kind == Directory && StampInv(records, d, r.path, now, s)
    ensures StampInv(records, d, r.path, now, Step(records, source, s, a))
  {
    var t := Step(records, source, s, a);
    if a.Serve? || a.OpenTemp? || a.Install? {
      SomeoneWrites(records, s, a);
      var id: nat, n :| Writes(s, a, id, n);
      assert n == now;
      StepIsConfined(records, source, d, s, a, id, now);
      forall q <- records | r.path in Stamped(d, q) && HasCreated(q, t) ensures Lookup(t.fs, r.path) == Some(Folder(now)) {
        StampKept(records, source, d, r, now, s, a, id, q);
      }
    } else {
      OtherStepsWriteNothing(records, source, s, a);
    }
    hide Step, Given, AccountInv, TreeInv, Stamped;
  }

  lemma StampKept(records: seq<Record>, source: map<Path, Chunk>, d: Tree, r: Record, now: int, s: State, a: Action,
                  id: nat, q: Record)
    requires Given(records, source, d) && AccountInv(records, s) && TreeInv(records, source, d, s)
    requires Enabled(records, s, a) && Writes(s, a, id, now) && r in records && r.kind == Directory && StampInv(records, d, r.path, now, s)
    requires q in records && r.path in Stamped(d, q) && HasCreated(q, Step(records, source, s, a))
    ensures Lookup(Step(records, source, s, a).fs, r.path) == Some(Folder(now))
  {
    hide Given, AccountInv, TreeInv, Step, HasCreated;
    if q.id == id && !HasCreated(q, s) {
      ParentOfStamp(d, r.path, q);
      CreatingStamps(records, source, d, s, a, q, now);
    } else {
      CreatedBefore(records, source, d, s, a, id, now, q);
      StampStays(records, source, d, r, now, s, a, id, q);
    }
  }

  lemma ParentOfStamp(d: Tree, p: Path, q: Record)
    requires p in Stamped(d, q)
    ensures q.path != [] && Creates(d, q) && Parent(q.path) == p
  {
  }

  lemma CreatedBefore(records: seq<Record>, source: map<Path, Chunk>, d: Tree, s: State, a: Action, id: nat, now: int, q: Record)
    requires Given(records, source, d) && AccountInv(records, s) && TreeInv(records, source, d, s)
    requires Enabled(records, s, a) && Writes(s, a, id, now) && q in records
    requires HasCreated(q, Step(records, source, s, a)) && (q.id == id ==> HasCreated(q, s))
    ensures HasCreated(q, s)
  {
    hide Given, AccountInv, TreeInv, Step, Stamped;
    if q.id != id {
      OtherEntryKept(records, source, d, s, a, id, now, q);
    }
  }

  lemma StampStays(records: seq<Record>, source: map<Path, Chunk>, d: Tree, r: Record, now: int, s: State, a: Action,
                   id: nat, q: Record)
    requires Given(records, source, d) && AccountInv(records, s) && TreeInv(records, source, d, s)
    requires Enabled(records, s, a) && Writes(s, a, id, now) && r in records && r.kind == Directory && q in records
    requires r.path in Stamped(d, q) && HasCreated(q, s) && Lookup(s.fs, r.path) == Some(Folder(now))
    ensures Lookup(Step(records, source, s, a).fs, r.path) == Some(Folder(now))
  {
    GivenIsOrdered(records, source, d);
    hide Given, AccountInv, TreeInv, Step, HasCreated, Stamped, WellOrdered;
    if r.id == id {
      ChildIsLater(records, d, r, q);
      CreatedIsServed(records, source, d, s, q);
      WriterIsNotServed(records, source, d, s, a, r, now);
    } else {
      OtherEntryKept(records, source, d, s, a, id, now, r);
    }
  }

  lemma GivenIsOrdered(records: seq<Record>, source: map<Path, Chunk>, d: Tree)
    requires Given(records, source, d)
    ensures WellOrdered(records)
  {
  }

  lemma CreatedIsServed(records: seq<Record>, source: map<Path, Chunk>, d: Tree, s: State, q: Record)
    requires TreeInv(records, source, d, s) && q in records && HasCreated(q, s)
    ensures q.id <= Served(s)
  {
    assert RecordInv(source, d, q, s);
    hide DirectoryInv, FileInv;
  }

  /** A step that writes on behalf of a directory is the one that serves its record. */
  lemma WriterIsNotServed(records: seq<Record>, source: map<Path, Chunk>, d: Tree, s: State, a: Action, r: Record, now: int)
    requires Given(records, source, d) && AccountInv(records, s) && TreeInv(records, source, d, s)
    requires Enabled(records, s, a) && Writes(s, a, r.id, now) && r in records && r.kind == Directory
    ensures r.id > Served(s)
  {
    var i :| 0 <= i < |records| && records[i] == r;
    GivenIsNumbered(records, source, d);
    match a
    case Serve(_) => ServedRecord(records, source, d, s);
    case OpenTemp(_, _) => JobRecord(records, source, d, s, r.id); assert false;
    case Install(_, _) => JobRecord(records, source, d, s, r.id); assert false;
  }

  lemma {:induction false} StampIsKept(records: seq<Record>, source: map<Path, Chunk>, d: Tree, r: Record, now: int,
                                       s: State, actions: seq<Action>, t: State)
    requires Given(records, source, d) && AccountInv(records, s) && TreeInv(records, source, d, s)
    requires Reaches(records, source, s, actions, t) && (forall a <- actions :: AtTime(a, now))
    requires r in records && r.kind == Directory && StampInv(records, d, r.path, now, s)
    ensures StampInv(records, d, r.path, now, t)
    decreases |actions|
  {
    hide Given, AccountInv, TreeInv, Step, StampInv;
    if actions != [] {
      StepKeepsAccount(records, source, s, actions[0]) by {
        GivenIsNumbered(records, source, d);
      }
      StepKeepsTree(records, source, d, s, actions[0]);
      StampKeptByStep(records, source, d, r, now, s, actions[0]);
      StampIsKept(records, source, d, r, now, Step(records, source, s, actions[0]), actions[1..], t);
    }
  }

  ghost predicate EveryRunKeepsTime(records: seq<Record>, source: map<Path, Chunk>, d: Tree, r: Record) {
    forall actions, t :: Reaches(records, source, Start(d), actions, t) && Finished(records, t) ==>
      Lookup(t.fs, r.path) == Some(Folder(r.seconds * TICKS))
  }

  /** Some run ends with another time if something is put into the directory. */
  lemma SomeRunLosesTime(records: seq<Record>, source: map<Path, Chunk>, d: Tree, r: Record, q: Record)
    returns (actions: seq<Action>, t: State)
    requires WellOrdered(records) && SourceSteady(records, source) && Free(records, d) && TempsClear(records, d)
    requires r in records && r.kind == Directory && q in records && r.path in Stamped(d, q)
    ensures Reaches(records, source, Start(d), actions, t) && Finished(records, t)
    ensures Lookup(t.fs, r.path) == Some(Folder(r.seconds * TICKS + 1))
  {
    StartHolds(records, source, d);
    actions, t := Finish(records, source, Start(d), r.seconds * TICKS + 1);
    StampIsKept(records, source, d, r, r.seconds * TICKS + 1, Start(d), actions, t);
    RunConverges(records, source, d, actions, t);
    assert Settled(d, q, t) && HasCreated(q, t);
  }

  /** A directory that was missing or older than announced ends every run with the
      announced time if and only if nothing has to be put into it: no file directly in it
      is transferred and no directory directly in it is missing. */
  lemma KeepsTimeExactly(records: seq<Record>, source: map<Path, Chunk>, d: Tree, r: Record)
    requires WellOrdered(records) && SourceSteady(records, source) && Free(records, d) && TempsClear(records, d)
    requires r in records && r.kind == Directory && (r.path in d ==> d[r.path].time < r.seconds * TICKS)
    ensures EveryRunKeepsTime(records, source, d, r) <==>
              forall q <- records :: Creates(d, q) && q.path != [] ==> Parent(q.path) != r.path
  {
    hide Reaches, Finished, WellOrdered, SourceSteady, TempsClear, Free;
    if q :| q in records && Creates(d, q) && q.path != [] && Parent(q.path) == r.path {
      var actions, t := SomeRunLosesTime(records, source, d, r, q);
    } else {
      assert !SomeoneStamps(records, d, r.path);
      forall actions, t | Reaches(records, source, Start(d), actions, t) && Finished(records, t)
        ensures Lookup(t.fs, r.path) == Some(Folder(r.seconds * TICKS))
      {
        RunKeepsTime(records, source, d, r, actions, t);
      }
    }
  }

  lemma RunKeepsTime(records: seq<Record>, source: map<Path, Chunk>, d: Tree, r: Record, actions: seq<Action>, t: State)
    requires WellOrdered(records) && SourceSteady(records, source) && Free(records, d) && TempsClear(records, d)
    requires r in records && r.kind == Directory && (r.path in d ==> d[r.path].time < r.seconds * TICKS)
    requires Reaches(records, source, Start(d), actions, t) && Finished(records, t) && !SomeoneStamps(records, d, r.path)
    ensures Lookup(t.fs, r.path) == Some(Folder(r.seconds * TICKS))
  {
    StartHolds(records, source, d);
    assert TimesInv(records, d, Start(d)) && NeedsUpdate(d, r);
    hide Given, AccountInv, TreeInv, SomeoneStamps, Reaches, Finished, WellOrdered, SourceSteady, TempsClear;
    TimesAreKept(records, source, d, Start(d), actions, t);
    RunConverges(records, source, d, actions, t);
    assert Settled(d, r, t);
  }

  // ---- Entries whose directory is not announced ----

  /** There is nothing at `p`, nor directly in it. */
  ghost predicate Absent(fs: Tree, p: Path) {
    p !in fs && forall x <- fs :: x != [] ==> Parent(x) != p
  }

  /** No record is for `p` or has it as its temporary path. */
  ghost predicate Unannounced(records: seq<Record>, p: Path) {
    forall r <- records :: r.path != p && TempPath(r.path) != p
  }

  lemma TouchKeepsAbsent(fs: Tree, q: Path, now: int, p: Path)
    requires Absent(fs, p)
    ensures Absent(TouchParent(fs, q, now), p)
  {
  }

  lemma PutKeepsAbsent(fs: Tree, q: Path, item: Item, p: Path)
    requires Absent(fs, p) && q != p && (q != [] ==> Parent(q) != p)
    ensures Absent(fs[q := item], p)
  {
  }

  lemma RemoveKeepsAbsent(fs: Tree, q: Path, p: Path)
    requires Absent(fs, p)
    ensures Absent(fs - {q}, p)
  {
  }

  lemma ServeKeepsAbsent(s: State, now: int, p: Path)
    requires s.wire != [] && Absent(s.fs, p) && s.wire[0].path != p
    ensures Absent(OnServe(s, now).fs, p)
  {
    var r := s.wire[0];
    if r.path in s.fs {
      PutKeepsAbsent(s.fs, r.path, Folder(r.seconds * TICKS), p);
    } else if r.path != [] && IsFolderAt(s.fs, Parent(r.path)) {
      TouchKeepsAbsent(s.fs, r.path, now, p);
      PutKeepsAbsent(TouchParent(s.fs, r.path, now), r.path, Folder(r.seconds * TICKS), p);
    }
    hide NeedsUpdate, Absent, TouchParent, Parent;
  }

  lemma OpenKeepsAbsent(s: State, id: nat, now: int, p: Path)
    requires id in s.jobs && Absent(s.fs, p) && TempPath(s.jobs[id].record.path) != p
    ensures Absent(OnOpen(s, id, now).fs, p)
  {
    var q := s.jobs[id].record.path;
    if q != [] && IsFolderAt(s.fs, Parent(q)) {
      assert TempPath(q) != [] && Parent(TempPath(q)) == Parent(q);
      TouchKeepsAbsent(s.fs, q, now, p);
      PutKeepsAbsent(TouchParent(s.fs, q, now), TempPath(q), Plain([], now), p);
      PutKeepsAbsent(s.fs, TempPath(q), Plain([], now), p);
    }
    hide Absent, TouchParent, TempPath, Parent;
  }

  lemma InstallKeepsAbsent(source: map<Path, Chunk>, s: State, id: nat, now: int, p: Path)
    requires id in s.jobs && Absent(s.fs, p) && s.jobs[id].record.path != p
    ensures Absent(OnInstall(source, s, id, now).fs, p)
  {
    var r := s.jobs[id].record;
    var fs := TouchParent(s.fs, r.path, now) - {TempPath(r.path)};
    TouchKeepsAbsent(s.fs, r.path, now, p);
    RemoveKeepsAbsent(TouchParent(s.fs, r.path, now), TempPath(r.path), p);
    if r.path in source && CanRename(s.fs, r.path) {
      PutKeepsAbsent(fs, r.path, Plain(source[r.path], r.seconds * TICKS), p);
    }
    hide TouchParent, TempPath, Parent, Unchanged, Absent;
  }

  lemma {:induction false} StaysAbsent(records: seq<Record>, source: map<Path, Chunk>, s: State, actions: seq<Action>, t: State, p: Path)
    requires NumberedFromOne(records) && AccountInv(records, s) && Reaches(records, source, s, actions, t)
    requires Unannounced(records, p) && Absent(s.fs, p)
    ensures Absent(t.fs, p)
    decreases |actions|
  {
    hide AccountInv, NumberedFromOne, Absent, Unannounced;
    if actions != [] {
      StepKeepsAccount(records, source, s, actions[0]);
      StepKeepsAbsent(records, source, s, actions[0], p);
      hide Step;
      StaysAbsent(records, source, Step(records, source, s, actions[0]), actions[1..], t, p);
    }
  }

  lemma StepKeepsAbsent(records: seq<Record>, source: map<Path, Chunk>, s: State, a: Action, p: Path)
    requires NumberedFromOne(records) && AccountInv(records, s) && Enabled(records, s, a)
    requires Unannounced(records, p) && Absent(s.fs, p)
    ensures Absent(Step(records, source, s, a).fs, p)
  {
    hide Absent;
    match a
    case Serve(now) =>
      HeadOfWire(records, s);
      assert s.wire[0] in records;
      hide AccountInv;
      ServeKeepsAbsent(s, now, p);
    case OpenTemp(id, now) => JobIsAnnounced(records, s, id); hide AccountInv; OpenKeepsAbsent(s, id, now, p);
    case Install(id, now) => JobIsAnnounced(records, s, id); hide AccountInv; InstallKeepsAbsent(source, s, id, now, p);
    case _ => hide AccountInv;
  }

  /** If there is no directory at `p` and none is announced, then in every reachable state
      there is nothing in it: the files and directories announced there never arrive. */
  lemma OrphansNeverArrive(records: seq<Record>, source: map<Path, Chunk>, d: Tree, actions: seq<Action>, t: State, p: Path)
    requires NumberedFromOne(records) && Reaches(records, source, Start(d), actions, t)
    requires Unannounced(records, p) && Absent(d, p)
    ensures forall r <- records :: r.path != [] && Parent(r.path) == p ==> r.path !in t.fs
  {
    StartAccount(records, d);
    StaysAbsent(records, source, Start(d), actions, t, p);
  }

  /** So what FindFiles announces below a directory whose size cannot be read does not
      arrive at a destination that lacks the directory, in any run. */
  lemma UnsizedContentsNeverArrive(root: Located, folder: Located, source: map<Path, Chunk>, d: Tree, actions: seq<Action>, t: State)
    requires WellNamed(root.node) && IsFolder(root.node) && |root.path| <= 1
    requires folder in Queued([root]) && folder.path != [] && folder.node.size.None? && Absent(d, folder.path)
    requires forall x <- Found(root) :: TempPath(x.path) != folder.path
    requires AllSized(Found(root)) && Reaches(Numbered(0, Found(root)), source, Start(d), actions, t)
    ensures forall x <- Announced(folder) :: x in Found(root) && x.path !in t.fs
  {
    var xs := Found(root);
    var records := Numbered(0, xs);
    RecordsElsewhere(root, folder);
    StartAccount(records, d);
    hide Unannounced, Numbered, Reaches, AccountInv, Found;
    StaysAbsent(records, source, Start(d), actions, t, folder.path);
    ContentsOf(root, folder, t.fs);
  }

  lemma RecordsElsewhere(root: Located, folder: Located)
    requires WellNamed(root.node) && IsFolder(root.node) && |root.path| <= 1 && AllSized(Found(root))
    requires folder in Queued([root]) && folder.path != [] && folder.node.size.None?
    requires forall x <- Found(root) :: TempPath(x.path) != folder.path
    ensures Unannounced(Numbered(0, Found(root)), folder.path) && NumberedFromOne(Numbered(0, Found(root)))
  {
    var xs := Found(root);
    var records := Numbered(0, xs);
    hide TempPath, Found, WellNamed;
    forall r <- records ensures r.path != folder.path && TempPath(r.path) != folder.path {
      var i :| 0 <= i < |records| && records[i] == r;
      assert r.path == xs[i].path && xs[i] in xs;
      UnsizedIsNotFound(root, folder, xs[i]);
    }
  }

  lemma ContentsOf(root: Located, folder: Located, fs: Tree)
    requires folder in Queued([root]) && Absent(fs, folder.path)
    ensures forall x <- Announced(folder) :: x in Found(root) && x.path !in fs
  {
    hide Queued, Announced;
    forall x <- Announced(folder) ensures x in Found(root) && x.path !in fs {
      AnnouncedIn(Queued([root]), x);
      AnnouncedPath(folder, x);
      ChildParent(folder.path, x.node.name);
    }
  }

  lemma AnnouncedPath(folder: Located, x: Located)
    requires x in Announced(folder)
    ensures x.path == folder.path + [x.node.name]
  {
  }
}
