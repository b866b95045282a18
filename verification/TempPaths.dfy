/** The temporary file of a path x is x.qsync, which may be an announced path itself. A
    whole run is safe from that exactly when no file that needs a transfer has such a
    temporary path. */
module TempPaths {
  import opened Bytes
  import opened Traversal
  import opened FindFiles
  import opened Progress
  import opened Sync
  import opened Convergence

  /** Nothing failed on the way and every record has converged. */
  ghost predicate Delivered(records: seq<Record>, source: map<Path, Chunk>, t: State) {
    NothingFailed(t) && forall r <- records :: Converged(source, r, t)
  }

  ghost predicate EveryRunDelivers(records: seq<Record>, source: map<Path, Chunk>, d: Tree) {
    forall actions, t :: Reaches(records, source, Start(d), actions, t) && Finished(records, t) ==> Delivered(records, source, t)
  }

  // ---- Putting runs together ----

  lemma {:induction false} RunOn(records: seq<Record>, source: map<Path, Chunk>, s: State,
              a: seq<Action>, t: State, b: seq<Action>, u: State)
    requires Reaches(records, source, s, a, t) && Reaches(records, source, t, b, u)
    ensures Reaches(records, source, s, a + b, u)
    decreases |a|
  {
    hide Step, Enabled;
    if a == [] {
      assert a + b == b;
    } else {
      assert (a + b)[1..] == a[1..] + b;
      RunOn(records, source, Step(records, source, s, a[0]), a[1..], t, b, u);
    }
  }

  lemma StepOn(records: seq<Record>, source: map<Path, Chunk>, s: State, a: Action, rest: seq<Action>, t: State)
    requires Enabled(records, s, a) && Reaches(records, source, Step(records, source, s, a), rest, t)
    ensures Reaches(records, source, s, [a] + rest, t)
  {
    hide Step, Enabled;
    assert ([a] + rest)[1..] == rest;
  }

  // ---- The run that goes wrong ----

  /** The transfer was given up, by the client or by the server. */
  predicate Failed(t: State, id: nat) {
    t.abandoned[id] > 0 || t.unopened[id] > 0
  }

  lemma {:induction false} AnnounceAll(records: seq<Record>, source: map<Path, Chunk>, s: State)
    returns (actions: seq<Action>, t: State)
    requires s.announced <= |records|
    ensures Reaches(records, source, s, actions, t)
    ensures t.announced == |records| && t.wire == s.wire + records[s.announced..] && t.fs == s.fs && t.jobs == s.jobs
    decreases |records| - s.announced
  {
    if s.announced == |records| {
      actions, t := [], s;
    } else {
      actions, t := AnnounceAll(records, source, OnAnnounce(s, records[s.announced]));
      StepOn(records, source, s, Announce, actions, t);
      actions := [Announce] + actions;
      assert [records[s.announced]] + records[s.announced + 1..] == records[s.announced..];
    }
  }

  predicate HasJob(s: State, r: Record) {
    r.id in s.jobs && s.jobs[r.id].record == r
  }

  /** The server has opened, or will open, a data stream for `r`. */
  predicate Coming(s: State, r: Record) {
    if r in s.wire then NeedsTransfer(s.fs, r) && (r.path in s.fs ==> s.fs[r.path].Plain?) else HasJob(s, r)
  }

  ghost predicate DistinctRecords(rs: seq<Record>) {
    forall i, j :: 0 <= i < j < |rs| ==> rs[i].path != rs[j].path && rs[i].id != rs[j].id
  }

  lemma ServeKeepsComing(s: State, r: Record, now: int)
    requires s.wire != [] && Coming(s, r) && (r !in s.wire ==> forall q <- s.wire :: q.id != r.id)
    requires DistinctRecords(s.wire)
    ensures Coming(OnServe(s, now), r)
    ensures r !in s.wire[1..] ==> forall q <- s.wire[1..] :: q.id != r.id
  {
    var h := s.wire[0];
    assert h !in s.wire[1..] && s.wire == [h] + s.wire[1..];
    if r in s.wire && r != h {
      assert h.path != r.path;
      hide DistinctRecords;
      DecideKeepsNeed(s.(wire := s.wire[1..]), h, r, now);
    }
    hide DistinctRecords;
  }

  /** Deciding on another record does not touch the need to transfer this one. */
  lemma DecideKeepsNeed(s: State, h: Record, r: Record, now: int)
    requires h.path != r.path && NeedsTransfer(s.fs, r) && (r.path in s.fs ==> s.fs[r.path].Plain?)
    ensures var t := Decide(s, h, now);
            t.wire == s.wire && NeedsTransfer(t.fs, r) && (r.path in t.fs ==> t.fs[r.path].Plain?)
  {
  }

  lemma {:induction false} ServeAll(records: seq<Record>, source: map<Path, Chunk>, s: State, r: Record)
    returns (actions: seq<Action>, t: State)
    requires Coming(s, r) && (r !in s.wire ==> forall q <- s.wire :: q.id != r.id) && DistinctRecords(s.wire)
    ensures Reaches(records, source, s, actions, t)
    ensures t.wire == [] && t.announced == s.announced && HasJob(t, r)
    decreases |s.wire|
  {
    if s.wire == [] {
      actions, t := [], s;
    } else {
      ServeKeepsComing(s, r, 0);
      actions, t := ServeAll(records, source, OnServe(s, 0), r);
      StepOn(records, source, s, Serve(0), actions, t);
      actions := [Serve(0)] + actions;
    }
  }

  lemma {:induction false} DrainAcks(records: seq<Record>, source: map<Path, Chunk>, s: State)
    returns (actions: seq<Action>, t: State)
    ensures Reaches(records, source, s, actions, t)
    ensures t.acks == [] && t.announced == s.announced && t.wire == s.wire && t.jobs == s.jobs
    decreases |s.acks|
  {
    if s.acks == [] {
      actions, t := [], s;
    } else {
      actions, t := DrainAcks(records, source, OnAck(s));
      StepOn(records, source, s, AckArrives, actions, t);
      actions := [AckArrives] + actions;
    }
  }

  function NextOf(s: State, id: nat): Action
    requires id in s.jobs
  {
    match s.jobs[id].stage
    case Asked => AskArrives(id)
    case Taken => OpenTemp(id, 0)
    case Writing => Install(id, 0)
  }

  /** One step of a transfer: on to the next stage, given up, or installed, and then its
      temporary path is gone. */
  ghost predicate MovesOn(s: State, t: State, id: nat)
    requires id in s.jobs
  {
    && t.acks == s.acks && t.wire == s.wire && t.announced == s.announced && t.jobs - {id} == s.jobs - {id}
    && if id in t.jobs then t.jobs[id].record == s.jobs[id].record && Rank(t.jobs[id].stage) < Rank(s.jobs[id].stage)
       else Failed(t, id) || TempPath(s.jobs[id].record.path) !in t.fs
  }

  lemma InstallMovesOn(source: map<Path, Chunk>, s: State, id: nat)
    requires id in s.jobs && s.jobs[id].record.path != []
    ensures MovesOn(s, OnInstall(source, s, id, 0), id)
  {
    TempDiffers(s.jobs[id].record.path);
    hide Parent, TempPath;
  }

  lemma NextMovesOn(records: seq<Record>, source: map<Path, Chunk>, s: State, id: nat)
    requires id in s.jobs && s.jobs[id].record.path != []
    ensures MovesOn(s, Step(records, source, s, NextOf(s, id)), id)
  {
    hide OnInstall, OpenedTemp;
    if s.jobs[id].stage == Writing {
      InstallMovesOn(source, s, id);
    }
  }

  /** Running one transfer to its end. */
  lemma {:induction false} RunJob(records: seq<Record>, source: map<Path, Chunk>, s: State, id: nat)
    returns (actions: seq<Action>, t: State)
    requires id in s.jobs && s.jobs[id].record.path != []
    ensures Reaches(records, source, s, actions, t)
    ensures t.acks == s.acks && t.wire == s.wire && t.announced == s.announced && t.jobs == s.jobs - {id}
    ensures Failed(t, id) || TempPath(s.jobs[id].record.path) !in t.fs
    decreases Rank(s.jobs[id].stage)
  {
    var a := NextOf(s, id);
    var u := Step(records, source, s, a);
    NextMovesOn(records, source, s, id);
    hide Step, TempPath;
    if id in u.jobs {
      actions, t := RunJob(records, source, u, id);
    } else {
      actions, t := [], u;
    }
    StepOn(records, source, s, a, actions, t);
    actions := [a] + actions;
  }

  predicate JobsHavePaths(s: State) {
    forall id <- s.jobs :: s.jobs[id].record.path != []
  }

  /** Every other transfer first. */
  lemma {:induction false} RunOthers(records: seq<Record>, source: map<Path, Chunk>, s: State, r: Record)
    returns (actions: seq<Action>, t: State)
    requires JobsHavePaths(s) && HasJob(s, r)
    ensures Reaches(records, source, s, actions, t)
    ensures t.acks == s.acks && t.wire == s.wire && t.announced == s.announced && HasJob(t, r) && t.jobs.Keys == {r.id}
    decreases |s.jobs|
  {
    if id: nat :| id in s.jobs && id != r.id {
      var first, u := RunJob(records, source, s, id);
      assert u.jobs.Keys == s.jobs.Keys - {id};
      var rest;
      rest, t := RunOthers(records, source, u, r);
      RunOn(records, source, s, first, u, rest, t);
      actions := first + rest;
    } else {
      actions, t := [], s;
    }
  }

  lemma AllOnWire(records: seq<Record>)
    requires WellOrdered(records)
    ensures DistinctRecords(records)
  {
  }

  predicate OnlyJobs(records: seq<Record>, s: State) {
    s.announced == |records| && s.wire == [] && s.acks == []
  }

  /** Everything is served and nothing transferred yet. */
  lemma ServeEverything(records: seq<Record>, source: map<Path, Chunk>, d: Tree, r: Record)
    returns (actions: seq<Action>, t: State)
    requires WellOrdered(records) && r in records && NeedsTransfer(d, r)
    ensures Reaches(records, source, Start(d), actions, t)
    ensures OnlyJobs(records, t) && HasJob(t, r) && JobsHavePaths(t)
  {
    AllOnWire(records);
    var a1, s1 := AnnounceAll(records, source, Start(d));
    assert s1.wire == records;
    assert Coming(s1, r);
    hide Coming, Reaches, NeedsTransfer, DistinctRecords;
    var a2, s2 := ServeAll(records, source, s1, r);
    var a3;
    a3, t := DrainAcks(records, source, s2);
    RunOn(records, source, Start(d), a1, s1, a2, s2);
    RunOn(records, source, Start(d), a1 + a2, s2, a3, t);
    actions := a1 + a2 + a3;
    StartAccount(records, d);
    RunKeepsAccount(records, source, Start(d), actions, t);
    JobsAreAnnounced(records, t);
  }

  lemma JobsAreAnnounced(records: seq<Record>, s: State)
    requires WellOrdered(records) && AccountInv(records, s)
    ensures JobsHavePaths(s)
  {
  }

  /** Every transfer, that of `r` last. */
  lemma TransferLast(records: seq<Record>, source: map<Path, Chunk>, s: State, r: Record)
    returns (actions: seq<Action>, t: State)
    requires OnlyJobs(records, s) && HasJob(s, r) && JobsHavePaths(s)
    ensures Reaches(records, source, s, actions, t) && OnlyJobs(records, t) && t.jobs == map[]
    ensures Failed(t, r.id) || TempPath(r.path) !in t.fs
  {
    hide Reaches, TempPath;
    var first, u := RunOthers(records, source, s, r);
    var last;
    last, t := RunJob(records, source, u, r.id);
    RunOn(records, source, s, first, u, last, t);
    actions := first + last;
    assert t.jobs.Keys == {};
  }

  /** If the temporary path of a file to be transferred is announced, some finished run
      fails: serve everything, run every other transfer, and that one last. */
  lemma SomeRunFails(records: seq<Record>, source: map<Path, Chunk>, d: Tree, r: Record, q: Record)
    returns (actions: seq<Action>, t: State)
    requires WellOrdered(records) && Free(records, d)
    requires r in records && q in records && NeedsTransfer(d, r) && q.path == TempPath(r.path)
    ensures Reaches(records, source, Start(d), actions, t) && Finished(records, t)
    ensures Failed(t, r.id) || q.path !in t.fs
    ensures !Delivered(records, source, t)
  {
    hide Reaches, WellOrdered, Free, NeedsTransfer, TempPath, Matches, NeedsUpdate;
    var first, s := ServeEverything(records, source, d, r);
    var last;
    last, t := TransferLast(records, source, s, r);
    RunOn(records, source, Start(d), first, s, last, t);
    actions := first + last;
    if q.path !in t.fs {
      assert !Converged(source, q, t);
    }
  }

  /** Every run that can go no further has delivered everything, without a failure on the
      way, exactly when no file that needs a transfer has an announced temporary path. */
  lemma EveryRunDeliversExactly(records: seq<Record>, source: map<Path, Chunk>, d: Tree)
    requires WellOrdered(records) && SourceSteady(records, source) && Free(records, d)
    ensures EveryRunDelivers(records, source, d) <==> TempsClear(records, d)
  {
    if TempsClear(records, d) {
      forall actions, t | Reaches(records, source, Start(d), actions, t) && Finished(records, t)
        ensures Delivered(records, source, t)
      {
        ParentsAlwaysExist(records, source, d, actions, t);
        RunConverges(records, source, d, actions, t);
      }
    } else {
      var r, q :| r in records && q in records && NeedsTransfer(d, r) && q.path == TempPath(r.path);
      var actions, t := SomeRunFails(records, source, d, r, q);
    }
  }

  /** A file x and a file x.qsync, both new. */
  lemma XAndItsTemp(bytes: Chunk, seconds: int) returns (records: seq<Record>, source: map<Path, Chunk>)
    ensures records == [Record(1, ["x"], Regular, |bytes|, seconds), Record(2, ["x.qsync"], Regular, 0, seconds)]
    ensures WellOrdered(records) && SourceSteady(records, source) && Free(records, map[[] := Folder(0)])
    ensures !EveryRunDelivers(records, source, map[[] := Folder(0)])
  {
    var x, y := ["x"], ["x.qsync"];
    var a, b := Record(1, x, Regular, |bytes|, seconds), Record(2, y, Regular, 0, seconds);
    records, source := [a, b], map[x := bytes, y := []];
    assert Parent(x) == [] && Parent(y) == [];
    assert TempPath(x) == y by {
      assert "x" + ".qsync" == "x.qsync";
    }
    assert a in records && b in records && NeedsTransfer(map[[] := Folder(0)], a);
    EveryRunDeliversExactly(records, source, map[[] := Folder(0)]);
  }
}
