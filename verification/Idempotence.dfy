/** A second run over trees that have not changed since the first. */
module Idempotence {
  import opened Bytes
  import opened Convergence
  import opened FindFiles
  import opened Sync
  import opened TempPaths
  import opened Traversal

  ghost predicate NothingToTransfer(records: seq<Record>, fs: Tree) {
    forall r <- records :: !NeedsTransfer(fs, r)
  }

  /** No data stream has been opened and none will be. */
  ghost predicate QuietInv(records: seq<Record>, s: State) {
    NothingToTransfer(records, s.fs) && s.jobs == map[] && s.installed == {} && forall r <- s.wire :: r in records
  }

  /** Updating a directory makes no file older or shorter. */
  lemma UpdateIsQuiet(fs: Tree, r: Record, now: int, q: Record)
    requires r.kind == Directory && UpdatedFolder(fs, r, now).Some? && q.path != r.path && !NeedsTransfer(fs, q)
    ensures !NeedsTransfer(UpdatedFolder(fs, r, now).value, q)
  {
  }

  lemma QuietServe(records: seq<Record>, s: State, now: int)
    requires WellOrdered(records) && QuietInv(records, s) && s.wire != []
    ensures QuietInv(records, OnServe(s, now))
  {
    var r, t := s.wire[0], OnServe(s, now);
    assert r in s.wire && forall q <- t.wire :: q in s.wire;
    assert !NeedsTransfer(s.fs, r);
    if t.fs != s.fs {
      forall q <- records ensures !NeedsTransfer(t.fs, q) {
        if q.path != r.path {
          UpdateIsQuiet(s.fs, r, now, q);
        }
      }
    }
  }

  lemma {:induction false} QuietRun(records: seq<Record>, source: map<Path, Chunk>, s: State, actions: seq<Action>, t: State)
    requires WellOrdered(records) && QuietInv(records, s) && Reaches(records, source, s, actions, t)
    ensures QuietInv(records, t)
    decreases |actions|
  {
    hide WellOrdered, NothingToTransfer;
    if actions != [] {
      match actions[0] {
        case Serve(now) => QuietServe(records, s, now);
        case _ =>
      }
      QuietRun(records, source, Step(records, source, s, actions[0]), actions[1..], t);
    }
  }

  ghost predicate EveryRunIsQuiet(records: seq<Record>, source: map<Path, Chunk>, fs: Tree) {
    forall actions, t :: Reaches(records, source, Start(fs), actions, t) ==> t.jobs == map[] && t.installed == {}
  }

  /** No interleaving of a run ever opens a data stream if and only if no announced file
      is missing, older than announced or of another size at the start. */
  lemma QuietExactly(records: seq<Record>, source: map<Path, Chunk>, fs: Tree)
    requires WellOrdered(records)
    ensures EveryRunIsQuiet(records, source, fs) <==> NothingToTransfer(records, fs)
  {
    if NothingToTransfer(records, fs) {
      forall actions, t | Reaches(records, source, Start(fs), actions, t) ensures t.jobs == map[] && t.installed == {} {
        QuietRun(records, source, Start(fs), actions, t);
      }
    } else {
      var r :| r in records && NeedsTransfer(fs, r);
      hide Reaches, WellOrdered;
      var actions, t := ServeEverything(records, source, fs, r);
      assert t.jobs != map[];
    }
  }

  /** After a run that has delivered its records, whatever the circumstances, a second one
      over the same records opens no data stream in any interleaving, and every file stays
      up to date. */
  lemma SecondRunIsQuiet(records: seq<Record>, source: map<Path, Chunk>, t: State, again: seq<Action>, u: State)
    requires WellOrdered(records) && (forall r <- records :: Converged(source, r, t))
    requires Reaches(records, source, Start(t.fs), again, u)
    ensures u.jobs == map[] && u.installed == {}
    ensures forall r <- records :: r.kind == Regular ==> Lookup(u.fs, r.path).Some? && !NeedsUpdate(u.fs, r)
  {
    forall r <- records ensures !NeedsTransfer(t.fs, r) {
      assert Converged(source, r, t);
    }
    QuietRun(records, source, Start(t.fs), again, u);
    forall r <- records | r.kind == Regular ensures Lookup(u.fs, r.path).Some? && !NeedsUpdate(u.fs, r) {
      assert !NeedsTransfer(u.fs, r);
    }
  }
}
