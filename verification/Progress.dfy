/** Whole runs end: every step uses up some of the work that the announced records can
    cause. */
module Progress {
  import opened Bytes
  import opened FindFiles
  import opened Sync
  import opened Traversal

  /** The steps a transfer still has before it, at most. */
  function Rank(stage: Stage): nat {
    match stage
    case Asked => 3
    case Taken => 2
    case Writing => 1
  }

  function JobSteps(jobs: map<nat, Job>, id: nat): nat {
    if id in jobs then Rank(jobs[id].stage) else 0
  }

  /** Of the transfers with ids from 1 to `n`. */
  function AllJobSteps(jobs: map<nat, Job>, n: nat): nat {
    if n == 0 then 0 else AllJobSteps(jobs, n - 1) + JobSteps(jobs, n)
  }

  lemma {:induction false} OneJobChanges(jobs: map<nat, Job>, jobs': map<nat, Job>, id: nat, n: nat)
    requires jobs - {id} == jobs' - {id}
    ensures AllJobSteps(jobs', n) + (if 1 <= id <= n then JobSteps(jobs, id) else 0)
         == AllJobSteps(jobs, n) + (if 1 <= id <= n then JobSteps(jobs', id) else 0)
  {
    if n > 0 {
      OneJobChanges(jobs, jobs', id, n - 1);
      if n != id {
        assert (n in jobs <==> n in jobs - {id}) && (n in jobs' <==> n in jobs' - {id});
        assert n in jobs ==> (jobs - {id})[n] == jobs[n] && (jobs' - {id})[n] == jobs'[n];
      }
    }
  }

  /** A record is announced, served, and then acknowledged or transferred. */
  function Work(records: seq<Record>, s: State): int {
    5 * (|records| - s.announced) + 4 * |s.wire| + |s.acks| + AllJobSteps(s.jobs, |records|)
  }

  /** What one step on a data stream does to the transfers. */
  lemma JobStep(records: seq<Record>, source: map<Path, Chunk>, s: State, a: Action, id: nat)
    requires Enabled(records, s, a) && id in s.jobs
    requires a == AskArrives(id) || (a.OpenTemp? && a.id == id) || (a.Install? && a.id == id)
    ensures var t := Step(records, source, s, a);
            && t.jobs - {id} == s.jobs - {id} && JobSteps(t.jobs, id) < JobSteps(s.jobs, id)
            && t.announced == s.announced && t.wire == s.wire && t.acks == s.acks
  {
    hide OpenedTemp, OnInstall;
    if a.Install? {
      InstallFrame(source, s, id, a.now);
    }
  }

  lemma ServeUsesWork(records: seq<Record>, s: State, now: int)
    requires NumberedFromOne(records) && AccountInv(records, s) && s.wire != []
    ensures Work(records, OnServe(s, now)) < Work(records, s)
  {
    HeadOfWire(records, s);
    ServeFrame(s, now);
    hide AccountInv, NumberedFromOne, OnServe;
    OneJobChanges(s.jobs, OnServe(s, now).jobs, s.wire[0].id, |records|);
  }

  /** Serving adds an acknowledgement or a data stream, or neither. */
  lemma ServeFrame(s: State, now: int)
    requires s.wire != [] && s.wire[0].id !in s.jobs
    ensures var r, t := s.wire[0], OnServe(s, now);
            && t.announced == s.announced && |t.wire| == |s.wire| - 1 && t.jobs - {r.id} == s.jobs - {r.id}
            && |t.acks| + JobSteps(t.jobs, r.id) <= |s.acks| + 3 && JobSteps(s.jobs, r.id) == 0
  {
    hide NeedsUpdate, UpdatedFolder, Lookup;
  }

  lemma JobUsesWork(records: seq<Record>, source: map<Path, Chunk>, s: State, a: Action, id: nat)
    requires NumberedFromOne(records) && AccountInv(records, s) && Enabled(records, s, a) && id in s.jobs
    requires a == AskArrives(id) || (a.OpenTemp? && a.id == id) || (a.Install? && a.id == id)
    ensures Work(records, Step(records, source, s, a)) < Work(records, s)
  {
    JobIsAnnounced(records, s, id);
    JobStep(records, source, s, a, id);
    hide AccountInv, NumberedFromOne, Step, Enabled;
    OneJobChanges(s.jobs, Step(records, source, s, a).jobs, id, |records|);
  }

  lemma StepUsesWork(records: seq<Record>, source: map<Path, Chunk>, s: State, a: Action)
    requires NumberedFromOne(records) && AccountInv(records, s) && Enabled(records, s, a)
    ensures Work(records, Step(records, source, s, a)) < Work(records, s)
  {
    hide AccountInv, NumberedFromOne, OnServe, OnAsk, OnOpen, OnInstall;
    match a {
      case Announce =>
      case AckArrives =>
      case Serve(now) => ServeUsesWork(records, s, now);
      case _ => JobUsesWork(records, source, s, a, a.id);
    }
  }

  lemma JobIsAnnounced(records: seq<Record>, s: State, id: nat)
    requires NumberedFromOne(records) && AccountInv(records, s) && id in s.jobs
    ensures 1 <= id <= |records| && s.jobs[id].record == records[id - 1] && records[id - 1] in records && records[id - 1].id == id
  {
  }

  lemma {:induction false} RunUsesWork(records: seq<Record>, source: map<Path, Chunk>, s: State, actions: seq<Action>, t: State)
    requires NumberedFromOne(records) && AccountInv(records, s) && Reaches(records, source, s, actions, t)
    ensures AccountInv(records, t) && |actions| <= Work(records, s) - Work(records, t)
    decreases |actions|
  {
    hide AccountInv, Step, Work, NumberedFromOne;
    if actions != [] {
      StepKeepsAccount(records, source, s, actions[0]);
      StepUsesWork(records, source, s, actions[0]);
      RunUsesWork(records, source, Step(records, source, s, actions[0]), actions[1..], t);
    }
  }

  /** No run, whatever fails in it, has more than five steps for each record: every run
      gets to where it can go no further. */
  lemma RunsEnd(records: seq<Record>, source: map<Path, Chunk>, fs: Tree, actions: seq<Action>, t: State)
    requires NumberedFromOne(records) && Reaches(records, source, Start(fs), actions, t)
    ensures |actions| <= 5 * |records|
  {
    StartAccount(records, fs);
    RunUsesWork(records, source, Start(fs), actions, t);
    NoJobs(|records|);
    assert t.announced <= |records|;
  }

  lemma {:induction false} NoJobs(n: nat)
    ensures AllJobSteps(map[], n) == 0
  {
    if n > 0 {
      NoJobs(n - 1);
    }
  }
}
