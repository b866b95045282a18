/** The server's receive-and-install pipeline for one data stream, as small steps of its
    workers that interleave with each other, with shutdown and with outside writers. */
module ReceivePipeline {
  import opened Bytes
  import opened Wrappers

  datatype File = File(bytes: Chunk, time: int)

  /** What the context remembers of the destination when the stream is opened. */
  datatype Snapshot = Snapshot(size: nat, time: int)

  datatype Context = Context(newFileSize: nat, fileTime: int, snapshot: Option<Snapshot>)

  /** Where a worker stands; its receive is completed from Completed on. */
  datatype Phase = Queued | Opened | Written | Accounted | Completed | Closing | Finalising | Dropping

  /** One replacement of the destination; `tested` if its existence could be tested. */
  datatype Install = Install(before: Option<File>, after: File, tested: bool)

  /** Outcomes of the file-system calls of one finalisation. */
  datatype Results = Results(existsFails: bool, sizeFails: bool, timeFails: bool,
                             renameFails: bool, setTimeFails: bool, now: int)

  datatype State = State(
    // the stream
    streamUp: bool,              // SHUTDOWN_COMPLETE has not been seen
    pended: bool,                // a receive is waiting for ReceiveComplete
    received: Chunk,             // all bytes indicated so far
    finSeen: bool,               // the last receive carried FIN
    receives: nat,
    // the context
    buffers: Chunk,
    finalReceive: bool,
    bytesWritten: nat,
    isOpen: bool,                // FileWriteStream.is_open()
    renamed: bool,               // the file it holds open has become the destination
    refCount: nat,
    freed: bool,
    workers: map<nat, Phase>,    // by the receive that queued them
    // the file system
    temp: Option<Chunk>,
    destination: Option<File>,
    // history
    leaked: nat,                 // workers that left without their Deref
    broken: bool,                // an open or a write has failed
    overlap: nat,                // workers between ReceiveComplete and the flag when FIN arrived
    finalisations: nat,
    installs: seq<Install>)

  datatype Action =
    | Receive(data: Chunk, fin: bool)
    | Open(k: nat, ok: bool)
    | Write(k: nat, part: nat, ok: bool, now: int)
    | Account(k: nat)
    | ReceiveComplete(k: nat)
    | TestFinal(k: nat)
    | Close(k: nat)
    | Finalise(k: nat, results: Results)
    | Deref(k: nat)
    | ShutdownComplete
    | Outside(file: Option<File>)

  function Initial(destination: Option<File>): State {
    State(true, false, [], false, 0, [], false, 0, false, false, 1, false, map[], None, destination,
          0, false, 0, 0, [])
  }

  predicate At(s: State, k: nat, p: Phase) {
    k in s.workers && s.workers[k] == p
  }

  predicate Enabled(s: State, a: Action) {
    match a
    case Receive(_, _) => s.streamUp && !s.pended && !s.finSeen
    case Open(k, _) => At(s, k, Queued)
    case Write(k, _, _, _) => At(s, k, Opened)
    case Account(k) => At(s, k, Written)
    case ReceiveComplete(k) => At(s, k, Accounted)
    case TestFinal(k) => At(s, k, Completed)
    case Close(k) => At(s, k, Closing)
    case Finalise(k, _) => At(s, k, Finalising)
    case Deref(k) => At(s, k, Dropping)
    case ShutdownComplete => s.streamUp
    case Outside(_) => true
  }

  function InPhase(workers: map<nat, Phase>, p: Phase): set<nat> {
    set k | k in workers && workers[k] == p
  }

  /** Lines 55 to 84: the destination must still be what it was at the snapshot. A failed
      existence test counts as "does not exist" and skips the comparison. */
  predicate Validated(c: Context, destination: Option<File>, r: Results) {
    c.snapshot.Some? && !r.existsFails && destination.Some? ==>
      && !r.sizeFails && |destination.value.bytes| == c.snapshot.value.size
      && !r.timeFails && destination.value.time == c.snapshot.value.time
  }

  /** Lines 85 to 98: the file that the rename puts in place, if it gets there. */
  function Replacement(c: Context, s: State, r: Results): Option<File> {
    if !Validated(c, s.destination, r) || s.bytesWritten != c.newFileSize || r.renameFails || s.temp.None? then None
    else Some(File(s.temp.value, if r.setTimeFails then r.now else c.fileTime))
  }

  /** Lines 52 and 53. From here on another worker can open the stream again. */
  function OnClose(s: State, k: nat): State {
    s.(workers := s.workers[k := Finalising], isOpen := false, renamed := false, finalisations := s.finalisations + 1)
  }

  /** Lines 54 to 100: validation, rename and time in one step against the other workers
      and against outside writers. A size mismatch is the one failure that leaves the
      temporary file behind. */
  function OnFinalise(c: Context, s: State, k: nat, r: Results): State {
    var file := Replacement(c, s, r);
    s.(workers := s.workers[k := Dropping], renamed := file.Some? && s.isOpen,
       temp := if Validated(c, s.destination, r) && s.bytesWritten != c.newFileSize then s.temp else None,
       destination := if file.Some? then file else s.destination,
       installs := if file.Some? then s.installs + [Install(s.destination, file.value, !r.existsFails)]
                   else s.installs)
  }

  function OnDeref(s: State, k: nat): State {
    s.(workers := s.workers - {k}, refCount := Less(s.refCount), freed := s.refCount <= 1)
  }

  function OnShutdown(s: State): State {
    s.(streamUp := false, refCount := Less(s.refCount), freed := s.refCount <= 1)
  }

  function Less(n: nat): nat {
    if n == 0 then 0 else n - 1
  }

  function OnReceive(s: State, data: Chunk, fin: bool): State {
    s.(pended := true, received := s.received + data, finSeen := fin, receives := s.receives + 1,
       buffers := data, finalReceive := fin, refCount := s.refCount + 1,
       workers := s.workers[s.receives := Queued],
       overlap := if fin then |InPhase(s.workers, Completed)| else s.overlap)
  }

  function OnOpen(s: State, k: nat, ok: bool): State {
    if !s.isOpen && !ok then s.(workers := s.workers - {k}, leaked := s.leaked + 1, broken := true)
    else s.(workers := s.workers[k := Opened], temp := if s.isOpen then s.temp else Some([]), isOpen := true)
  }

  /** A write to a stream that another worker has closed fails like any other. One to a
      file that another worker has renamed under the stream goes to the destination, and
      one to a file it has removed is lost. */
  function OnWrite(s: State, k: nat, part: nat, ok: bool, now: int): State {
    var done := s.isOpen && ok;
    var n := if part < |s.buffers| then part else |s.buffers|;
    var bytes := if done then s.buffers else s.buffers[..n];
    s.(workers := s.workers[k := if done then Written else Dropping],
       temp := if s.isOpen && s.temp.Some? then Some(s.temp.value + bytes) else s.temp,
       destination := if s.isOpen && s.renamed && bytes != [] then Appended(s.destination, bytes, now) else s.destination,
       broken := s.broken || !done)
  }

  function Appended(d: Option<File>, bytes: Chunk, now: int): Option<File> {
    match d
    case None => None
    case Some(file) => Some(File(file.bytes + bytes, now))
  }

  function OnAccount(s: State, k: nat): State {
    s.(workers := s.workers[k := Accounted], bytesWritten := s.bytesWritten + |s.buffers|)
  }

  function OnComplete(s: State, k: nat): State {
    s.(workers := s.workers[k := Completed], pended := false)
  }

  /** `latched` is the repaired worker, which keeps the FIN flag of its own receive. */
  function OnTestFinal(latched: bool, s: State, k: nat): State {
    var final := if latched then s.finSeen && k + 1 == s.receives else s.finalReceive;
    s.(workers := s.workers[k := if final then Closing else Dropping])
  }

  function Step(c: Context, latched: bool, s: State, a: Action): State
    requires Enabled(s, a)
  {
    match a
    case Receive(data, fin) => OnReceive(s, data, fin)
    case Open(k, ok) => OnOpen(s, k, ok)
    case Write(k, part, ok, now) => OnWrite(s, k, part, ok, now)
    case Account(k) => OnAccount(s, k)
    case ReceiveComplete(k) => OnComplete(s, k)
    case TestFinal(k) => OnTestFinal(latched, s, k)
    case Close(k) => OnClose(s, k)
    case Finalise(k, r) => OnFinalise(c, s, k, r)
    case Deref(k) => OnDeref(s, k)
    case ShutdownComplete => OnShutdown(s)
    case Outside(file) => s.(destination := file, renamed := false)
  }

  predicate Reaches(c: Context, latched: bool, s: State, actions: seq<Action>, t: State)
    decreases |actions|
  {
    if actions == [] then s == t
    else Enabled(s, actions[0]) && Reaches(c, latched, Step(c, latched, s, actions[0]), actions[1..], t)
  }

  lemma {:induction false} Extend(c: Context, latched: bool, s: State, actions: seq<Action>, t: State, a: Action)
    requires Reaches(c, latched, s, actions, t) && Enabled(t, a)
    ensures Reaches(c, latched, s, actions + [a], Step(c, latched, t, a))
    decreases |actions|
  {
    hide Step;
    if actions == [] {
      assert Reaches(c, latched, Step(c, latched, t, a), [], Step(c, latched, t, a));
      assert actions + [a] == [a] && [a][1..] == [];
    } else {
      assert (actions + [a])[1..] == actions[1..] + [a];
      Extend(c, latched, Step(c, latched, s, actions[0]), actions[1..], t, a);
    }
  }

  // ---- Lifetime of the context ----

  /** One reference for the stream, one for every queued or running worker, and one for
      every worker that left through the failed open. */
  predicate LifetimeInv(s: State) {
    && s.refCount == (if s.streamUp then 1 else 0) + |s.workers| + s.leaked
    && (s.freed <==> s.refCount == 0)
    && (forall k <- s.workers :: k < s.receives)
  }

  /** A step that keeps the set of workers keeps the count. */
  lemma SameWorkers(s: State, t: State)
    requires LifetimeInv(s) && t.workers.Keys == s.workers.Keys
    requires t.refCount == s.refCount && t.streamUp == s.streamUp && t.leaked == s.leaked
    requires t.freed == s.freed && t.receives == s.receives
    ensures LifetimeInv(t)
  {
    assert |t.workers| == |t.workers.Keys| && |s.workers| == |s.workers.Keys|;
  }

  lemma MovedWorker(m: map<nat, Phase>, k: nat, p: Phase)
    requires k in m
    ensures m[k := p].Keys == m.Keys
  {
  }

  lemma OneFewer(m: map<nat, Phase>, k: nat)
    requires k in m
    ensures |m - {k}| == |m| - 1
  {
    assert (m - {k}).Keys == m.Keys - {k};
  }

  lemma NewWorker(m: map<nat, Phase>, k: nat, p: Phase)
    requires k !in m
    ensures |m[k := p]| == |m| + 1
  {
    assert m[k := p].Keys == m.Keys + {k};
  }

  lemma StepKeepsLifetime(c: Context, latched: bool, s: State, a: Action)
    requires LifetimeInv(s) && Enabled(s, a)
    ensures LifetimeInv(Step(c, latched, s, a))
  {
    match a
    case Receive(data, fin) => ReceiveKeepsLifetime(s, data, fin); hide LifetimeInv, OnReceive;
    case Open(k, ok) => OpenKeepsLifetime(s, k, ok); hide LifetimeInv, OnOpen;
    case Deref(k) => DerefKeepsLifetime(s, k); hide LifetimeInv, OnDeref;
    case ShutdownComplete => hide InPhase;
    case Outside(_) =>
    case _ => hide LifetimeInv, Step; WorkerMovesOn(c, latched, s, a);
  }

  lemma ReceiveKeepsLifetime(s: State, data: Chunk, fin: bool)
    requires LifetimeInv(s) && Enabled(s, Receive(data, fin))
    ensures LifetimeInv(OnReceive(s, data, fin))
  {
    hide InPhase;
    NewWorker(s.workers, s.receives, Queued);
  }

  lemma DerefKeepsLifetime(s: State, k: nat)
    requires LifetimeInv(s) && At(s, k, Dropping)
    ensures LifetimeInv(OnDeref(s, k))
  {
    OneFewer(s.workers, k);
  }

  lemma OpenKeepsLifetime(s: State, k: nat, ok: bool)
    requires LifetimeInv(s) && At(s, k, Queued)
    ensures LifetimeInv(OnOpen(s, k, ok))
  {
    OneFewer(s.workers, k);
    if s.isOpen || ok {
      MovedWorker(s.workers, k, Opened);
      SameWorkers(s, OnOpen(s, k, ok));
      hide LifetimeInv;
    }
  }

  /** The steps between the open and the dereference. */
  lemma WorkerMovesOn(c: Context, latched: bool, s: State, a: Action)
    requires LifetimeInv(s) && Enabled(s, a)
    requires a.Write? || a.Account? || a.ReceiveComplete? || a.TestFinal? || a.Close? || a.Finalise?
    ensures LifetimeInv(Step(c, latched, s, a))
  {
    var t := Step(c, latched, s, a);
    MovedWorker(s.workers, a.k, t.workers[a.k]);
    SameWorkers(s, t);
    hide LifetimeInv;
  }

  lemma {:induction false} RunKeepsLifetime(c: Context, latched: bool, s: State, actions: seq<Action>, t: State)
    requires LifetimeInv(s) && Reaches(c, latched, s, actions, t)
    ensures LifetimeInv(t)
    decreases |actions|
  {
    if actions != [] {
      StepKeepsLifetime(c, latched, s, actions[0]);
      RunKeepsLifetime(c, latched, Step(c, latched, s, actions[0]), actions[1..], t);
    }
  }

  /** Once the context is freed nothing that could touch it, and so nothing that could
      free it again, can happen. */
  lemma NothingAfterFree(c: Context, latched: bool, d: Option<File>, actions: seq<Action>, t: State, a: Action)
    requires Reaches(c, latched, Initial(d), actions, t) && t.freed && Enabled(t, a)
    ensures a.Outside?
  {
    RunKeepsLifetime(c, latched, Initial(d), actions, t);
    assert t.workers == map[];
  }

  /** When the stream is down and no worker is left, the context has been freed exactly
      if no worker took the failed-open exit, which skips the Deref. */
  lemma FreedExactlyWithoutOpenFailure(c: Context, latched: bool, d: Option<File>, actions: seq<Action>, t: State)
    requires Reaches(c, latched, Initial(d), actions, t)
    requires !t.streamUp && t.workers == map[]
    ensures t.freed <==> t.leaked == 0
  {
    RunKeepsLifetime(c, latched, Initial(d), actions, t);
  }

  /** One receive, an open that fails, shutdown: nobody is left and nothing is freed. */
  lemma FailedOpenLeaks(c: Context, d: Option<File>, data: Chunk) returns (actions: seq<Action>, t: State)
    ensures Reaches(c, false, Initial(d), actions, t)
    ensures !t.streamUp && t.workers == map[] && !t.freed && t.refCount == 1
  {
    var s0 := Initial(d);
    var s1 := Step(c, false, s0, Receive(data, false));
    var s2 := Step(c, false, s1, Open(0, false));
    assert s2.workers == map[];
    t := Step(c, false, s2, ShutdownComplete);
    assert Reaches(c, false, s0, [], s0);
    hide Step, Reaches;
    Extend(c, false, s0, [], s0, Receive(data, false));
    Extend(c, false, s0, [] + [Receive(data, false)], s1, Open(0, false));
    Extend(c, false, s0, [] + [Receive(data, false)] + [Open(0, false)], s2, ShutdownComplete);
    actions := [] + [Receive(data, false)] + [Open(0, false)] + [ShutdownComplete];
  }

  /** The worker with the dereference put back on the failed-open exit. */
  function RepairedStep(c: Context, latched: bool, s: State, a: Action): State
    requires Enabled(s, a)
  {
    if a.Open? && !a.ok && !s.isOpen then OnDeref(s, a.k).(broken := true) else Step(c, latched, s, a)
  }

  predicate RepairedReaches(c: Context, latched: bool, s: State, actions: seq<Action>, t: State)
    decreases |actions|
  {
    if actions == [] then s == t
    else Enabled(s, actions[0])
         && RepairedReaches(c, latched, RepairedStep(c, latched, s, actions[0]), actions[1..], t)
  }

  lemma RepairedStepKeepsLifetime(c: Context, latched: bool, s: State, a: Action)
    requires LifetimeInv(s) && s.leaked == 0 && Enabled(s, a)
    ensures LifetimeInv(RepairedStep(c, latched, s, a)) && RepairedStep(c, latched, s, a).leaked == 0
  {
    if a.Open? && !a.ok && !s.isOpen {
      OneFewer(s.workers, a.k);
    } else {
      StepKeepsLifetime(c, latched, s, a);
      hide LifetimeInv, OnReceive, OnWrite, OnFinalise;
    }
  }

  lemma {:induction false} RepairedRunKeepsLifetime(c: Context, latched: bool, s: State, actions: seq<Action>, t: State)
    requires LifetimeInv(s) && s.leaked == 0 && RepairedReaches(c, latched, s, actions, t)
    ensures LifetimeInv(t) && t.leaked == 0
    decreases |actions|
  {
    hide LifetimeInv, RepairedStep;
    if actions != [] {
      RepairedStepKeepsLifetime(c, latched, s, actions[0]);
      RepairedRunKeepsLifetime(c, latched, RepairedStep(c, latched, s, actions[0]), actions[1..], t);
    }
  }

  /** With the repair, in every reachable state, whatever fails: the context has been freed
      exactly if the stream is down and no worker is queued or running. */
  lemma RepairedFreedExactly(c: Context, latched: bool, d: Option<File>, actions: seq<Action>, t: State)
    requires RepairedReaches(c, latched, Initial(d), actions, t)
    ensures t.freed <==> !t.streamUp && t.workers == map[]
  {
    assert LifetimeInv(Initial(d));
    RepairedRunKeepsLifetime(c, latched, Initial(d), actions, t);
    assert |t.workers| == 0 <==> t.workers == map[];
  }

  // ---- Order of the receives ----

  predicate BeforeCompletion(p: Phase) {
    p == Queued || p == Opened || p == Written || p == Accounted
  }

  /** Only the worker of the last receive can still hold its buffers. */
  predicate OrderInv(s: State) {
    && (forall k <- s.workers :: k < s.receives && (s.workers[k] == Finalising ==> s.finalisations > 0))
    && (forall k <- s.workers :: BeforeCompletion(s.workers[k]) ==> s.pended && k + 1 == s.receives)
    && (s.pended && s.receives > 0 && s.receives - 1 in s.workers ==>
          BeforeCompletion(s.workers[s.receives - 1]) || s.workers[s.receives - 1] == Dropping)
    && s.finalReceive == s.finSeen
    && (if s.finSeen then s.receives > 0 else s.overlap == 0)
    && (s.pended && !s.broken ==>
          s.receives > 0 && s.receives - 1 in s.workers && BeforeCompletion(s.workers[s.receives - 1]))
    && (s.broken ==> s.pended && forall k <- s.workers :: !BeforeCompletion(s.workers[k]))
  }

  /** Any later move of a worker whose receive is complete, or its departure. */
  lemma LaterMoveKeepsOrder(s: State, t: State, k: nat)
    requires OrderInv(s) && k in s.workers && !BeforeCompletion(s.workers[k])
    requires t.workers == s.workers - {k} ||
             (k in t.workers && t.workers == s.workers[k := t.workers[k]] && !BeforeCompletion(t.workers[k]))
    requires s.workers[k] == Completed || s.workers[k] == Closing || s.workers[k] == Finalising || k !in t.workers
    requires t.receives == s.receives && t.pended == s.pended && t.finSeen == s.finSeen
    requires t.finalReceive == s.finalReceive && t.broken == s.broken && t.overlap == s.overlap
    requires t.finalisations >= s.finalisations && (k in t.workers && t.workers[k] == Finalising ==> t.finalisations > 0)
    ensures OrderInv(t)
  {
  }

  lemma WriteKeepsOrder(s: State, k: nat, part: nat, ok: bool, now: int)
    requires OrderInv(s) && At(s, k, Opened)
    ensures OrderInv(OnWrite(s, k, part, ok, now))
  {
  }

  lemma OpenKeepsOrder(s: State, k: nat, ok: bool)
    requires OrderInv(s) && At(s, k, Queued)
    ensures OrderInv(OnOpen(s, k, ok))
  {
  }

  lemma ReceiveKeepsOrder(s: State, data: Chunk, fin: bool)
    requires OrderInv(s) && Enabled(s, Receive(data, fin))
    ensures OrderInv(OnReceive(s, data, fin))
  {
    hide InPhase;
  }

  lemma StepKeepsOrder(c: Context, latched: bool, s: State, a: Action)
    requires OrderInv(s) && Enabled(s, a)
    ensures OrderInv(Step(c, latched, s, a))
  {
    match a
    case Receive(data, fin) => ReceiveKeepsOrder(s, data, fin); hide OrderInv, OnReceive;
    case Write(k, part, ok, now) => WriteKeepsOrder(s, k, part, ok, now); hide OrderInv, OnWrite;
    case Open(k, ok) => OpenKeepsOrder(s, k, ok); hide OrderInv, OnOpen;
    case Account(_) =>
    case ReceiveComplete(_) =>
    case ShutdownComplete =>
    case Outside(_) =>
    case _ => hide OrderInv, Step; LateStepKeepsOrder(c, latched, s, a);
  }

  lemma LateStepKeepsOrder(c: Context, latched: bool, s: State, a: Action)
    requires OrderInv(s) && Enabled(s, a) && (a.TestFinal? || a.Close? || a.Finalise? || a.Deref?)
    ensures OrderInv(Step(c, latched, s, a))
  {
    hide Replacement, Validated;
    LaterMoveKeepsOrder(s, Step(c, latched, s, a), a.k);
    hide OrderInv;
  }

  // ---- Finalisation and the temporary file ----

  /** The runs on which the flag can be trusted: either it is latched per receive, or no
      worker stood between ReceiveComplete and the flag when FIN arrived. */
  predicate Clean(latched: bool, s: State) {
    latched || s.overlap == 0
  }

  function Last(s: State): Option<Phase> {
    if s.receives > 0 && s.receives - 1 in s.workers then Some(s.workers[s.receives - 1]) else None
  }

  /** The worker of the receive that carried FIN has closed the file. */
  predicate FinHandled(s: State) {
    s.finSeen && (Last(s) == None || Last(s) == Some(Dropping) || Last(s) == Some(Finalising))
  }

  predicate FlagInv(latched: bool, s: State) {
    && (forall k <- s.workers :: s.workers[k] == Closing || s.workers[k] == Finalising ==> s.finSeen && k + 1 == s.receives)
    && (!latched && s.finSeen ==> forall k <- s.workers :: s.workers[k] == Completed ==> k + 1 == s.receives)
    && (s.broken ==>
          s.finalisations == 0 && forall k <- s.workers :: s.workers[k] != Closing && s.workers[k] != Finalising)
    && (!s.broken ==> s.finalisations == if FinHandled(s) then 1 else 0)
  }

  /** The bytes of the last receive, while they are not in the file. */
  function Tail(s: State): Chunk {
    if Last(s) == Some(Queued) || Last(s) == Some(Opened) then s.buffers else []
  }

  /** Until it is finalised the temporary file is, in order, everything received except
      what the last worker has yet to write, and BytesWritten counts it. */
  predicate ContentInv(s: State) {
    s.finalisations == 0 && !s.broken ==>
      if s.isOpen then
        && s.temp.Some? && s.temp.value + Tail(s) == s.received
        && s.bytesWritten + (if Last(s) == Some(Written) then |s.buffers| else 0) == |s.temp.value|
      else
        s.received == Tail(s) && s.bytesWritten == 0 && (s.receives == 0 || Last(s) == Some(Queued))
  }

  /** What holds of every replacement, whatever overtakes the flag. */
  predicate ValidatedInv(c: Context, s: State) {
    && (forall k <- s.workers :: s.workers[k] == Closing || s.workers[k] == Finalising ==> s.finSeen)
    && (s.finalisations > 0 ==> s.finSeen)
    && forall i <- s.installs ::
         && s.finSeen
         && (i.tested && c.snapshot.Some? && i.before.Some? ==>
               Snapshot(|i.before.value.bytes|, i.before.value.time) == c.snapshot.value)
  }

  predicate InstallInv(c: Context, s: State) {
    && (s.finalisations == 0 ==> s.installs == []) && (s.renamed ==> s.installs != [])
    && (Last(s) == Some(Finalising) ==>
          s.installs == [] && s.temp == Some(s.received) && s.bytesWritten == |s.received|)
    && |s.installs| <= 1
    && forall i <- s.installs :: i.after.bytes == s.received && |s.received| == c.newFileSize
  }

  /** On the right, what a run keeps only as long as it is clean. */
  predicate Inv(c: Context, latched: bool, s: State) {
    && OrderInv(s) && ContentInv(s) && ValidatedInv(c, s)
    && (Clean(latched, s) ==> FlagInv(latched, s) && InstallInv(c, s))
  }

  /** `Inv` on a clean state. */
  predicate CleanInv(c: Context, latched: bool, s: State) {
    OrderInv(s) && ContentInv(s) && Clean(latched, s) && FlagInv(latched, s) && InstallInv(c, s)
  }

  // What a step does to the content of the temporary file.

  lemma ReceiveKeepsContent(s: State, data: Chunk, fin: bool)
    requires OrderInv(s) && ContentInv(s) && Enabled(s, Receive(data, fin))
    ensures ContentInv(OnReceive(s, data, fin))
  {
    var t := OnReceive(s, data, fin);
    assert Last(t) == Some(Queued) && Tail(t) == data;
    assert !s.broken && Tail(s) == [];
    hide OrderInv;
    if s.isOpen && s.temp.Some? {
      NoSuffix(s.temp.value);
    }
    NoPrefix(data);
  }

  lemma OpenKeepsContent(s: State, k: nat, ok: bool)
    requires OrderInv(s) && ContentInv(s) && At(s, k, Queued)
    ensures ContentInv(OnOpen(s, k, ok))
  {
    var t := OnOpen(s, k, ok);
    assert Last(s) == Some(Queued) && Tail(s) == s.buffers;
    if k in t.workers {
      assert Last(t) == Some(Opened) && Tail(t) == s.buffers;
      hide OrderInv, Last, Tail;
    }
  }

  lemma WriteKeepsContent(s: State, k: nat, part: nat, ok: bool, now: int)
    requires OrderInv(s) && ContentInv(s) && At(s, k, Opened)
    ensures ContentInv(OnWrite(s, k, part, ok, now))
  {
    assert Last(s) == Some(Opened) && Tail(s) == s.buffers;
    hide OrderInv;
    NoSuffix(s.received);
  }

  lemma AccountKeepsContent(s: State, k: nat)
    requires OrderInv(s) && ContentInv(s) && At(s, k, Written)
    ensures ContentInv(OnAccount(s, k))
  {
  }

  /** A worker that has counted its write moves on, or leaves: the file stays as it is. */
  predicate FileUntouched(s: State, t: State) {
    && t.receives == s.receives && t.broken == s.broken && t.finalisations >= s.finalisations
    && t.buffers == s.buffers && t.received == s.received && t.bytesWritten == s.bytesWritten
    && (t.finalisations == 0 ==> t.isOpen == s.isOpen && t.temp == s.temp)
  }

  predicate LateLast(s: State) {
    Last(s) == None || !BeforeCompletion(Last(s).value) || Last(s) == Some(Accounted)
  }

  lemma LaterMoveKeepsContent(s: State, t: State)
    requires ContentInv(s) && FileUntouched(s, t)
    requires Last(t) == Last(s) || (LateLast(s) && LateLast(t) && Last(s) != None)
    ensures ContentInv(t)
  {
    assert Tail(t) == Tail(s);
    hide Last, Tail;
  }

  lemma StepKeepsContent(c: Context, latched: bool, s: State, a: Action)
    requires OrderInv(s) && ContentInv(s) && Enabled(s, a)
    ensures ContentInv(Step(c, latched, s, a))
  {
    hide ContentInv, OrderInv, OnReceive, OnOpen, OnWrite, OnAccount;
    var t := Step(c, latched, s, a);
    match a
    case Receive(data, fin) => ReceiveKeepsContent(s, data, fin);
    case Open(k, ok) => OpenKeepsContent(s, k, ok);
    case Write(k, part, ok, now) => WriteKeepsContent(s, k, part, ok, now);
    case Account(k) => AccountKeepsContent(s, k);
    case Finalise(k, _) => FinalisingHasClosed(s, k); LaterMoveKeepsContent(s, t);
    case _ => LaterMoveKeepsContent(s, t);
  }

  lemma FinalisingHasClosed(s: State, k: nat)
    requires OrderInv(s) && At(s, k, Finalising)
    ensures s.finalisations > 0
  {
  }

  lemma StepKeepsValidated(c: Context, latched: bool, s: State, a: Action)
    requires OrderInv(s) && ValidatedInv(c, s) && Enabled(s, a)
    ensures ValidatedInv(c, Step(c, latched, s, a))
  {
    match a
    case Finalise(k, r) => FinaliseKeepsValidated(c, s, k, r);
    case _ => hide OnFinalise, Appended, InPhase;
  }

  lemma FinaliseKeepsValidated(c: Context, s: State, k: nat, r: Results)
    requires ValidatedInv(c, s) && At(s, k, Finalising)
    ensures ValidatedInv(c, OnFinalise(c, s, k, r))
  {
  }

  // What a clean step does to the flag and the replacements.

  lemma ReceiveKeeps(c: Context, latched: bool, s: State, data: Chunk, fin: bool)
    requires CleanInv(c, latched, s) && Enabled(s, Receive(data, fin))
    requires Clean(latched, OnReceive(s, data, fin))
    ensures FlagInv(latched, OnReceive(s, data, fin)) && InstallInv(c, OnReceive(s, data, fin))
  {
    hide ContentInv;
    var t := OnReceive(s, data, fin);
    forall k <- t.workers | fin && !latched ensures t.workers[k] != Completed {
      assert InPhase(s.workers, Completed) == {};
      assert k in s.workers && s.workers[k] == Completed ==> k in InPhase(s.workers, Completed);
    }
  }

  lemma CloseKeeps(c: Context, latched: bool, s: State, k: nat)
    requires CleanInv(c, latched, s) && At(s, k, Closing)
    ensures FlagInv(latched, OnClose(s, k)) && InstallInv(c, OnClose(s, k))
  {
    hide ContentInv;
    assert s.finalisations == 0 && !s.broken && Last(s) == Some(Closing);
    AllIsWritten(s);
  }

  lemma FinaliseKeeps(c: Context, latched: bool, s: State, k: nat, r: Results)
    requires CleanInv(c, latched, s) && At(s, k, Finalising)
    ensures FlagInv(latched, OnFinalise(c, s, k, r)) && InstallInv(c, OnFinalise(c, s, k, r))
  {
    hide ContentInv;
    assert !s.broken && Last(s) == Some(Finalising);
  }

  /** When the last worker is past its write and the file has not been finalised. */
  lemma AllIsWritten(s: State)
    requires ContentInv(s) && s.finalisations == 0 && !s.broken && s.receives > 0
    requires Last(s) == None || !BeforeCompletion(Last(s).value)
    ensures s.isOpen && s.bytesWritten == |s.received| && s.temp == Some(s.received)
  {
    assert Tail(s) == [];
    hide Tail;
    if s.isOpen {
      NoSuffix(s.temp.value);
    }
  }

  lemma CleanStepKeeps(c: Context, latched: bool, s: State, a: Action)
    requires CleanInv(c, latched, s) && Enabled(s, a) && Clean(latched, Step(c, latched, s, a))
    ensures var t := Step(c, latched, s, a); FlagInv(latched, t) && InstallInv(c, t)
  {
    match a
    case Receive(data, fin) => ReceiveKeeps(c, latched, s, data, fin);
    case Close(k) => CloseKeeps(c, latched, s, k);
    case Finalise(k, r) => FinaliseKeeps(c, latched, s, k, r);
    case ShutdownComplete => hide ContentInv, OrderInv;
    case Outside(_) => hide ContentInv, OrderInv;
    case _ =>
      hide CleanInv, Step, FlagInv, InstallInv;
      if a.Open? || a.Write? || a.Account? {
        UncountedKeeps(c, latched, s, a);
      } else {
        CountedKeeps(c, latched, s, a);
      }
  }

  /** A worker that has not counted its write yet. */
  lemma UncountedKeeps(c: Context, latched: bool, s: State, a: Action)
    requires CleanInv(c, latched, s) && Enabled(s, a) && (a.Open? || a.Write? || a.Account?)
    ensures var t := Step(c, latched, s, a); FlagInv(latched, t) && InstallInv(c, t)
  {
    hide FlagInv, OrderInv, ContentInv, InstallInv;
    match a
    case Open(k, ok) => OpenKeeps(c, latched, s, k, ok);
    case Write(k, part, ok, now) => WriteKeeps(c, latched, s, k, part, ok, now);
    case Account(k) => AccountKeeps(c, latched, s, k);
  }

  lemma OpenKeeps(c: Context, latched: bool, s: State, k: nat, ok: bool)
    requires CleanInv(c, latched, s) && At(s, k, Queued)
    ensures FlagInv(latched, OnOpen(s, k, ok)) && InstallInv(c, OnOpen(s, k, ok))
  {
    hide ContentInv;
    assert Last(s) == Some(Queued) && s.finalisations == 0 && s.installs == [];
    if s.isOpen || ok {
      assert Last(OnOpen(s, k, ok)) == Some(Opened);
    } else {
      assert Last(OnOpen(s, k, ok)) == None;
    }
    hide OrderInv, Last;
  }

  lemma AccountKeeps(c: Context, latched: bool, s: State, k: nat)
    requires CleanInv(c, latched, s) && At(s, k, Written)
    ensures FlagInv(latched, OnAccount(s, k)) && InstallInv(c, OnAccount(s, k))
  {
    hide ContentInv;
  }

  lemma WriteKeeps(c: Context, latched: bool, s: State, k: nat, part: nat, ok: bool, now: int)
    requires CleanInv(c, latched, s) && At(s, k, Opened)
    ensures FlagInv(latched, OnWrite(s, k, part, ok, now)) && InstallInv(c, OnWrite(s, k, part, ok, now))
  {
    hide ContentInv;
  }

  /** One that has, short of finalising. */
  lemma CountedKeeps(c: Context, latched: bool, s: State, a: Action)
    requires CleanInv(c, latched, s) && Enabled(s, a) && (a.ReceiveComplete? || a.TestFinal? || a.Deref?)
    ensures var t := Step(c, latched, s, a); FlagInv(latched, t) && InstallInv(c, t)
  {
    hide ContentInv;
    if a.TestFinal? {
      TestKeeps(c, latched, s, a.k);
      hide FlagInv, InstallInv, OrderInv, OnTestFinal;
    }
  }

  lemma TestKeeps(c: Context, latched: bool, s: State, k: nat)
    requires CleanInv(c, latched, s) && At(s, k, Completed)
    ensures FlagInv(latched, OnTestFinal(latched, s, k)) && InstallInv(c, OnTestFinal(latched, s, k))
  {
    hide ContentInv;
  }

  lemma StepKeepsInv(c: Context, latched: bool, s: State, a: Action)
    requires Inv(c, latched, s) && Enabled(s, a)
    ensures Inv(c, latched, Step(c, latched, s, a))
  {
    hide FlagInv, ContentInv, InstallInv, ValidatedInv, OrderInv, Step;
    StepKeepsOrder(c, latched, s, a);
    StepKeepsContent(c, latched, s, a);
    StepKeepsValidated(c, latched, s, a);
    if Clean(latched, Step(c, latched, s, a)) {
      CleanEarlier(c, latched, s, a);
      CleanStepKeeps(c, latched, s, a);
    }
  }

  lemma CleanEarlier(c: Context, latched: bool, s: State, a: Action)
    requires OrderInv(s) && Enabled(s, a) && Clean(latched, Step(c, latched, s, a))
    ensures Clean(latched, s)
  {
  }

  lemma {:induction false} RunKeepsInv(c: Context, latched: bool, s: State, actions: seq<Action>, t: State)
    requires Inv(c, latched, s) && Reaches(c, latched, s, actions, t)
    ensures Inv(c, latched, t)
    decreases |actions|
  {
    hide Inv, Step;
    if actions != [] {
      StepKeepsInv(c, latched, s, actions[0]);
      RunKeepsInv(c, latched, Step(c, latched, s, actions[0]), actions[1..], t);
    }
  }

  lemma Reached(c: Context, latched: bool, d: Option<File>, actions: seq<Action>, t: State)
    requires Reaches(c, latched, Initial(d), actions, t)
    ensures Inv(c, latched, t)
  {
    assert Inv(c, latched, Initial(d));
    hide *;
    RunKeepsInv(c, latched, Initial(d), actions, t);
  }

  /** In every interleaving, until the file is finalised, the temporary file is the
      in-order concatenation of what was received, less what its last worker has not
      written, and BytesWritten is its length up to a worker that has not counted its
      write. */
  lemma TemporaryFileInOrder(c: Context, latched: bool, d: Option<File>, actions: seq<Action>, t: State)
    requires Reaches(c, latched, Initial(d), actions, t)
    requires t.isOpen && !t.broken && t.finalisations == 0
    ensures t.temp.Some? && t.temp.value + Tail(t) == t.received
    ensures Last(t) != Some(Written) ==> t.bytesWritten == |t.temp.value|
  {
    Reached(c, latched, d, actions, t);
  }

  /** A clean run finalises at most once, only for the receive that carried FIN, and has
      done so when it ends without a failed open or write. */
  lemma FinalisedOnce(c: Context, latched: bool, d: Option<File>, actions: seq<Action>, t: State)
    requires Reaches(c, latched, Initial(d), actions, t) && Clean(latched, t)
    ensures t.finalisations <= 1 && (t.finalisations == 1 ==> t.finSeen)
    ensures t.finSeen && t.workers == map[] && !t.broken ==> t.finalisations == 1
    ensures forall k: nat :: At(t, k, Closing) || At(t, k, Finalising) ==> t.finSeen && k + 1 == t.receives
  {
    Reached(c, latched, d, actions, t);
  }

  /** Whatever fails, whoever else writes and whatever FIN overtakes, the destination is
      only replaced once FIN has been received, and never over a file that was there at
      the snapshot and is seen to have changed since. A clean run replaces it at most
      once, by all the bytes of the stream, exactly as many as announced. */
  lemma InstallIsAllOrNothing(c: Context, latched: bool, d: Option<File>, actions: seq<Action>, t: State)
    requires Reaches(c, latched, Initial(d), actions, t)
    ensures forall i <- t.installs ::
              && t.finSeen
              && (i.tested && c.snapshot.Some? && i.before.Some? ==>
                    Snapshot(|i.before.value.bytes|, i.before.value.time) == c.snapshot.value)
    ensures Clean(latched, t) ==>
              && |t.installs| <= 1
              && forall i <- t.installs :: i.after.bytes == t.received && |i.after.bytes| == c.newFileSize
  {
    Reached(c, latched, d, actions, t);
  }

  /** Apart from outside writers only those replacements change the destination, and a
      write through a stream that was opened again before a replacement renamed its file. */
  lemma OnlyInstallsReplace(c: Context, latched: bool, s: State, a: Action)
    requires Enabled(s, a) && !a.Outside?
    ensures var t := Step(c, latched, s, a);
            if t.installs == s.installs then
              t.destination == s.destination || (a.Write? && s.isOpen && s.renamed && s.buffers != [])
            else t.destination.Some?
                 && exists tested :: t.installs == s.installs + [Install(s.destination, t.destination.value, tested)]
  {
    if a.Finalise? {
      FinaliseReplaces(c, s, a.k, a.results);
      hide OnFinalise;
    } else {
      NothingElseReplaces(c, latched, s, a);
      hide Step;
    }
  }

  lemma NothingElseReplaces(c: Context, latched: bool, s: State, a: Action)
    requires Enabled(s, a) && !a.Outside? && !a.Finalise?
    ensures var t := Step(c, latched, s, a);
            && t.installs == s.installs
            && (t.destination == s.destination || (a.Write? && s.isOpen && s.renamed && s.buffers != []))
  {
    match a
    case Receive(_, _) => hide InPhase;
    case Write(k, part, ok, now) => WriteReplaces(s, k, part, ok, now); hide OnWrite;
    case Open(_, _) =>
    case _ => hide OnReceive, OnWrite, OnOpen, OnFinalise;
  }

  lemma WriteReplaces(s: State, k: nat, part: nat, ok: bool, now: int)
    ensures var t := OnWrite(s, k, part, ok, now);
            t.installs == s.installs && (t.destination == s.destination || (s.isOpen && s.renamed && s.buffers != []))
  {
    hide Appended;
  }

  lemma FinaliseReplaces(c: Context, s: State, k: nat, r: Results)
    ensures var t := OnFinalise(c, s, k, r);
            if t.installs == s.installs then t.destination == s.destination
            else t.destination.Some?
                 && exists tested :: t.installs == s.installs + [Install(s.destination, t.destination.value, tested)]
  {
    var t := OnFinalise(c, s, k, r);
    if Replacement(c, s, r).Some? {
      assert t.installs == s.installs + [Install(s.destination, t.destination.value, !r.existsFails)];
    }
    hide Replacement, Validated;
  }

  /** For every outcome of a write: the bytes that have come, or at most a part of them, go
      to the end of the open file, wherever it is by now, and nothing else changes. */
  lemma WriteExactly(c: Context, latched: bool, s: State, k: nat, part: nat, ok: bool, now: int)
    requires At(s, k, Opened) && part <= |s.buffers|
    ensures var t := Step(c, latched, s, Write(k, part, ok, now));
            var bytes := if ok then s.buffers else s.buffers[..part];
            && (At(t, k, Written) <==> ok && s.isOpen) && (At(t, k, Dropping) <==> !(ok && s.isOpen))
            && t.bytesWritten == s.bytesWritten && t.installs == s.installs
            && (!s.isOpen ==> t.temp == s.temp && t.destination == s.destination && t.broken)
            && (s.isOpen && s.temp.Some? ==> t.temp == Some(s.temp.value + bytes))
            && (s.isOpen && s.renamed && s.destination.Some? && bytes != [] ==>
                  t.destination == Some(File(s.destination.value.bytes + bytes, now)))
            && (!s.renamed ==> t.destination == s.destination)
  {
    hide InPhase;
  }

  /** A file seen at the snapshot that can still be seen must be what it was. */
  predicate MayReplace(c: Context, destination: Option<File>, r: Results) {
    || c.snapshot.None? || r.existsFails || destination.None?
    || (!r.sizeFails && !r.timeFails
        && c.snapshot == Some(Snapshot(|destination.value.bytes|, destination.value.time)))
  }

  /** For every outcome of the calls of a finalisation: exactly when the destination is
      replaced and by what, and what becomes of the temporary file. */
  lemma FinaliseExactly(c: Context, latched: bool, s: State, k: nat, r: Results)
    requires At(s, k, Finalising)
    ensures var t, may := Step(c, latched, s, Finalise(k, r)), MayReplace(c, s.destination, r);
            && (t.installs != s.installs <==>
                  may && s.bytesWritten == c.newFileSize && s.temp.Some? && !r.renameFails)
            && (t.installs == s.installs ==> t.destination == s.destination)
            && (t.installs != s.installs ==>
                  t.destination.Some? && Some(t.destination.value.bytes) == s.temp
                  && t.destination.value.time == if r.setTimeFails then r.now else c.fileTime)
            && t.temp == (if may && s.bytesWritten != c.newFileSize then s.temp else None)
    ensures r.renameFails ==> Step(c, latched, s, Finalise(k, r)).destination == s.destination
    ensures c.snapshot.Some? && s.destination.Some? && !r.existsFails && (r.sizeFails || r.timeFails) ==>
              Step(c, latched, s, Finalise(k, r)).destination == s.destination
  {
    var t := Step(c, latched, s, Finalise(k, r));
    if Replacement(c, s, r).Some? {
      assert |t.installs| == |s.installs| + 1;
    }
  }

  // ---- How often the code as written finalises ----

  lemma InPhaseBut(m: map<nat, Phase>, k: nat, q: Phase)
    requires k in m
    ensures |InPhase(m, q)| == |InPhase(m - {k}, q)| + (if m[k] == q then 1 else 0)
  {
    if m[k] == q {
      assert InPhase(m, q) == InPhase(m - {k}, q) + {k};
    } else {
      assert InPhase(m, q) == InPhase(m - {k}, q);
    }
  }

  lemma MoveInPhase(m: map<nat, Phase>, k: nat, p: Phase, q: Phase)
    requires k in m && m[k] != p
    ensures |InPhase(m[k := p], q)| == |InPhase(m, q)| + (if q == p then 1 else 0) - (if q == m[k] then 1 else 0)
  {
    hide InPhase;
    InPhaseBut(m, k, q);
    InPhaseBut(m[k := p], k, q);
    assert m[k := p] - {k} == m - {k};
  }

  function Count(s: State, p: Phase): nat {
    |InPhase(s.workers, p)|
  }

  /** Every worker that stands between ReceiveComplete and the flag when FIN arrives ends
      up finalising, and so does the worker of FIN itself. */
  predicate CountInv(s: State) {
    if !s.finSeen then s.finalisations == 0 && Count(s, Closing) == 0
    else !s.broken ==>
      s.finalisations + Count(s, Closing) + Count(s, Completed) + (if s.pended then 1 else 0) == 1 + s.overlap
  }

  lemma ReceiveKeepsCount(s: State, data: Chunk, fin: bool)
    requires OrderInv(s) && CountInv(s) && Enabled(s, Receive(data, fin))
    ensures CountInv(OnReceive(s, data, fin))
  {
    var t := OnReceive(s, data, fin);
    assert InPhase(t.workers, Closing) == InPhase(s.workers, Closing);
    assert InPhase(t.workers, Completed) == InPhase(s.workers, Completed);
  }

  lemma MoveKeepsCount(s: State, t: State, k: nat, p: Phase)
    requires CountInv(s) && k in s.workers && s.workers[k] != p && t.workers == s.workers[k := p]
    requires t.finSeen == s.finSeen && t.overlap == s.overlap && (s.broken ==> t.broken)
    requires !t.broken ==>
      && t.finalisations == s.finalisations + (if s.workers[k] == Closing then 1 else 0)
      && (p == Completed <==> s.pended && !t.pended) && (t.pended ==> s.pended)
      && (s.workers[k] == Completed ==> s.finSeen ==> p == Closing)
      && (p == Closing ==> s.workers[k] == Completed)
    requires !s.finSeen ==> p != Closing && t.finalisations == s.finalisations
    ensures CountInv(t)
  {
    MoveInPhase(s.workers, k, p, Closing);
    MoveInPhase(s.workers, k, p, Completed);
  }

  lemma LeaveKeepsCount(s: State, t: State, k: nat)
    requires CountInv(s) && k in s.workers && t.workers == s.workers - {k}
    requires t.finSeen == s.finSeen && t.overlap == s.overlap && t.finalisations == s.finalisations
    requires t.broken || (s.workers[k] == Dropping && t.pended == s.pended && t.broken == s.broken)
    ensures CountInv(t)
  {
    InPhaseBut(s.workers, k, Closing);
    InPhaseBut(s.workers, k, Completed);
  }

  lemma StepKeepsCount(c: Context, s: State, a: Action)
    requires OrderInv(s) && CountInv(s) && Enabled(s, a)
    ensures CountInv(Step(c, false, s, a))
  {
    hide CountInv, Replacement, Validated, Appended;
    var t := Step(c, false, s, a);
    match a
    case Receive(data, fin) => ReceiveKeepsCount(s, data, fin);
    case Open(k, _) =>
      if k in t.workers {
        MoveKeepsCount(s, t, k, Opened);
      } else {
        LeaveKeepsCount(s, t, k);
      }
    case Deref(k) => LeaveKeepsCount(s, t, k);
    case ShutdownComplete => QuietKeepsCount(s, t);
    case Outside(_) => QuietKeepsCount(s, t);
    case _ => hide Step, OrderInv; MovingKeepsCount(c, s, a);
  }

  lemma MovingKeepsCount(c: Context, s: State, a: Action)
    requires OrderInv(s) && CountInv(s) && Enabled(s, a)
    requires a.Write? || a.Account? || a.ReceiveComplete? || a.TestFinal? || a.Close? || a.Finalise?
    ensures CountInv(Step(c, false, s, a))
  {
    if a.Close? {
      ClosingNeedsFin(s, a.k);
    }
    hide CountInv, Replacement, Validated, Appended;
    MoveKeepsCount(s, Step(c, false, s, a), a.k, Step(c, false, s, a).workers[a.k]);
  }

  lemma ClosingNeedsFin(s: State, k: nat)
    requires CountInv(s) && At(s, k, Closing)
    ensures s.finSeen
  {
    assert k in InPhase(s.workers, Closing);
  }

  lemma QuietKeepsCount(s: State, t: State)
    requires CountInv(s) && t.workers == s.workers && t.finSeen == s.finSeen && t.broken == s.broken
    requires t.finalisations == s.finalisations && t.overlap == s.overlap && t.pended == s.pended
    ensures CountInv(t)
  {
  }

  lemma {:induction false} RunKeepsCount(c: Context, s: State, actions: seq<Action>, t: State)
    requires OrderInv(s) && CountInv(s) && Reaches(c, false, s, actions, t)
    ensures OrderInv(t) && CountInv(t)
    decreases |actions|
  {
    hide OrderInv, CountInv, Step;
    if actions != [] {
      StepKeepsOrder(c, false, s, actions[0]);
      StepKeepsCount(c, s, actions[0]);
      RunKeepsCount(c, Step(c, false, s, actions[0]), actions[1..], t);
    }
  }

  /** As written, an error-free stream is finalised once for FIN and once more for every
      worker that FIN overtook between ReceiveComplete and the flag: exactly once if and
      only if there was none. */
  lemma FinalisationsAsWritten(c: Context, d: Option<File>, actions: seq<Action>, t: State)
    requires Reaches(c, false, Initial(d), actions, t)
    requires t.finSeen && !t.pended && !t.broken
    requires forall k <- t.workers :: t.workers[k] == Dropping
    ensures t.finalisations == 1 + t.overlap
    ensures t.finalisations == 1 <==> Clean(false, t)
  {
    assert OrderInv(Initial(d)) && CountInv(Initial(d)) by {
      assert InPhase(map[], Closing) == {};
    }
    RunKeepsCount(c, Initial(d), actions, t);
    assert InPhase(t.workers, Closing) == {} && InPhase(t.workers, Completed) == {};
  }

  // ---- What an undisturbed stream installs ----

  function SnapshotOf(d: Option<File>): Option<Snapshot> {
    match d
    case None => None
    case Some(file) => Some(Snapshot(|file.bytes|, file.time))
  }

  /** Nothing fails and nobody else writes. */
  predicate Smooth(a: Action) {
    match a
    case Open(_, ok) => ok
    case Write(_, _, ok, _) => ok
    case Finalise(_, r) => !r.existsFails && !r.sizeFails && !r.timeFails && !r.renameFails && !r.setTimeFails
    case Outside(_) => false
    case _ => true
  }

  /** The destination an undisturbed stream leaves behind. */
  function Delivered(c: Context, d: Option<File>, received: Chunk): Option<File> {
    if |received| == c.newFileSize then Some(File(received, c.fileTime)) else d
  }

  predicate SmoothInv(c: Context, d: Option<File>, s: State) {
    && !s.broken
    && s.destination == if s.finalisations == 0 || Last(s) == Some(Finalising) then d else Delivered(c, d, s.received)
  }

  lemma SmoothStep(c: Context, latched: bool, d: Option<File>, s: State, a: Action)
    requires c.snapshot == SnapshotOf(d)
    requires CleanInv(c, latched, s) && SmoothInv(c, d, s) && Smooth(a) && Enabled(s, a)
    ensures SmoothInv(c, d, Step(c, latched, s, a))
  {
    if a.Finalise? {
      SmoothFinalise(c, d, latched, s, a.k, a.results);
    } else {
      hide ContentInv;
      if a.Write? {
        SmoothWrite(c, d, latched, s, a.k, a.part, a.now);
      } else {
        hide InstallInv;
      }
    }
  }

  lemma SmoothFinalise(c: Context, d: Option<File>, latched: bool, s: State, k: nat, r: Results)
    requires c.snapshot == SnapshotOf(d)
    requires CleanInv(c, latched, s) && SmoothInv(c, d, s) && Smooth(Finalise(k, r)) && At(s, k, Finalising)
    ensures SmoothInv(c, d, OnFinalise(c, s, k, r))
  {
    hide ContentInv;
    assert Last(s) == Some(Finalising) && Last(OnFinalise(c, s, k, r)) == Some(Dropping);
    assert s.temp == Some(s.received) && s.bytesWritten == |s.received| && s.finalisations > 0;
    hide OrderInv, FlagInv, InstallInv, Last;
  }

  lemma SmoothWrite(c: Context, d: Option<File>, latched: bool, s: State, k: nat, part: nat, now: int)
    requires CleanInv(c, latched, s) && SmoothInv(c, d, s) && At(s, k, Opened)
    ensures SmoothInv(c, d, OnWrite(s, k, part, true, now))
  {
    assert Last(s) == Some(Opened) && s.finalisations == 0 && !s.renamed && s.isOpen;
    hide OrderInv, FlagInv, InstallInv, ContentInv, Last;
  }

  lemma {:induction false} SmoothRun(c: Context, latched: bool, d: Option<File>, s: State, actions: seq<Action>, t: State)
    requires c.snapshot == SnapshotOf(d)
    requires Inv(c, latched, s) && SmoothInv(c, d, s) && Reaches(c, latched, s, actions, t)
    requires (forall a <- actions :: Smooth(a)) && Clean(latched, t)
    ensures Inv(c, latched, t) && SmoothInv(c, d, t) && Clean(latched, s)
    decreases |actions|
  {
    hide Step, SmoothInv, FlagInv, ContentInv, InstallInv, OrderInv;
    if actions != [] {
      var next := Step(c, latched, s, actions[0]);
      StepKeepsInv(c, latched, s, actions[0]);
      if Clean(latched, next) {
        CleanEarlier(c, latched, s, actions[0]);
        SmoothStep(c, latched, d, s, actions[0]);
        SmoothRun(c, latched, d, next, actions[1..], t);
      } else {
        OnceOverlapped(c, next, actions[1..], t);
      }
    }
  }

  lemma {:induction false} OnceOverlapped(c: Context, s: State, actions: seq<Action>, t: State)
    requires OrderInv(s) && s.overlap > 0 && Reaches(c, false, s, actions, t)
    ensures t.overlap > 0
    decreases |actions|
  {
    hide OrderInv, Step;
    if actions != [] {
      StepKeepsOrder(c, false, s, actions[0]);
      StepKeepsOverlap(c, s, actions[0]);
      OnceOverlapped(c, Step(c, false, s, actions[0]), actions[1..], t);
    }
  }

  lemma StepKeepsOverlap(c: Context, s: State, a: Action)
    requires OrderInv(s) && s.overlap > 0 && Enabled(s, a)
    ensures Step(c, false, s, a).overlap == s.overlap
  {
    assert s.finSeen;
    hide OrderInv, InPhase, Replacement, Validated, Appended;
  }

  /** A clean undisturbed stream ends with exactly the received bytes and the announced
      time at the destination if they are as many as announced, and with the destination
      as it was otherwise. */
  lemma Delivers(c: Context, latched: bool, d: Option<File>, actions: seq<Action>, t: State)
    requires c.snapshot == SnapshotOf(d) && Reaches(c, latched, Initial(d), actions, t)
    requires (forall a <- actions :: Smooth(a)) && Clean(latched, t)
    requires t.finSeen && t.workers == map[]
    ensures t.destination == Delivered(c, d, t.received)
  {
    assert SmoothInv(c, d, Initial(d)) && Inv(c, latched, Initial(d));
    SmoothRun(c, latched, d, Initial(d), actions, t);
  }
}
