/** What the code as written installs when an earlier worker stands between ReceiveComplete
    and the flag as FIN arrives: exactly which streams every interleaving delivers. */
module FinRace {
  import opened Bytes
  import opened ReceivePipeline
  import opened Wrappers

  predicate SmoothRunAsWritten(c: Context, d: Option<File>, actions: seq<Action>, t: State) {
    Reaches(c, false, Initial(d), actions, t) && forall a <- actions :: Smooth(a)
  }

  /** The cut of the stream into receives. */
  function Indicated(actions: seq<Action>): seq<Chunk> {
    if actions == [] then []
    else (if actions[0].Receive? then [actions[0].data] else []) + Indicated(actions[1..])
  }

  /** The stream is down to no workers; FIN came last, with the bytes `last`. */
  predicate Ended(actions: seq<Action>, t: State, before: seq<Chunk>, last: Chunk) {
    Indicated(actions) == before + [last] && t.finSeen && t.workers == map[]
  }

  /** Every undisturbed interleaving over the given cut leaves what it should: the bytes of
      the stream if they are as many as announced, and the old file otherwise. */
  ghost predicate EveryRunDelivers(c: Context, d: Option<File>, before: seq<Chunk>, last: Chunk) {
    forall actions, t :: SmoothRunAsWritten(c, d, actions, t) && Ended(actions, t, before, last)
      ==> t.destination == Delivered(c, d, Flatten(before) + last)
  }

  /** `a` came before the receive with FIN and `b` in it; `alone` if that was the only
      receive. From then on BytesWritten is |a| or |a| + |b|, and if it is never as many as
      announced nothing is replaced. */
  predicate SafeCut(c: Context, d: Option<File>, alone: bool, a: Chunk, b: Chunk) {
    || alone
    || (|a| != c.newFileSize && |a| + |b| != c.newFileSize)
    || (a == [] && |b| == c.newFileSize && (b == [] || d == Some(File(b, c.fileTime))))
  }

  // ---- Safe cuts are delivered ----

  lemma {:induction false} IndicatedIsReceived(c: Context, s: State, actions: seq<Action>, t: State)
    requires Reaches(c, false, s, actions, t)
    ensures t.received == s.received + Flatten(Indicated(actions))
    ensures t.receives == s.receives + |Indicated(actions)|
    ensures t.buffers == if Indicated(actions) == [] then s.buffers else Indicated(actions)[|Indicated(actions)| - 1]
    decreases |actions|
  {
    if actions == [] {
      NoSuffix(s.received);
    } else {
      var next := Step(c, false, s, actions[0]);
      ReceivedByStep(c, s, actions[0]);
      hide Step;
      IndicatedIsReceived(c, next, actions[1..], t);
      if actions[0].Receive? {
        var rest := Indicated(actions[1..]);
        assert ([actions[0].data] + rest)[1..] == rest;
        Join(s.received, actions[0].data, Flatten(rest));
      } else {
        assert Indicated(actions) == Indicated(actions[1..]);
      }
    }
  }

  lemma ReceivedByStep(c: Context, s: State, a: Action)
    requires Enabled(s, a)
    ensures var t := Step(c, false, s, a);
            if a.Receive? then t.received == s.received + a.data && t.receives == s.receives + 1 && t.buffers == a.data
            else t.received == s.received && t.receives == s.receives && t.buffers == s.buffers
    ensures s.finSeen ==> !a.Receive? && Step(c, false, s, a).finSeen
  {
    match a
    case Finalise(_, _) => hide Replacement, Validated;
    case Write(_, _, _, _) => hide Appended;
    case Open(_, _) =>
    case _ => hide OnFinalise, OnWrite, OnOpen, InPhase;
  }

  /** `a` are the bytes before the last receive. */
  predicate Safe(c: Context, d: Option<File>, a: Chunk, s: State) {
    s.received == a + s.buffers && SafeCut(c, d, s.receives == 1, a, s.buffers)
  }

  /** Before FIN. */
  predicate EarlyInv(d: Option<File>, s: State) {
    && !s.finSeen && OrderInv(s) && ContentInv(s) && !s.broken && s.finalisations == 0 && s.destination == d
    && s.installs == [] && !s.renamed
    && forall k <- s.workers :: s.workers[k] != Closing && s.workers[k] != Finalising
  }

  /** The worker of FIN has counted its write. */
  predicate Counted(s: State) {
    !s.broken && Last(s) != Some(Queued) && Last(s) != Some(Opened) && Last(s) != Some(Written)
  }

  /** What the worker of FIN has put into the temporary file. */
  function Added(s: State): Chunk {
    if s.broken || Last(s) == Some(Queued) || Last(s) == Some(Opened) then [] else s.buffers
  }

  /** After FIN, on a cut of more than one receive. */
  predicate CountedInv(a: Chunk, s: State) {
    && s.finSeen && s.receives >= 2 && s.received == a + s.buffers
    && s.bytesWritten == |a| + (if Counted(s) then |s.buffers| else 0)
  }

  /** If no byte came before FIN, and as many as announced with it. */
  ghost predicate NothingBefore(c: Context, d: Option<File>, s: State) {
    && (s.temp.Some? ==> s.temp.value == Added(s))
    && s.destination == (if s.installs == [] then d else Some(File(s.buffers, c.fileTime)))
    && (s.installs == [] ==> s.temp.Some? && !s.renamed)
    && (s.finalisations == 0 ==>
          s.installs == [] && s.isOpen && !s.broken && Last(s).Some? && Last(s).value != Dropping)
    && (s.installs != [] && s.buffers != [] ==> Counted(s))
    && (s.installs == [] && s.buffers == [] && s.finalisations > 0 ==> exists k :: At(s, k, Finalising))
  }

  predicate NeverFits(c: Context, a: Chunk, s: State) {
    |a| != c.newFileSize && |s.received| != c.newFileSize
  }

  ghost predicate LateInv(c: Context, d: Option<File>, a: Chunk, s: State) {
    && OrderInv(s) && CountedInv(a, s)
    && if NeverFits(c, a, s) then s.destination == d && !s.renamed else NothingBefore(c, d, s)
  }

  lemma EarlyStep(c: Context, d: Option<File>, s: State, a: Action)
    requires EarlyInv(d, s) && Enabled(s, a) && Smooth(a) && !Step(c, false, s, a).finSeen
    ensures EarlyInv(d, Step(c, false, s, a))
  {
    StepKeepsOrder(c, false, s, a);
    StepKeepsContent(c, false, s, a);
    if a.Write? {
      WriteIsPossible(s, a.k);
    }
    hide ContentInv;
    EarlyFrame(c, s, a);
    hide Step, OrderInv;
  }

  lemma WriteIsPossible(s: State, k: nat)
    requires OrderInv(s) && ContentInv(s) && !s.broken && s.finalisations == 0 && At(s, k, Opened)
    ensures s.isOpen
  {
    assert Last(s) == Some(Opened);
  }

  lemma EarlyFrame(c: Context, s: State, a: Action)
    requires Enabled(s, a) && Smooth(a) && !s.finSeen && !s.finalReceive && !s.broken && s.finalisations == 0
    requires s.installs == [] && !s.renamed && (a.Write? ==> s.isOpen)
    requires forall k <- s.workers :: s.workers[k] != Closing && s.workers[k] != Finalising
    ensures var t := Step(c, false, s, a);
            && !t.broken && t.finalisations == 0 && t.destination == s.destination && t.installs == [] && !t.renamed
            && forall k <- t.workers :: t.workers[k] != Closing && t.workers[k] != Finalising
  {
  }

  lemma FinArrives(c: Context, d: Option<File>, s: State, data: Chunk)
    requires EarlyInv(d, s) && Enabled(s, Receive(data, true)) && s.receives > 0
    requires Safe(c, d, s.received, OnReceive(s, data, true))
    ensures LateInv(c, d, s.received, OnReceive(s, data, true))
  {
    var t := OnReceive(s, data, true);
    AllIsWritten(s) by {
      hide ContentInv;
    }
    StepKeepsOrder(c, false, s, Receive(data, true));
    hide ContentInv, OrderInv;
    assert Last(t) == Some(Queued);
    NoSuffix(s.received);
  }

  /** How the worker of the last receive moves in a step. */
  predicate LastMoved(s: State, t: State, action: Action) {
    match action
    case Open(_, _) => Last(s) == Some(Queued) && Last(t) == Some(Opened)
    case Write(_, _, _, _) => !s.broken && Last(s) == Some(Opened) && Last(t) == Some(if s.isOpen then Written else Dropping)
    case Account(_) => !s.broken && Last(s) == Some(Written) && Last(t) == Some(Accounted)
    case _ => Last(t) == Last(s) || MovedLate(s, t, action)
  }

  /** Past its count; it drops what it has only after closing the file. */
  predicate MovedLate(s: State, t: State, action: Action) {
    && LateLast(s) && LateLast(t) && Last(s).Some?
    && (action.Close? || action.Finalise? || Last(s) == Some(Dropping) || (Last(t).Some? && Last(t).value != Dropping))
  }

  lemma LastMoves(c: Context, s: State, action: Action)
    requires OrderInv(s) && s.finSeen && Enabled(s, action) && Smooth(action)
    ensures LastMoved(s, Step(c, false, s, action), action)
  {
  }

  lemma LateStep(c: Context, d: Option<File>, a: Chunk, s: State, action: Action)
    requires c.snapshot == SnapshotOf(d) && Safe(c, d, a, s)
    requires LateInv(c, d, a, s) && Enabled(s, action) && Smooth(action)
    ensures LateInv(c, d, a, Step(c, false, s, action))
  {
    StepKeepsOrder(c, false, s, action);
    LastMoves(c, s, action);
    ReceivedByStep(c, s, action);
    CountedStep(c, a, s, action);
    if action.Finalise? {
      FinalisingHasClosed(s, action.k);
    }
    hide OrderInv, CountedInv, NothingBefore, LastMoved, Step, Enabled;
    if NeverFits(c, a, s) {
      QuietStep(c, a, s, action);
    } else {
      NothingBeforeStep(c, d, s, action);
    }
  }

  lemma CountedStep(c: Context, a: Chunk, s: State, action: Action)
    requires CountedInv(a, s) && Enabled(s, action) && LastMoved(s, Step(c, false, s, action), action)
    ensures CountedInv(a, Step(c, false, s, action))
  {
    hide Last, Replacement, Validated;
  }

  lemma QuietStep(c: Context, a: Chunk, s: State, action: Action)
    requires CountedInv(a, s) && NeverFits(c, a, s) && !s.renamed && Enabled(s, action) && Smooth(action)
    ensures var t := Step(c, false, s, action); t.destination == s.destination && !t.renamed
  {
    hide Last, Counted;
    match action
    case Finalise(_, _) => hide Validated;
    case Write(_, _, _, _) => hide Appended, OnFinalise;
    case _ => hide OnFinalise, OnWrite, CountedInv, InPhase;
  }

  /** The cuts on which nothing came before FIN. */
  predicate FitsAtOnce(c: Context, d: Option<File>, s: State) {
    && c.snapshot == SnapshotOf(d)
    && s.finSeen && |s.buffers| == c.newFileSize && (s.buffers == [] || d == Some(File(s.buffers, c.fileTime)))
    && s.bytesWritten == (if Counted(s) then |s.buffers| else 0)
  }

  lemma NothingBeforeStep(c: Context, d: Option<File>, s: State, action: Action)
    requires FitsAtOnce(c, d, s) && NothingBefore(c, d, s) && Enabled(s, action) && Smooth(action)
    requires LastMoved(s, Step(c, false, s, action), action) && (action.Finalise? ==> s.finalisations > 0)
    ensures NothingBefore(c, d, Step(c, false, s, action))
  {
    hide Last;
    match action
    case Receive(_, _) => assert false;
    case Open(k, _) => NothingBeforeOpen(c, d, s, k);
    case Write(k, part, _, now) => NothingBeforeWrite(c, d, s, k, part, now);
    case Finalise(k, r) => NothingBeforeFinalise(c, d, s, k, r);
    case _ => NothingBeforeMove(c, d, s, action);
  }

  lemma FinalisingStays(c: Context, s: State, action: Action)
    requires Enabled(s, action) && !action.Finalise? && !action.Receive?
    ensures (exists k :: At(s, k, Finalising)) ==> exists k :: At(Step(c, false, s, action), k, Finalising)
  {
    hide Step;
    if k :| At(s, k, Finalising) {
      OneFinalisingStays(c, s, action, k);
    }
  }

  lemma OneFinalisingStays(c: Context, s: State, action: Action, k: nat)
    requires Enabled(s, action) && !action.Finalise? && !action.Receive? && At(s, k, Finalising)
    ensures At(Step(c, false, s, action), k, Finalising)
  {
    match action
    case Open(j, _) => assert j != k;
    case Write(j, _, _, _) => hide Appended; assert j != k;
    case Deref(j) => assert j != k;
    case ShutdownComplete =>
    case Outside(_) =>
    case Account(j) => assert j != k;
    case ReceiveComplete(j) => assert j != k;
    case TestFinal(j) => assert j != k;
    case Close(j) => assert j != k;
  }

  lemma NothingBeforeOpen(c: Context, d: Option<File>, s: State, k: nat)
    requires NothingBefore(c, d, s) && At(s, k, Queued) && LastMoved(s, OnOpen(s, k, true), Open(k, true))
    ensures NothingBefore(c, d, OnOpen(s, k, true))
  {
    FinalisingStays(c, s, Open(k, true));
    hide Last;
  }

  lemma NothingBeforeWrite(c: Context, d: Option<File>, s: State, k: nat, part: nat, now: int)
    requires NothingBefore(c, d, s) && At(s, k, Opened)
    requires LastMoved(s, OnWrite(s, k, part, true, now), Write(k, part, true, now))
    ensures NothingBefore(c, d, OnWrite(s, k, part, true, now))
  {
    FinalisingStays(c, s, Write(k, part, true, now));
    hide Last;
    NoPrefix(s.buffers);
  }

  lemma NothingBeforeFinalise(c: Context, d: Option<File>, s: State, k: nat, r: Results)
    requires FitsAtOnce(c, d, s) && NothingBefore(c, d, s) && At(s, k, Finalising) && Smooth(Finalise(k, r))
    requires LastMoved(s, OnFinalise(c, s, k, r), Finalise(k, r)) && s.finalisations > 0
    ensures NothingBefore(c, d, OnFinalise(c, s, k, r))
  {
    hide Last;
  }

  lemma NothingBeforeMove(c: Context, d: Option<File>, s: State, action: Action)
    requires NothingBefore(c, d, s) && Enabled(s, action) && s.finSeen && !action.Receive? && !action.Outside?
    requires !action.Open? && !action.Write? && !action.Finalise? && LastMoved(s, Step(c, false, s, action), action)
    ensures NothingBefore(c, d, Step(c, false, s, action))
  {
    if action.Close? {
      assert At(OnClose(s, action.k), action.k, Finalising);
    }
    FinalisingStays(c, s, action);
    hide Last;
  }

  lemma {:induction false} Frozen(c: Context, s: State, actions: seq<Action>, t: State)
    requires s.finSeen && Reaches(c, false, s, actions, t)
    ensures t.received == s.received && t.receives == s.receives && t.buffers == s.buffers && t.finSeen
    decreases |actions|
  {
    hide Step, Enabled;
    if actions != [] {
      ReceivedByStep(c, s, actions[0]);
      Frozen(c, Step(c, false, s, actions[0]), actions[1..], t);
    }
  }

  lemma {:induction false} LateRun(c: Context, d: Option<File>, a: Chunk, s: State, actions: seq<Action>, t: State)
    requires c.snapshot == SnapshotOf(d) && Safe(c, d, a, s) && LateInv(c, d, a, s)
    requires Reaches(c, false, s, actions, t) && forall x <- actions :: Smooth(x)
    ensures LateInv(c, d, a, t)
    decreases |actions|
  {
    hide LateInv, Step, Enabled, SafeCut, Smooth;
    if actions != [] {
      assert s.finSeen by {
        LateMeansFin(c, d, a, s);
      }
      ReceivedByStep(c, s, actions[0]);
      LateStep(c, d, a, s, actions[0]);
      LateRun(c, d, a, Step(c, false, s, actions[0]), actions[1..], t);
    }
  }

  lemma LateMeansFin(c: Context, d: Option<File>, a: Chunk, s: State)
    requires LateInv(c, d, a, s)
    ensures s.finSeen
  {
  }

  lemma SameHead(a: Chunk, b: Chunk, tail: Chunk)
    requires a + tail == b + tail
    ensures a == b
  {
    assert a == (a + tail)[..|a + tail| - |tail|] && b == (b + tail)[..|b + tail| - |tail|];
  }

  lemma FinComes(c: Context, s: State, a: Action)
    requires !s.finSeen && Enabled(s, a) && Step(c, false, s, a).finSeen
    ensures a.Receive? && a.fin && Step(c, false, s, a) == OnReceive(s, a.data, true)
    ensures Step(c, false, s, a).receives == s.receives + 1
  {
  }

  lemma {:induction false} EarlyRun(c: Context, d: Option<File>, a: Chunk, s: State, actions: seq<Action>, t: State)
    requires c.snapshot == SnapshotOf(d) && EarlyInv(d, s) && Safe(c, d, a, t) && t.finSeen && t.receives >= 2
    requires Reaches(c, false, s, actions, t) && forall x <- actions :: Smooth(x)
    ensures LateInv(c, d, a, t)
    decreases |actions|
  {
    hide LateInv, SafeCut, OrderInv, ContentInv, Step, Smooth;
    if actions != [] {
      var next := Step(c, false, s, actions[0]);
      if next.finSeen {
        FinComes(c, s, actions[0]);
        Frozen(c, next, actions[1..], t);
        SameHead(a, s.received, t.buffers);
        FinArrives(c, d, s, actions[0].data);
        LateRun(c, d, a, next, actions[1..], t);
      } else {
        EarlyStep(c, d, s, actions[0]);
        EarlyRun(c, d, a, next, actions[1..], t);
      }
    }
  }

  /** The receive of FIN overtakes nobody if it is the only one. */
  predicate AloneInv(s: State) {
    (s.receives == 0 ==> s.workers == map[]) && (s.receives <= 1 ==> s.overlap == 0)
  }

  lemma {:induction false} AloneRun(c: Context, s: State, actions: seq<Action>, t: State)
    requires AloneInv(s) && Reaches(c, false, s, actions, t)
    ensures AloneInv(t)
    decreases |actions|
  {
    if actions != [] {
      AloneStep(c, s, actions[0]);
      hide Step, AloneInv, Enabled;
      AloneRun(c, Step(c, false, s, actions[0]), actions[1..], t);
    }
  }

  lemma AloneStep(c: Context, s: State, a: Action)
    requires AloneInv(s) && Enabled(s, a)
    ensures AloneInv(Step(c, false, s, a))
  {
    assert InPhase(map[], Completed) == {};
  }

  lemma SafeCutDelivers(c: Context, d: Option<File>, before: seq<Chunk>, last: Chunk, actions: seq<Action>, t: State)
    requires c.snapshot == SnapshotOf(d) && SafeCut(c, d, before == [], Flatten(before), last)
    requires SmoothRunAsWritten(c, d, actions, t) && Ended(actions, t, before, last)
    ensures t.destination == Delivered(c, d, Flatten(before) + last)
  {
    ReceivedInAll(c, d, before, last, actions, t);
    if before == [] {
      AloneRun(c, Initial(d), actions, t);
      Delivers(c, false, d, actions, t);
    } else {
      EarlyInitially(d);
      hide SafeCut, EarlyInv, Reaches, Smooth, LateInv;
      EarlyRun(c, d, Flatten(before), Initial(d), actions, t);
      LateEnd(c, d, Flatten(before), t);
    }
  }

  lemma LateEnd(c: Context, d: Option<File>, a: Chunk, t: State)
    requires LateInv(c, d, a, t) && Safe(c, d, a, t) && t.workers == map[]
    ensures t.destination == Delivered(c, d, t.received)
  {
    hide OrderInv;
    if !NeverFits(c, a, t) {
      NoPrefix(t.buffers);
      assert t.finalisations > 0;
      assert !exists k :: At(t, k, Finalising);
    }
  }

  lemma EarlyInitially(d: Option<File>)
    ensures EarlyInv(d, Initial(d))
  {
  }

  lemma ReceivedInAll(c: Context, d: Option<File>, before: seq<Chunk>, last: Chunk, actions: seq<Action>, t: State)
    requires Reaches(c, false, Initial(d), actions, t) && Indicated(actions) == before + [last]
    ensures t.received == Flatten(before) + last && t.receives == |before| + 1 && t.buffers == last
  {
    hide Reaches;
    IndicatedIsReceived(c, Initial(d), actions, t);
    FlattenAppend(before, [last]);
    NoSuffix(last);
    assert Flatten([last]) == last;
    NoPrefix(Flatten(before) + last);
  }

  // ---- The other cuts go wrong in some interleaving ----

  const ALL_WELL := Results(false, false, false, false, false, 0)

  lemma {:induction false} IndicatedMore(actions: seq<Action>, a: Action)
    ensures Indicated(actions + [a]) == Indicated(actions) + if a.Receive? then [a.data] else []
  {
    if actions == [] {
      assert [] + [a] == [a] && [a][1..] == [];
    } else {
      var head, tail := if actions[0].Receive? then [actions[0].data] else [], actions[1..];
      assert (actions + [a])[0] == actions[0] && (actions + [a])[1..] == tail + [a];
      IndicatedMore(tail, a);
      Reassociate(head, Indicated(tail), if a.Receive? then [a.data] else []);
    }
  }

  lemma Do(c: Context, d: Option<File>, actions: seq<Action>, t: State, a: Action) returns (more: seq<Action>, u: State)
    requires SmoothRunAsWritten(c, d, actions, t) && Enabled(t, a) && Smooth(a)
    ensures u == Step(c, false, t, a) && SmoothRunAsWritten(c, d, more, u)
    ensures Indicated(more) == Indicated(actions) + if a.Receive? then [a.data] else []
  {
    more, u := actions + [a], Step(c, false, t, a);
    hide Step, Reaches, Smooth;
    Extend(c, false, Initial(d), actions, t, a);
    IndicatedMore(actions, a);
  }

  /** After `n` receives of `a` in all, every worker has left. */
  function Rested(d: Option<File>, n: nat, a: Chunk, buffers: Chunk): State {
    State(true, false, a, false, n, buffers, false, |a|, n > 0, false, 1, false, map[],
          if n > 0 then Some(a) else None, d, 0, false, 0, 0, [])
  }

  /** The same, with the worker of the last receive still about to read the flag. */
  function AboutToTest(d: Option<File>, n: nat, a: Chunk, buffers: Chunk): State {
    State(true, false, a, false, n + 1, buffers, false, |a|, true, false, 2, false, map[n := Completed],
          Some(a), d, 0, false, 0, 0, [])
  }

  lemma OneReceive(c: Context, d: Option<File>, before: seq<Action>, n: nat, a: Chunk, buffers: Chunk, x: Chunk)
    returns (actions: seq<Action>)
    requires SmoothRunAsWritten(c, d, before, Rested(d, n, a, buffers)) && (n == 0 ==> a == [])
    ensures SmoothRunAsWritten(c, d, actions, AboutToTest(d, n, a + x, x)) && Indicated(actions) == Indicated(before) + [x]
  {
    var t := Rested(d, n, a, buffers);
    NoPrefix(x);
    actions, t := Do(c, d, before, t, Receive(x, false));
    actions, t := Do(c, d, actions, t, Open(n, true));
    actions, t := Do(c, d, actions, t, Write(n, 0, true, 0));
    actions, t := Do(c, d, actions, t, Account(n));
    actions, t := Do(c, d, actions, t, ReceiveComplete(n));
    assert t.workers == map[n := Completed];
  }

  lemma OneDeparture(c: Context, d: Option<File>, before: seq<Action>, n: nat, a: Chunk, buffers: Chunk)
    returns (actions: seq<Action>)
    requires SmoothRunAsWritten(c, d, before, AboutToTest(d, n, a, buffers))
    ensures SmoothRunAsWritten(c, d, actions, Rested(d, n + 1, a, buffers)) && Indicated(actions) == Indicated(before)
  {
    var t := AboutToTest(d, n, a, buffers);
    actions, t := Do(c, d, before, t, TestFinal(n));
    actions, t := Do(c, d, actions, t, Deref(n));
    assert t.workers == map[];
  }

  lemma {:induction false} AllButFin(c: Context, d: Option<File>, chunks: seq<Chunk>)
    returns (actions: seq<Action>, buffers: Chunk)
    ensures SmoothRunAsWritten(c, d, actions, Rested(d, |chunks|, Flatten(chunks), buffers)) && Indicated(actions) == chunks
  {
    if chunks == [] {
      actions, buffers := [], [];
    } else {
      var n := |chunks| - 1;
      var earlier, x := chunks[..n], chunks[n];
      actions, buffers := AllButFin(c, d, earlier);
      actions := OneReceive(c, d, actions, n, Flatten(earlier), buffers, x);
      assert chunks == earlier + [x];
      FlattenAppend(earlier, [x]);
      NoSuffix(x);
      assert Flatten([x]) == x;
      actions := OneDeparture(c, d, actions, n, Flatten(chunks), x);
      buffers := x;
    }
  }

  /** FIN has arrived with `b` before worker `n` reads the flag. */
  function Overtaken(d: Option<File>, n: nat, a: Chunk, b: Chunk): State {
    State(true, true, a + b, true, n + 2, b, true, |a|, true, false, 3, false, map[n := Completed, n + 1 := Queued],
          Some(a), d, 0, false, 1, 0, [])
  }

  lemma FinOvertakes(c: Context, d: Option<File>, before: seq<Chunk>, last: Chunk)
    returns (actions: seq<Action>, n: nat)
    requires before != []
    ensures SmoothRunAsWritten(c, d, actions, Overtaken(d, n, Flatten(before), last))
    ensures Indicated(actions) == before + [last]
  {
    n := |before| - 1;
    var earlier, x := before[..n], before[n];
    var buffers;
    actions, buffers := AllButFin(c, d, earlier);
    actions := OneReceive(c, d, actions, n, Flatten(earlier), buffers, x);
    assert before == earlier + [x];
    FlattenAppend(earlier, [x]);
    NoSuffix(x);
    assert Flatten([x]) == x;
    var t := AboutToTest(d, n, Flatten(before), x);
    assert InPhase(t.workers, Completed) == {n};
    actions, t := Do(c, d, actions, t, Receive(last, true));
  }

  /** What the overtaken worker leaves if it finalises when the file holds `held`. */
  function FirstOutcome(c: Context, d: Option<File>, a: Chunk, held: Chunk): Option<File> {
    if |a| == c.newFileSize then Some(File(held, c.fileTime)) else d
  }

  function FirstInstalls(c: Context, d: Option<File>, a: Chunk, held: Chunk): seq<Install> {
    if |a| == c.newFileSize then [Install(d, File(held, c.fileTime), true)] else []
  }

  /** The overtaken worker at `q`, FIN's at `p`, and the file holds `held`. */
  function Racing(d: Option<File>, n: nat, a: Chunk, b: Chunk, q: Phase, p: Phase, held: Chunk): State {
    Overtaken(d, n, a, b).(workers := map[n := q, n + 1 := p], temp := Some(held))
  }

  /** The overtaken worker reads the flag and closes the file, ... */
  lemma OvertakenCloses(c: Context, d: Option<File>, before: seq<Action>, n: nat, a: Chunk, b: Chunk, p: Phase, held: Chunk)
    returns (actions: seq<Action>)
    requires SmoothRunAsWritten(c, d, before, Racing(d, n, a, b, Completed, p, held))
    ensures SmoothRunAsWritten(c, d, actions, Closed(d, n, a, b, p, held)) && Indicated(actions) == Indicated(before)
  {
    var t;
    actions, t := Do(c, d, before, Racing(d, n, a, b, Completed, p, held), TestFinal(n));
    actions, t := Do(c, d, actions, t, Close(n));
    assert t.workers == map[n := Finalising, n + 1 := p];
  }

  function Closed(d: Option<File>, n: nat, a: Chunk, b: Chunk, p: Phase, held: Chunk): State {
    Racing(d, n, a, b, Finalising, p, held).(isOpen := false, finalisations := 1)
  }

  /** ... and goes on to finalise and leave, with the file open again or not. */
  lemma OvertakenFinalises(c: Context, d: Option<File>, before: seq<Action>, n: nat, a: Chunk, b: Chunk, p: Phase, held: Chunk,
                           open: bool)
    returns (actions: seq<Action>)
    requires c.snapshot == SnapshotOf(d)
    requires SmoothRunAsWritten(c, d, before, Closed(d, n, a, b, p, held).(isOpen := open))
    ensures SmoothRunAsWritten(c, d, actions, AfterFirst(c, d, n, a, b, p, held, open))
    ensures Indicated(actions) == Indicated(before)
  {
    var t := Closed(d, n, a, b, p, held).(isOpen := open);
    FirstFinalise(c, d, t, n, a, held);
    hide OnFinalise, FirstOutcome, FirstInstalls, SmoothRunAsWritten, Indicated;
    actions, t := Do(c, d, before, t, Finalise(n, ALL_WELL));
    actions := OvertakenLeaves(c, d, actions, t, n, p);
  }

  lemma OvertakenLeaves(c: Context, d: Option<File>, before: seq<Action>, s: State, n: nat, p: Phase) returns (actions: seq<Action>)
    requires SmoothRunAsWritten(c, d, before, s) && s.workers == map[n := Dropping, n + 1 := p] && s.refCount == 3 && !s.freed
    ensures SmoothRunAsWritten(c, d, actions, s.(workers := map[n + 1 := p], refCount := 2)) && Indicated(actions) == Indicated(before)
  {
    var t;
    actions, t := Do(c, d, before, s, Deref(n));
    assert t.workers == map[n + 1 := p];
  }

  lemma FirstFinalise(c: Context, d: Option<File>, s: State, n: nat, a: Chunk, held: Chunk)
    requires c.snapshot == SnapshotOf(d) && s.destination == d && s.bytesWritten == |a| && s.temp == Some(held)
    requires s.installs == []
    ensures OnFinalise(c, s, n, ALL_WELL) ==
            s.(workers := s.workers[n := Dropping], renamed := |a| == c.newFileSize && s.isOpen,
               temp := if |a| == c.newFileSize then None else Some(held),
               destination := FirstOutcome(c, d, a, held), installs := FirstInstalls(c, d, a, held))
  {
  }

  function AfterFirst(c: Context, d: Option<File>, n: nat, a: Chunk, b: Chunk, p: Phase, held: Chunk, open: bool): State {
    State(true, true, a + b, true, n + 2, b, true, |a|, open, |a| == c.newFileSize && open, 2, false, map[n + 1 := p],
          if |a| == c.newFileSize then None else Some(held), FirstOutcome(c, d, a, held), 0, false, 1, 1,
          FirstInstalls(c, d, a, held))
  }

  /** FIN's worker from its count to its departure. */
  lemma FinFinalises(c: Context, d: Option<File>, before: seq<Action>, s: State, k: nat)
    returns (actions: seq<Action>, t: State)
    requires SmoothRunAsWritten(c, d, before, s) && s.workers == map[k := Written] && s.finSeen && s.finalReceive
    ensures SmoothRunAsWritten(c, d, actions, t) && Indicated(actions) == Indicated(before)
    ensures t.finSeen && t.workers == map[] && !t.pended && t.received == s.received && t.broken == s.broken && t.overlap == s.overlap
    ensures var counted := s.(bytesWritten := s.bytesWritten + |s.buffers|);
            var file := Replacement(c, counted, ALL_WELL);
            if file.Some? then t.destination == file && t.installs == s.installs + [Install(s.destination, file.value, true)]
            else t.destination == s.destination && t.installs == s.installs
  {
    actions, t := FinCounts(c, d, before, s, k);
    ghost var counted := t;
    actions, t := Do(c, d, actions, t, Finalise(k, ALL_WELL));
    hide Replacement;
    actions, t := Do(c, d, actions, t, Deref(k));
    assert t.workers == map[];
    assert Replacement(c, counted, ALL_WELL) == Replacement(c, s.(bytesWritten := s.bytesWritten + |s.buffers|), ALL_WELL) by {
      SameReplacement(c, s, counted);
    }
  }

  lemma SameReplacement(c: Context, s: State, counted: State)
    requires counted.destination == s.destination && counted.temp == s.temp
    requires counted.bytesWritten == s.bytesWritten + |s.buffers|
    ensures Replacement(c, counted, ALL_WELL) == Replacement(c, s.(bytesWritten := s.bytesWritten + |s.buffers|), ALL_WELL)
  {
  }

  lemma FinCounts(c: Context, d: Option<File>, before: seq<Action>, s: State, k: nat)
    returns (actions: seq<Action>, t: State)
    requires SmoothRunAsWritten(c, d, before, s) && s.workers == map[k := Written] && s.finSeen && s.finalReceive
    ensures SmoothRunAsWritten(c, d, actions, t) && Indicated(actions) == Indicated(before)
    ensures t == s.(bytesWritten := s.bytesWritten + |s.buffers|, pended := false, workers := map[k := Finalising],
                    isOpen := false, renamed := false, finalisations := s.finalisations + 1)
  {
    actions, t := Do(c, d, before, s, Account(k));
    actions, t := Do(c, d, actions, t, ReceiveComplete(k));
    assert t.workers == map[k := Completed];
    actions, t := FinTests(c, d, actions, t, k);
  }

  lemma FinTests(c: Context, d: Option<File>, before: seq<Action>, s: State, k: nat)
    returns (actions: seq<Action>, t: State)
    requires SmoothRunAsWritten(c, d, before, s) && s.workers == map[k := Completed] && s.finSeen && s.finalReceive
    ensures SmoothRunAsWritten(c, d, actions, t) && Indicated(actions) == Indicated(before)
    ensures t == s.(workers := map[k := Finalising], isOpen := false, renamed := false, finalisations := s.finalisations + 1)
  {
    actions, t := Do(c, d, before, s, TestFinal(k));
    actions, t := Do(c, d, actions, t, Close(k));
    assert t.workers == map[k := Finalising];
  }

  /** The overtaken worker finalises before FIN's worker opens: that one truncates the
      temporary file anew, and has the full count of bytes to show for its own alone. */
  lemma OpensAgain(c: Context, d: Option<File>, before: seq<Chunk>, last: Chunk) returns (actions: seq<Action>, t: State)
    requires c.snapshot == SnapshotOf(d) && before != []
    ensures SmoothRunAsWritten(c, d, actions, t) && Ended(actions, t, before, last)
    ensures !t.pended && !t.broken && t.received == Flatten(before) + last && t.overlap == 1
    ensures var a := Flatten(before);
            var first, installs := FirstOutcome(c, d, a, a), FirstInstalls(c, d, a, a);
            if |a| + |last| == c.newFileSize && (d.None? || SnapshotOf(first) == SnapshotOf(d)) then
              t.destination == Some(File(last, c.fileTime))
              && t.installs == installs + [Install(first, File(last, c.fileTime), true)]
            else t.destination == first && t.installs == installs
  {
    var n;
    var a := Flatten(before);
    actions, n := FinOvertakes(c, d, before, last);
    actions := OvertakenCloses(c, d, actions, n, a, last, Queued, a);
    actions := OvertakenFinalises(c, d, actions, n, a, last, Queued, a, false);
    t := AfterFirst(c, d, n, a, last, Queued, a, false);
    actions, t := Do(c, d, actions, t, Open(n + 1, true));
    NoPrefix(last);
    actions, t := Do(c, d, actions, t, Write(n + 1, 0, true, 0));
    assert t.workers == map[n + 1 := Written];
    actions, t := FinFinalises(c, d, actions, t, n + 1);
  }

  /** It finalises between the open and the write of FIN's worker, whose write fails. */
  lemma WriteFails(c: Context, d: Option<File>, before: seq<Chunk>, last: Chunk) returns (actions: seq<Action>, t: State)
    requires c.snapshot == SnapshotOf(d) && before != []
    ensures SmoothRunAsWritten(c, d, actions, t) && Ended(actions, t, before, last)
    ensures t.destination == FirstOutcome(c, d, Flatten(before), Flatten(before))
  {
    var n;
    var a := Flatten(before);
    actions, n := FinOvertakes(c, d, before, last);
    t := Overtaken(d, n, a, last);
    actions, t := Do(c, d, actions, t, Open(n + 1, true));
    assert t.workers == map[n := Completed, n + 1 := Opened];
    actions := OvertakenCloses(c, d, actions, n, a, last, Opened, a);
    actions := OvertakenFinalises(c, d, actions, n, a, last, Opened, a, false);
    t := AfterFirst(c, d, n, a, last, Opened, a, false);
    actions, t := Do(c, d, actions, t, Write(n + 1, 0, true, 0));
    actions, t := Do(c, d, actions, t, Deref(n + 1));
    assert t.workers == map[];
  }

  /** It finalises after the write of FIN's worker and before its count. */
  lemma CountIsLate(c: Context, d: Option<File>, before: seq<Chunk>, last: Chunk) returns (actions: seq<Action>, t: State)
    requires c.snapshot == SnapshotOf(d) && before != [] && |Flatten(before)| == c.newFileSize && last != []
    ensures SmoothRunAsWritten(c, d, actions, t) && Ended(actions, t, before, last)
    ensures t.destination == Some(File(Flatten(before) + last, c.fileTime))
  {
    var n;
    var a := Flatten(before);
    actions, n := FinOvertakes(c, d, before, last);
    t := Overtaken(d, n, a, last);
    actions, t := Do(c, d, actions, t, Open(n + 1, true));
    actions, t := Do(c, d, actions, t, Write(n + 1, 0, true, 0));
    assert t.workers == map[n := Completed, n + 1 := Written];
    actions := OvertakenCloses(c, d, actions, n, a, last, Written, a + last);
    actions := OvertakenFinalises(c, d, actions, n, a, last, Written, a + last, false);
    t := AfterFirst(c, d, n, a, last, Written, a + last, false);
    actions, t := FinFinalises(c, d, actions, t, n + 1);
  }

  /** A complete new file replaced by an empty one, whatever the old file is: FIN, alone
      in the last receive, reaches its worker between the other's close and its rename. It
      opens the temporary file anew and so truncates it; the other worker then renames it,
      with every size test passing. */
  lemma EmptyFileInstalled(c: Context, d: Option<File>, before: seq<Chunk>) returns (actions: seq<Action>, t: State)
    requires c.snapshot == SnapshotOf(d) && before != [] && |Flatten(before)| == c.newFileSize
    ensures SmoothRunAsWritten(c, d, actions, t) && Ended(actions, t, before, [])
    ensures !t.pended && !t.broken && t.received == Flatten(before) && t.overlap == 1
    ensures t.installs == [Install(d, File([], c.fileTime), true)] && t.destination == Some(File([], c.fileTime))
  {
    var n;
    var a := Flatten(before);
    actions, n := FinOvertakes(c, d, before, []);
    actions := OvertakenCloses(c, d, actions, n, a, [], Queued, a);
    t := Closed(d, n, a, [], Queued, a);
    actions, t := Do(c, d, actions, t, Open(n + 1, true));
    NoPrefix(t.buffers);
    actions, t := Do(c, d, actions, t, Write(n + 1, 0, true, 0));
    assert t.workers == map[n := Finalising, n + 1 := Written];
    actions := OvertakenFinalises(c, d, actions, n, a, [], Written, [], true);
    t := AfterFirst(c, d, n, a, [], Written, [], true);
    actions, t := FinFinalises(c, d, actions, t, n + 1);
    NoSuffix(a);
  }

  /** Bytes beyond the announced size can go straight into the destination: the stream is
      opened again before the other worker's rename and written to after it. */
  lemma LateBytesLand(c: Context, d: Option<File>, before: seq<Chunk>, last: Chunk, now: int)
    returns (actions: seq<Action>, t: State)
    requires c.snapshot == SnapshotOf(d) && before != [] && |Flatten(before)| == c.newFileSize && last != []
    ensures SmoothRunAsWritten(c, d, actions, t) && Indicated(actions) == before + [last] && !t.broken
    ensures t.installs == [Install(d, File([], c.fileTime), true)] && t.destination == Some(File(last, now))
  {
    var n;
    var a := Flatten(before);
    actions, n := FinOvertakes(c, d, before, last);
    actions := OvertakenCloses(c, d, actions, n, a, last, Queued, a);
    t := Closed(d, n, a, last, Queued, a);
    actions, t := Do(c, d, actions, t, Open(n + 1, true));
    assert t.workers == map[n := Finalising, n + 1 := Opened];
    actions := OvertakenFinalises(c, d, actions, n, a, last, Opened, [], true);
    t := AfterFirst(c, d, n, a, last, Opened, [], true);
    NoPrefix(last);
    actions, t := Do(c, d, actions, t, Write(n + 1, 0, true, now));
  }

  lemma UnsafeCutFails(c: Context, d: Option<File>, before: seq<Chunk>, last: Chunk) returns (actions: seq<Action>, t: State)
    requires c.snapshot == SnapshotOf(d) && !SafeCut(c, d, before == [], Flatten(before), last)
    ensures SmoothRunAsWritten(c, d, actions, t) && Ended(actions, t, before, last)
    ensures t.destination != Delivered(c, d, Flatten(before) + last)
  {
    var a := Flatten(before);
    hide SmoothRunAsWritten, Ended, Flatten;
    NoSuffix(a);
    NoPrefix(last);
    assert last != [] ==> |a + last| != |a|;
    assert a != [] ==> |a + last| != |last|;
    if last == [] {
      actions, t := EmptyFileInstalled(c, d, before);
    } else if |a| == c.newFileSize && d == Some(File(a, c.fileTime)) {
      actions, t := CountIsLate(c, d, before, last);
    } else if |a| != c.newFileSize && a == [] {
      actions, t := WriteFails(c, d, before, last);
    } else {
      actions, t := OpensAgain(c, d, before, last);
    }
  }

  /** As written, every undisturbed interleaving over a cut of the stream delivers if and
      only if the cut is safe. */
  lemma DeliversAsWrittenExactly(c: Context, d: Option<File>, before: seq<Chunk>, last: Chunk)
    requires c.snapshot == SnapshotOf(d)
    ensures EveryRunDelivers(c, d, before, last) <==> SafeCut(c, d, before == [], Flatten(before), last)
  {
    hide SmoothRunAsWritten, Ended, Flatten, SafeCut, Delivered;
    if SafeCut(c, d, before == [], Flatten(before), last) {
      forall actions, t | SmoothRunAsWritten(c, d, actions, t) && Ended(actions, t, before, last)
        ensures t.destination == Delivered(c, d, Flatten(before) + last)
      {
        SafeCutDelivers(c, d, before, last, actions, t);
      }
    } else {
      var actions, t := UnsafeCutFails(c, d, before, last);
    }
  }
}
