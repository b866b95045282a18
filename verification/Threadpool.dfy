/** The thread pool (threadpool.h): a queue and a stop flag behind a mutex, and a
    condition variable. The mutex makes every critical section one step; notification
    happens after unlocking, and waiters may wake for no reason. */
module Threadpool {

  type Item = nat

  datatype Worker =
    | AtTop               // about to read WorkerContinue in the loop condition
    | AtLock              // about to lock and test the wait predicate
    | Sleeping            // waiting on the condition variable
    | Woken               // notified or woken spuriously, about to lock again
    | Running(item: Item)
    | Finished

  datatype Pool = Pool(
    workers: seq<Worker>,
    queue: seq<Item>,
    continuing: bool,       // WorkerContinue
    unnotified: nat,        // enqueuers that have pushed and not yet notified
    joining: bool,          // notify_all has been called
    pushed: seq<Item>,      // history: every item ever queued,
    started: seq<Item>,     // every item taken, in the order taken,
    ended: seq<Item>)       // every item whose run is over

  datatype Action =
    | LoopTest(w: nat)
    | Acquire(w: nat)
    | EndItem(w: nat)
    | Push(item: Item)
    | NotifyOne(w: nat)
    | WakeSpuriously(w: nat)
    | Stop
    | NotifyAll

  function Initial(threads: nat): Pool {
    Pool(seq(threads, _ => AtTop), [], true, 0, false, [], [], [])
  }

  predicate Is(p: Pool, w: nat, state: Worker) {
    w < |p.workers| && p.workers[w] == state
  }

  predicate SomeoneSleeps(p: Pool) {
    Sleeping in p.workers
  }

  predicate Enabled(p: Pool, a: Action) {
    match a
    case LoopTest(w) => Is(p, w, AtTop)
    case Acquire(w) => Is(p, w, AtLock) || Is(p, w, Woken)
    case EndItem(w) => w < |p.workers| && p.workers[w].Running?
    case Push(_) => true
    case NotifyOne(w) => p.unnotified > 0 && (SomeoneSleeps(p) ==> Is(p, w, Sleeping))
    case WakeSpuriously(w) => Is(p, w, Sleeping)
    case Stop => true
    case NotifyAll => !p.continuing
  }

  /** What a worker does under the lock: sleep, leave, or take the front item. */
  datatype Decision = Sleep | Leave | Take(item: Item)

  function Decide(queue: seq<Item>, continuing: bool): Decision {
    if |queue| == 0 && continuing then Sleep
    else if !continuing then Leave
    else Take(queue[0])
  }

  function Become(p: Pool, w: nat, state: Worker): Pool
    requires w < |p.workers|
  {
    p.(workers := p.workers[w := state])
  }

  function WakeAll(ws: seq<Worker>): (r: seq<Worker>)
    ensures |r| == |ws|
    ensures forall i :: 0 <= i < |ws| ==> r[i] == if ws[i] == Sleeping then Woken else ws[i]
  {
    seq(|ws|, i requires 0 <= i < |ws| => if ws[i] == Sleeping then Woken else ws[i])
  }

  function Step(p: Pool, a: Action): Pool
    requires Enabled(p, a)
  {
    match a
    case LoopTest(w) => Become(p, w, if p.continuing then AtLock else Finished)
    case Acquire(w) =>
      (match Decide(p.queue, p.continuing)
       case Sleep => Become(p, w, Sleeping)
       case Leave => Become(p, w, Finished)
       case Take(item) => Become(p, w, Running(item)).(queue := p.queue[1..], started := p.started + [item]))
    case EndItem(w) => Become(p, w, AtTop).(ended := p.ended + [p.workers[w].item])
    case Push(item) => p.(queue := p.queue + [item], pushed := p.pushed + [item], unnotified := p.unnotified + 1)
    case NotifyOne(w) =>
      (if SomeoneSleeps(p) then Become(p, w, Woken) else p).(unnotified := p.unnotified - 1)
    case WakeSpuriously(w) => Become(p, w, Woken)
    case Stop => p.(continuing := false)
    case NotifyAll => p.(workers := WakeAll(p.workers), joining := true)
  }

  predicate Reaches(p: Pool, actions: seq<Action>, q: Pool)
    decreases |actions|
  {
    if actions == [] then p == q
    else Enabled(p, actions[0]) && Reaches(Step(p, actions[0]), actions[1..], q)
  }

  function CountWoken(ws: seq<Worker>): nat {
    if ws == [] then 0 else (if ws[0] == Woken then 1 else 0) + CountWoken(ws[1..])
  }

  /** The items being run, by all workers together. */
  function InHand(ws: seq<Worker>): multiset<Item> {
    if ws == [] then multiset{}
    else (if ws[0].Running? then multiset{ws[0].item} else multiset{}) + InHand(ws[1..])
  }

  function One(w: Worker): nat {
    if w == Woken then 1 else 0
  }

  function Hand(w: Worker): multiset<Item> {
    if w.Running? then multiset{w.item} else multiset{}
  }

  lemma {:induction false} Replace(ws: seq<Worker>, i: nat, w: Worker)
    requires i < |ws|
    ensures CountWoken(ws[i := w]) + One(ws[i]) == CountWoken(ws) + One(w)
  {
    if i > 0 {
      assert ws[i := w][1..] == ws[1..][i - 1 := w];
      Replace(ws[1..], i - 1, w);
    } else {
      assert ws[i := w][1..] == ws[1..];
    }
  }

  lemma Shuffle(a: multiset<Item>, b: multiset<Item>, c: multiset<Item>)
    ensures (a + b) + c == (c + b) + a
    ensures a + (b + c) == (a + b) + c
    ensures a + multiset{} == a
  {
  }

  lemma {:induction false} ReplaceHand(ws: seq<Worker>, i: nat, w: Worker)
    requires i < |ws|
    ensures InHand(ws[i := w]) + Hand(ws[i]) == InHand(ws) + Hand(w)
  {
    var tail := InHand(ws[1..]);
    assert InHand(ws) == Hand(ws[0]) + tail;
    if i > 0 {
      assert ws[i := w][1..] == ws[1..][i - 1 := w];
      ReplaceHand(ws[1..], i - 1, w);
      Shuffle(Hand(ws[0]), InHand(ws[1..][i - 1 := w]), Hand(ws[i]));
      Shuffle(Hand(ws[0]), tail, Hand(w));
      assert InHand(ws[i := w]) == Hand(ws[0]) + InHand(ws[1..][i - 1 := w]);
    } else {
      assert ws[i := w][1..] == ws[1..];
      assert InHand(ws[i := w]) == Hand(w) + tail;
      Shuffle(Hand(w), tail, Hand(ws[0]));
    }
  }

  /** No lost wake-up: while anyone sleeps, every queued item has a woken worker or an
      enqueuer on its way to it. */
  predicate WakeInv(p: Pool) {
    p.continuing && SomeoneSleeps(p) ==> |p.queue| <= CountWoken(p.workers) + p.unnotified
  }

  predicate OrderInv(p: Pool) {
    && p.started + p.queue == p.pushed
    && multiset(p.started) == multiset(p.ended) + InHand(p.workers)
  }

  predicate StopInv(p: Pool) {
    && (p.continuing ==> Finished !in p.workers && !p.joining)
    && (p.joining ==> !SomeoneSleeps(p))
  }

  lemma StepKeepsWake(p: Pool, a: Action)
    requires WakeInv(p) && Enabled(p, a)
    ensures WakeInv(Step(p, a))
  {
    if a.LoopTest? || a.Acquire? || a.EndItem? || a.WakeSpuriously? || (a.NotifyOne? && SomeoneSleeps(p)) {
      Replace(p.workers, a.w, Step(p, a).workers[a.w]);
      assert Sleeping in Step(p, a).workers && Step(p, a).workers[a.w] != Sleeping ==> Sleeping in p.workers;
    }
  }

  lemma {:induction false} WakingKeepsHands(ws: seq<Worker>)
    ensures InHand(WakeAll(ws)) == InHand(ws)
  {
    if ws != [] {
      assert WakeAll(ws)[1..] == WakeAll(ws[1..]);
      WakingKeepsHands(ws[1..]);
    }
  }

  lemma TakingKeepsOrder(p: Pool, w: nat)
    requires OrderInv(p) && (Is(p, w, AtLock) || Is(p, w, Woken)) && p.queue != []
    ensures var item := p.queue[0];
            OrderInv(Become(p, w, Running(item)).(queue := p.queue[1..], started := p.started + [item]))
  {
    var item := p.queue[0];
    ReplaceHand(p.workers, w, Running(item));
    hide InHand;
    Shuffle(InHand(p.workers[w := Running(item)]), multiset{}, multiset{});
    Shuffle(multiset(p.ended), InHand(p.workers), multiset{item});
    assert (p.started + [item]) + p.queue[1..] == p.started + p.queue;
    assert multiset(p.started + [item]) == multiset(p.started) + multiset{item};
  }

  lemma EndingKeepsOrder(p: Pool, w: nat)
    requires OrderInv(p) && w < |p.workers| && p.workers[w].Running?
    ensures OrderInv(Become(p, w, AtTop).(ended := p.ended + [p.workers[w].item]))
  {
    var item := p.workers[w].item;
    ReplaceHand(p.workers, w, AtTop);
    Shuffle(InHand(p.workers), multiset{}, multiset{});
    Shuffle(multiset(p.ended), InHand(p.workers[w := AtTop]), multiset{item});
    Shuffle(multiset(p.ended), multiset{item}, InHand(p.workers[w := AtTop]));
    assert multiset(p.ended + [item]) == multiset(p.ended) + multiset{item};
  }

  lemma IdleMoveKeepsOrder(p: Pool, w: nat, state: Worker)
    requires OrderInv(p) && w < |p.workers| && !p.workers[w].Running? && !state.Running?
    ensures OrderInv(Become(p, w, state))
  {
    ReplaceHand(p.workers, w, state);
    Shuffle(InHand(p.workers), multiset{}, multiset{});
    Shuffle(InHand(p.workers[w := state]), multiset{}, multiset{});
  }

  lemma StepKeepsOrder(p: Pool, a: Action)
    requires OrderInv(p) && Enabled(p, a)
    ensures OrderInv(Step(p, a))
  {
    match a
    case LoopTest(w) => IdleMoveKeepsOrder(p, w, if p.continuing then AtLock else Finished);
    case Acquire(w) =>
      match Decide(p.queue, p.continuing) {
        case Sleep => IdleMoveKeepsOrder(p, w, Sleeping);
        case Leave => IdleMoveKeepsOrder(p, w, Finished);
        case Take(_) => TakingKeepsOrder(p, w);
      }
    case EndItem(w) => EndingKeepsOrder(p, w);
    case Push(item) => assert p.started + (p.queue + [item]) == (p.started + p.queue) + [item];
    case NotifyOne(w) =>
      if SomeoneSleeps(p) {
        IdleMoveKeepsOrder(p, w, Woken);
      }
    case WakeSpuriously(w) => IdleMoveKeepsOrder(p, w, Woken);
    case Stop =>
    case NotifyAll => WakingKeepsHands(p.workers);
  }

  lemma StepKeepsStop(p: Pool, a: Action)
    requires StopInv(p) && Enabled(p, a)
    ensures StopInv(Step(p, a))
  {
  }

  predicate Inv(p: Pool) {
    WakeInv(p) && OrderInv(p) && StopInv(p)
  }

  lemma {:induction false} RunKeepsInv(p: Pool, actions: seq<Action>, q: Pool)
    requires Inv(p) && Reaches(p, actions, q)
    ensures Inv(q) && |q.workers| == |p.workers|
    decreases |actions|
  {
    if actions != [] {
      StepKeepsWake(p, actions[0]);
      StepKeepsOrder(p, actions[0]);
      StepKeepsStop(p, actions[0]);
      RunKeepsInv(Step(p, actions[0]), actions[1..], q);
    }
  }

  lemma {:induction false} FreshWorkers(n: nat)
    ensures InHand(seq(n, _ => AtTop)) == multiset{}
  {
    if n > 0 {
      FreshWorkers(n - 1);
      var ws: seq<Worker> := seq(n, _ => AtTop);
      assert ws[1..] == seq(n - 1, _ => AtTop);
    }
  }

  lemma Reached(n: nat, actions: seq<Action>, q: Pool)
    requires Reaches(Initial(n), actions, q)
    ensures Inv(q) && |q.workers| == n
  {
    FreshWorkers(n);
    assert Inv(Initial(n));
    RunKeepsInv(Initial(n), actions, q);
  }

  /** For any number of threads, in every reachable state. */
  lemma NoLostWakeUp(n: nat, actions: seq<Action>, q: Pool)
    requires Reaches(Initial(n), actions, q) && q.continuing && SomeoneSleeps(q)
    ensures |q.queue| <= CountWoken(q.workers) + q.unnotified
  {
    Reached(n, actions, q);
  }

  lemma {:induction false} NobodyWoken(ws: seq<Worker>)
    ensures CountWoken(ws) == 0 <==> Woken !in ws
  {
    if ws != [] {
      NobodyWoken(ws[1..]);
      assert ws == [ws[0]] + ws[1..];
    }
  }

  /** So a queued item never waits while the pool is at rest: with no notification due and
      no worker about to lock, every thread is running something. */
  lemma QueuedMeansBusy(n: nat, actions: seq<Action>, q: Pool)
    requires Reaches(Initial(n), actions, q) && q.continuing && q.queue != [] && q.unnotified == 0
    requires forall w <- q.workers :: w != AtTop && w != AtLock && w != Woken
    ensures forall w <- q.workers :: w.Running?
  {
    Reached(n, actions, q);
    NobodyWoken(q.workers);
  }

  /** Items are taken in the order they were queued, and each is taken, and ends, at most
      as often as it was queued. */
  lemma TakenInOrder(n: nat, actions: seq<Action>, q: Pool)
    requires Reaches(Initial(n), actions, q)
    ensures q.started + q.queue == q.pushed
    ensures multiset(q.started) == multiset(q.ended) + InHand(q.workers)
  {
    Reached(n, actions, q);
  }

  /** The item a one-thread pool is running, if any. */
  function Current(q: Pool): seq<Item>
    requires |q.workers| == 1
  {
    if q.workers[0].Running? then [q.workers[0].item] else []
  }

  lemma {:induction false} OneThreadFrom(p: Pool, actions: seq<Action>, q: Pool)
    requires |p.workers| == 1 && p.started == p.ended + Current(p) && Reaches(p, actions, q)
    ensures |q.workers| == 1 && q.started == q.ended + Current(q)
    decreases |actions|
  {
    if actions != [] {
      OneThreadFrom(Step(p, actions[0]), actions[1..], q);
    }
  }

  /** A pool of one thread ends every item before it takes the next. */
  lemma OneThreadRunsInSequence(actions: seq<Action>, q: Pool)
    requires Reaches(Initial(1), actions, q)
    ensures |q.workers| == 1 && q.started == q.ended + Current(q)
  {
    assert |Initial(1).workers| == 1;
    OneThreadFrom(Initial(1), actions, q);
  }

  /** Once the stop flag is set nothing more is taken. */
  lemma {:induction false} NothingTakenAfterStop(p: Pool, actions: seq<Action>, q: Pool)
    requires !p.continuing && Reaches(p, actions, q)
    ensures q.started == p.started && !q.continuing
    decreases |actions|
  {
    if actions != [] {
      NothingTakenAfterStop(Step(p, actions[0]), actions[1..], q);
    }
  }

  // ---- Joining ----

  function Rank(w: Worker): nat {
    match w
    case Running(_) => 2
    case Finished => 0
    case _ => 1
  }

  function Remaining(ws: seq<Worker>): nat {
    if ws == [] then 0 else Rank(ws[0]) + Remaining(ws[1..])
  }

  lemma {:induction false} ReplaceRank(ws: seq<Worker>, i: nat, w: Worker)
    requires i < |ws|
    ensures Remaining(ws[i := w]) + Rank(ws[i]) == Remaining(ws) + Rank(w)
  {
    if i > 0 {
      assert ws[i := w][1..] == ws[1..][i - 1 := w];
      ReplaceRank(ws[1..], i - 1, w);
    } else {
      assert ws[i := w][1..] == ws[1..];
    }
  }

  predicate IsWorkerStep(a: Action) {
    a.LoopTest? || a.Acquire? || a.EndItem?
  }

  lemma {:induction false} NobodySleepsNobodyChanges(ws: seq<Worker>)
    requires Sleeping !in ws
    ensures WakeAll(ws) == ws
  {
    assert forall i :: 0 <= i < |ws| ==> ws[i] in ws;
  }

  /** After notify_all every step of a worker brings it nearer to its end and no other
      step takes one back, ... */
  lemma JoiningProgress(p: Pool, a: Action)
    requires Inv(p) && p.joining && Enabled(p, a)
    ensures Inv(Step(p, a)) && Step(p, a).joining
    ensures if IsWorkerStep(a) then Remaining(Step(p, a).workers) < Remaining(p.workers)
            else Remaining(Step(p, a).workers) == Remaining(p.workers)
  {
    StepKeepsWake(p, a);
    StepKeepsOrder(p, a);
    StepKeepsStop(p, a);
    hide WakeInv, OrderInv;
    if IsWorkerStep(a) {
      WorkerStepRank(p, a);
    } else {
      OtherStepRank(p, a);
    }
  }

  lemma WorkerStepRank(p: Pool, a: Action)
    requires !p.continuing && IsWorkerStep(a) && Enabled(p, a)
    ensures Remaining(Step(p, a).workers) < Remaining(p.workers)
  {
    ReplaceRank(p.workers, a.w, Step(p, a).workers[a.w]);
    hide Remaining;
  }

  lemma OtherStepRank(p: Pool, a: Action)
    requires !SomeoneSleeps(p) && !IsWorkerStep(a) && Enabled(p, a)
    ensures Step(p, a).workers == p.workers
  {
    NobodySleepsNobodyChanges(p.workers);
    assert forall w: nat :: w < |p.workers| ==> p.workers[w] in p.workers;
  }

  /** ... and as long as some thread has not finished, a worker can take one: joining ends
      as soon as each running item does. */
  lemma JoiningNeverStuck(n: nat, actions: seq<Action>, q: Pool)
    requires Reaches(Initial(n), actions, q) && q.joining
    ensures (exists a :: IsWorkerStep(a) && Enabled(q, a)) <==> (exists w <- q.workers :: w != Finished)
  {
    Reached(n, actions, q);
    if w :| w in q.workers && w != Finished {
      var i: nat :| i < |q.workers| && q.workers[i] == w;
      var a := match w
        case AtTop => LoopTest(i)
        case Running(_) => EndItem(i)
        case _ => Acquire(i);
      assert IsWorkerStep(a) && Enabled(q, a);
    }
    if a :| IsWorkerStep(a) && Enabled(q, a) {
      assert q.workers[a.w] in q.workers;
    }
  }

  lemma {:induction false} EndAll(p: Pool) returns (actions: seq<Action>, q: Pool)
    requires Inv(p) && p.joining
    ensures Reaches(p, actions, q) && (forall a <- actions :: IsWorkerStep(a))
    ensures (forall w <- q.workers :: w == Finished) && q.started == p.started && |q.workers| == |p.workers|
    decreases Remaining(p.workers)
  {
    if i: nat :| i < |p.workers| && p.workers[i] != Finished {
      var a := match p.workers[i]
        case AtTop => LoopTest(i)
        case Running(_) => EndItem(i)
        case _ => Acquire(i);
      assert p.workers[i] in p.workers;
      JoiningProgress(p, a);
      StartsNothing(p, a);
      hide Inv, Step, Enabled;
      actions, q := EndAll(Step(p, a));
      assert ([a] + actions)[1..] == actions;
      actions := [a] + actions;
    } else {
      actions, q := [], p;
    }
  }

  lemma StartsNothing(p: Pool, a: Action)
    requires !p.continuing && Enabled(p, a)
    ensures Step(p, a).started == p.started && |Step(p, a).workers| == |p.workers|
  {
  }

  /** From every reachable state the destructor gets to its end: once the flag is cleared
      and everyone notified, the workers alone can all finish, and take nothing more. */
  lemma StopEndsAll(n: nat, before: seq<Action>, p: Pool) returns (actions: seq<Action>, q: Pool)
    requires Reaches(Initial(n), before, p)
    ensures Reaches(p, [Stop, NotifyAll] + actions, q) && (forall a <- actions :: IsWorkerStep(a))
    ensures |q.workers| == n && (forall w <- q.workers :: w == Finished) && q.started == p.started
  {
    Reached(n, before, p);
    var stopped := Step(p, Stop);
    var notified := Step(stopped, NotifyAll);
    RunKeepsInv(p, [Stop], stopped) by {
      assert [Stop][1..] == [] && Reaches(stopped, [], stopped);
    }
    RunKeepsInv(stopped, [NotifyAll], notified) by {
      assert [NotifyAll][1..] == [] && Reaches(notified, [], notified);
    }
    actions, q := EndAll(notified);
    assert ([NotifyAll] + actions)[1..] == actions;
    assert ([Stop] + ([NotifyAll] + actions))[1..] == [NotifyAll] + actions;
    assert [Stop] + ([NotifyAll] + actions) == [Stop, NotifyAll] + actions;
    assert Reaches(stopped, [NotifyAll] + actions, q);
    assert ([Stop, NotifyAll] + actions)[0] == Stop;
  }

  /** The shared fields. Each critical section is one step of the pool it belongs to. */
  class Shared {
    var workitems: seq<Item>
    var workerContinue: bool
    ghost var pool: Pool

    ghost predicate Valid()
      reads this
    {
      workitems == pool.queue && workerContinue == pool.continuing
    }

    constructor (threads: nat)
      ensures Valid() && pool == Initial(threads)
    {
      workitems, workerContinue := [], true;
      pool := Initial(threads);
    }

    /** Enqueue, up to its unlock. */
    method Enqueue(item: Item)
      requires Valid()
      modifies this
      ensures Valid() && pool == Step(old(pool), Push(item))
    {
      workitems := workitems + [item];
      pool := Step(pool, Push(item));
    }

    /** Worker `w` under the lock: the wait predicate, and what follows up to the unlock. */
    method WaitOrTake(w: nat) returns (decision: Decision)
      requires Valid() && Enabled(pool, Acquire(w))
      modifies this
      ensures Valid() && pool == Step(old(pool), Acquire(w))
      ensures decision == Decide(old(workitems), workerContinue)
      ensures if decision.Take? then [decision.item] + workitems == old(workitems) else workitems == old(workitems)
      ensures pool.workers[w] == match decision case Sleep => Sleeping case Leave => Finished case Take(item) => Running(item)
    {
      pool := Step(pool, Acquire(w));
      if !(|workitems| > 0 || !workerContinue) {
        return Sleep;
      }
      if !workerContinue {
        return Leave;
      }
      decision := Take(workitems[0]);
      workitems := workitems[1..];
    }

    /** The destructor, up to its unlock. */
    method Stop()
      requires Valid()
      modifies this
      ensures Valid() && pool == Step(old(pool), Action.Stop)
    {
      workerContinue := false;
      pool := Step(pool, Action.Stop);
    }
  }
}
