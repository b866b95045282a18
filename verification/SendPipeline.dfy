/** The client's windowed send pipeline for one data stream, as small steps of its worker
    and of QUIC's completions that interleave, with a 32-bit counter that wraps. */
module SendPipeline {
  import opened Bytes

  const FILE_IO_SIZE: nat := 65535
  const MAX_OUTSTANDING_SENDS: nat := 4
  const COUNTER_RANGE: nat := 0x1_0000_0000

  // ---- The blocks of a file ----

  /** The index of the final, short (possibly empty) block. */
  function LastBlock(file: Chunk): nat {
    |file| / FILE_IO_SIZE
  }

  function Block(file: Chunk, k: nat): Chunk
    requires k <= LastBlock(file)
  {
    if k < LastBlock(file) then file[k * FILE_IO_SIZE..(k + 1) * FILE_IO_SIZE]
    else file[k * FILE_IO_SIZE..]
  }

  /** The first `n` blocks. */
  function BlocksUpTo(file: Chunk, n: nat): (r: seq<Chunk>)
    requires n <= LastBlock(file) + 1
    ensures |r| == n
  {
    if n == 0 then [] else BlocksUpTo(file, n - 1) + [Block(file, n - 1)]
  }

  function Blocks(file: Chunk): seq<Chunk> {
    BlocksUpTo(file, LastBlock(file) + 1)
  }

  /** FIN is on the last send and on no other. */
  function FinFlags(n: nat): (r: seq<bool>)
    ensures |r| == n + 1
  {
    seq(n, _ => false) + [true]
  }

  lemma {:induction false} BlocksAreThePrefix(file: Chunk, n: nat)
    requires n <= LastBlock(file)
    ensures Flatten(BlocksUpTo(file, n)) == file[..n * FILE_IO_SIZE]
  {
    if n > 0 {
      BlocksAreThePrefix(file, n - 1);
      var block := Block(file, n - 1);
      FlattenAppend(BlocksUpTo(file, n - 1), [block]);
      NoSuffix(block);
      assert Flatten([block]) == block;
      Cut(file, (n - 1) * FILE_IO_SIZE, n * FILE_IO_SIZE);
    }
  }

  /** The blocks are the file: full ones, then one of the remaining bytes. */
  lemma BlocksAreTheFile(file: Chunk)
    ensures Flatten(Blocks(file)) == file
    ensures |Blocks(file)| == |file| / FILE_IO_SIZE + 1
    ensures |Block(file, LastBlock(file))| == |file| % FILE_IO_SIZE
    ensures forall k :: 0 <= k < LastBlock(file) ==> |Block(file, k)| == FILE_IO_SIZE
  {
    var n := LastBlock(file);
    BlocksAreThePrefix(file, n);
    var block := Block(file, n);
    FlattenAppend(BlocksUpTo(file, n), [block]);
    NoSuffix(block);
    assert Flatten([block]) == block;
    Cut(file, 0, n * FILE_IO_SIZE);
  }

  // ---- States and steps ----

  datatype Phase =
    | Idle                     // the pool's thread is not in this stream's worker
    | Entered                  // a work item has been taken from the queue
    | HasBlock(block: Chunk)   // read, not yet sent
    | Sent                     // sent, not yet counted
    | Counted                  // counted, window not yet tested

  datatype State = State(
    queued: nat,        // work items of this stream in the pool
    phase: Phase,
    position: nat,      // of FileReadStream
    endOfFile: bool,
    wire: seq<Chunk>,   // blocks handed to the stream
    fins: seq<bool>,    // whether each carried FIN
    counter: nat,       // OutstandingSends
    inFlight: nat,      // sends QUIC has not completed
    untested: nat,      // completions that have decremented but not tested the window
    completed: nat)

  datatype Action = Dequeue | ReadBlock | Send | Increment | TestAfterSend | Complete | TestAfterComplete

  /** The file has just been opened and one work item queued. */
  const INITIAL := State(1, Idle, 0, false, [], [], 0, 0, 0, 0)

  predicate Enabled(s: State, a: Action) {
    match a
    case Dequeue => s.phase == Idle && s.queued > 0
    case ReadBlock => s.phase == Entered
    case Send => s.phase.HasBlock?
    case Increment => s.phase == Sent
    case TestAfterSend => s.phase == Counted
    case Complete => s.inFlight > 0
    case TestAfterComplete => s.untested > 0
  }

  function Requeue(s: State): State {
    if !s.endOfFile && s.counter < MAX_OUTSTANDING_SENDS then s.(queued := s.queued + 1) else s
  }

  function Min(a: nat, b: nat): nat {
    if a < b then a else b
  }

  /** `recheck` is the repaired worker, which tests the window before it reads. */
  function Step(file: Chunk, recheck: bool, s: State, a: Action): State
    requires Enabled(s, a) && s.position <= |file|
  {
    match a
    case Dequeue => s.(queued := s.queued - 1, phase := Entered)
    case ReadBlock =>
      if s.endOfFile || (recheck && s.counter >= MAX_OUTSTANDING_SENDS) then s.(phase := Idle)
      else
        var next := Min(s.position + FILE_IO_SIZE, |file|);
        var block := file[s.position..next];
        s.(phase := HasBlock(block), position := next, endOfFile := |block| < FILE_IO_SIZE)
    case Send =>
      s.(phase := Sent, wire := s.wire + [s.phase.block], fins := s.fins + [s.endOfFile],
         inFlight := s.inFlight + 1)
    case Increment => s.(phase := Counted, counter := (s.counter + 1) % COUNTER_RANGE)
    case TestAfterSend => Requeue(s).(phase := Idle)
    case Complete =>
      s.(inFlight := s.inFlight - 1, counter := (s.counter + COUNTER_RANGE - 1) % COUNTER_RANGE,
         untested := s.untested + 1, completed := s.completed + 1)
    case TestAfterComplete => Requeue(s).(untested := s.untested - 1)
  }

  /** `actions` is an interleaving that leads from `s` to `t`. */
  predicate Reaches(file: Chunk, recheck: bool, s: State, actions: seq<Action>, t: State)
    decreases |actions|
  {
    if actions == [] then s == t
    else
      && s.position <= |file| && Enabled(s, actions[0])
      && Reaches(file, recheck, Step(file, recheck, s, actions[0]), actions[1..], t)
  }

  // ---- What every step keeps ----

  /** Blocks taken from the file. */
  function Taken(s: State): nat {
    |s.wire| + if s.phase.HasBlock? then 1 else 0
  }

  predicate ContentInv(file: Chunk, s: State) {
    var n := LastBlock(file);
    && Taken(s) <= n + 1
    && s.position == Min(Taken(s) * FILE_IO_SIZE, |file|)
    && (s.endOfFile <==> Taken(s) == n + 1)
    && s.wire == BlocksUpTo(file, |s.wire|)
    && |s.fins| == |s.wire|
    && (forall k :: 0 <= k < |s.fins| ==> (s.fins[k] <==> k == n))
    && (s.phase.HasBlock? ==> s.phase.block == Block(file, |s.wire|))
  }

  predicate SameModulo(m: nat, n: nat) {
    m % COUNTER_RANGE == n % COUNTER_RANGE
  }

  /** The counter is the number of sends in flight, less one between a send and its
      count, all modulo 2^32. */
  predicate CounterInv(s: State) {
    && s.counter < COUNTER_RANGE
    && SameModulo(s.counter + if s.phase == Sent then 1 else 0, s.inFlight)
    && |s.wire| == s.inFlight + s.completed
  }

  /** Before the end of the file the pipeline is at rest only behind a full window. */
  predicate ArmedInv(s: State) {
    s.phase == Idle && s.queued == 0 && s.untested == 0 && !s.endOfFile
    ==> s.inFlight >= MAX_OUTSTANDING_SENDS
  }

  predicate Inv(file: Chunk, s: State) {
    ContentInv(file, s) && CounterInv(s) && ArmedInv(s)
  }

  lemma StepKeepsContent(file: Chunk, recheck: bool, s: State, a: Action)
    requires ContentInv(file, s) && s.position <= |file| && Enabled(s, a)
    ensures ContentInv(file, Step(file, recheck, s, a))
  {
    var t := Step(file, recheck, s, a);
    if a == ReadBlock && t.phase.HasBlock? {
      var k, n := |s.wire|, LastBlock(file);
      assert n * FILE_IO_SIZE <= |file| < (n + 1) * FILE_IO_SIZE;
      assert t.phase.block == Block(file, k);
    }
  }

  lemma SuccessorModulo(c: nat, n: nat)
    requires c < COUNTER_RANGE && SameModulo(c + 1, n)
    ensures (c + 1) % COUNTER_RANGE < COUNTER_RANGE && SameModulo((c + 1) % COUNTER_RANGE, n)
  {
  }

  lemma BothSucceed(c: nat, n: nat)
    requires c < COUNTER_RANGE && SameModulo(c, n)
    ensures SameModulo(c + 1, n + 1)
  {
  }

  lemma PredecessorModulo(c: nat, uncounted: nat, n: nat)
    requires c < COUNTER_RANGE && uncounted <= 1 && n > 0
    requires SameModulo(c + uncounted, n)
    ensures var less := (c + COUNTER_RANGE - 1) % COUNTER_RANGE;
            less < COUNTER_RANGE && SameModulo(less + uncounted, n - 1)
  {
    var less := (c + COUNTER_RANGE - 1) % COUNTER_RANGE;
    assert less == if c == 0 then COUNTER_RANGE - 1 else c - 1;
  }

  lemma StepKeepsCounter(file: Chunk, recheck: bool, s: State, a: Action)
    requires CounterInv(s) && s.position <= |file| && Enabled(s, a)
    ensures CounterInv(Step(file, recheck, s, a))
  {
    hide SameModulo;
    match a
    case Send => BothSucceed(s.counter, s.inFlight);
    case Increment => SuccessorModulo(s.counter, s.inFlight);
    case Complete => PredecessorModulo(s.counter, if s.phase == Sent then 1 else 0, s.inFlight);
    case _ =>
  }

  lemma StepKeepsArmed(file: Chunk, recheck: bool, s: State, a: Action)
    requires CounterInv(s) && ArmedInv(s) && s.position <= |file| && Enabled(s, a)
    ensures ArmedInv(Step(file, recheck, s, a))
  {
    if s.phase != Sent {
      assert s.counter == s.inFlight % COUNTER_RANGE <= s.inFlight;
    }
  }

  /** Every step uses up some of the work the file still needs. */
  function Work(file: Chunk, s: State): int {
    10 * (LastBlock(file) + 1 - |s.wire|) + 5 * s.inFlight + 4 * s.untested + 3 * s.queued +
    match s.phase
    case Idle => 0
    case Entered => 2
    case HasBlock(_) => 1
    case Sent => 5
    case Counted => 4
  }

  lemma StepUsesWork(file: Chunk, recheck: bool, s: State, a: Action)
    requires s.position <= |file| && Enabled(s, a)
    ensures Work(file, Step(file, recheck, s, a)) < Work(file, s)
  {
  }

  lemma {:induction false} RunKeepsInv(file: Chunk, recheck: bool, s: State, actions: seq<Action>, t: State)
    requires Inv(file, s) && Reaches(file, recheck, s, actions, t)
    ensures Inv(file, t) && |actions| + Work(file, t) <= Work(file, s)
    decreases |actions|
  {
    if actions != [] {
      StepKeepsContent(file, recheck, s, actions[0]);
      StepKeepsCounter(file, recheck, s, actions[0]);
      StepKeepsArmed(file, recheck, s, actions[0]);
      StepUsesWork(file, recheck, s, actions[0]);
      RunKeepsInv(file, recheck, Step(file, recheck, s, actions[0]), actions[1..], t);
    }
  }

  lemma InitialContent(file: Chunk)
    ensures ContentInv(file, INITIAL) && INITIAL.position <= |file|
  {
  }

  lemma InitialCounter(file: Chunk)
    ensures CounterInv(INITIAL) && ArmedInv(INITIAL)
  {
  }

  lemma InitialWork(file: Chunk)
    ensures Work(file, INITIAL) == 10 * (LastBlock(file) + 1) + 3
  {
  }

  lemma InitialInv(file: Chunk)
    ensures Inv(file, INITIAL)
  {
    hide ContentInv, CounterInv, ArmedInv;
    InitialContent(file);
    InitialCounter(file);
  }

  /** What holds of every reachable state. */
  lemma Reached(file: Chunk, recheck: bool, actions: seq<Action>, t: State)
    requires Reaches(file, recheck, INITIAL, actions, t)
    ensures Inv(file, t)
    ensures |actions| + Work(file, t) <= 10 * (LastBlock(file) + 1) + 3
  {
    hide *;
    InitialInv(file);
    InitialWork(file);
    RunKeepsInv(file, recheck, INITIAL, actions, t);
  }

  /** Some step is possible unless nothing is queued, running, in flight or untested. */
  lemma SomeStep(s: State)
    ensures (exists a :: Enabled(s, a)) <==>
              s.queued > 0 || s.phase != Idle || s.untested > 0 || s.inFlight > 0
  {
    if s.untested > 0 {
      assert Enabled(s, TestAfterComplete);
    } else if s.inFlight > 0 {
      assert Enabled(s, Complete);
    } else {
      match s.phase
      case Idle => assert Enabled(s, Dequeue) <==> s.queued > 0;
      case Entered => assert Enabled(s, ReadBlock);
      case HasBlock(_) => assert Enabled(s, Send);
      case Sent => assert Enabled(s, Increment);
      case Counted => assert Enabled(s, TestAfterSend);
    }
  }

  /** No interleaving stalls: before the end of the file there is a queued work item, an
      active worker, a completion about to test, or a full window of real sends. */
  lemma NeverStalls(file: Chunk, recheck: bool, actions: seq<Action>, t: State)
    requires Reaches(file, recheck, INITIAL, actions, t) && !t.endOfFile
    ensures t.queued > 0 || t.phase != Idle || t.untested > 0 || t.inFlight >= MAX_OUTSTANDING_SENDS
    ensures exists a :: Enabled(t, a)
  {
    hide Reaches;
    Reached(file, recheck, actions, t);
    SomeStep(t);
  }

  /** Every interleaving is finite, and one that cannot go on has sent the whole file,
      block by block, with FIN on the last block alone. */
  lemma TransferCompletes(file: Chunk, recheck: bool, actions: seq<Action>, t: State)
    requires Reaches(file, recheck, INITIAL, actions, t)
    ensures |actions| <= 10 * (LastBlock(file) + 1) + 3
    ensures (forall a :: !Enabled(t, a)) ==>
              t.wire == Blocks(file) && Flatten(t.wire) == file && t.fins == FinFlags(LastBlock(file))
  {
    hide Reaches;
    Reached(file, recheck, actions, t);
    SomeStep(t);
    BlocksAreTheFile(file);
    assert Work(file, t) >= 0;
  }

  /** From the end of the file on, however many work items are left over and whatever
      happens to them, nothing more is sent and nothing more is queued. */
  lemma {:induction false} LeftoverItemsSendNothing(file: Chunk, recheck: bool, s: State, actions: seq<Action>, t: State)
    requires s.endOfFile && !s.phase.HasBlock? && Reaches(file, recheck, s, actions, t)
    ensures t.wire == s.wire && t.fins == s.fins && t.endOfFile && !t.phase.HasBlock? && t.queued <= s.queued
    decreases |actions|
  {
    if actions != [] {
      LeftoverItemsSendNothing(file, recheck, Step(file, recheck, s, actions[0]), actions[1..], t);
    }
  }

  // ---- The window ----

  /** 1 while the worker is still going to put a work item back. */
  function WillRequeue(s: State): nat {
    match s.phase
    case Idle => 0
    case Entered => 1
    case HasBlock(_) => 1
    case Sent => if s.inFlight < MAX_OUTSTANDING_SENDS then 1 else 0
    case Counted => if s.inFlight < MAX_OUTSTANDING_SENDS then 1 else 0
  }

  function Excess(s: State): nat {
    if s.inFlight < MAX_OUTSTANDING_SENDS then 0 else s.inFlight - (MAX_OUTSTANDING_SENDS - 1)
  }

  /** Work items, present or owed, and sends beyond three: one to begin with, and at most
      one more for every completion. */
  predicate BudgetInv(s: State) {
    s.queued + s.untested + WillRequeue(s) + Excess(s) <= 1 + s.completed
  }

  lemma StepKeepsBudget(file: Chunk, recheck: bool, s: State, a: Action)
    requires CounterInv(s) && BudgetInv(s) && s.position <= |file| && Enabled(s, a)
    requires s.inFlight < COUNTER_RANGE
    ensures BudgetInv(Step(file, recheck, s, a))
  {
  }

  /** Enough blocks would overflow the counter itself. */
  predicate CounterSuffices(file: Chunk) {
    LastBlock(file) + 1 < COUNTER_RANGE
  }

  lemma {:induction false} RunKeepsBudget(file: Chunk, recheck: bool, s: State, actions: seq<Action>, t: State)
    requires CounterSuffices(file)
    requires Inv(file, s) && BudgetInv(s) && Reaches(file, recheck, s, actions, t)
    ensures BudgetInv(t) && Inv(file, t)
    decreases |actions|
  {
    if actions != [] {
      StepKeepsContent(file, recheck, s, actions[0]);
      StepKeepsCounter(file, recheck, s, actions[0]);
      StepKeepsArmed(file, recheck, s, actions[0]);
      StepKeepsBudget(file, recheck, s, actions[0]);
      RunKeepsBudget(file, recheck, Step(file, recheck, s, actions[0]), actions[1..], t);
    }
  }

  lemma ReachedBudget(file: Chunk, recheck: bool, actions: seq<Action>, t: State)
    requires CounterSuffices(file) && Reaches(file, recheck, INITIAL, actions, t)
    ensures BudgetInv(t)
  {
    hide *;
    InitialBudget();
    InitialInv(file);
    RunKeepsBudget(file, recheck, INITIAL, actions, t);
  }

  lemma InitialBudget()
    ensures BudgetInv(INITIAL)
  {
  }

  /** As written, a transfer of n blocks never has more than (n + 4) / 2 in flight... */
  lemma InFlightAtMost(file: Chunk, actions: seq<Action>, t: State)
    requires CounterSuffices(file) && Reaches(file, false, INITIAL, actions, t)
    ensures t.inFlight <= MAX_OUTSTANDING_SENDS + t.completed
    ensures t.inFlight <= (LastBlock(file) + 1 + MAX_OUTSTANDING_SENDS) / 2
  {
    hide Reaches;
    Reached(file, false, actions, t);
    ReachedBudget(file, false, actions, t);
  }

  lemma {:induction false} Chain(file: Chunk, recheck: bool, s: State, first: seq<Action>, t: State, second: seq<Action>, u: State)
    requires Reaches(file, recheck, s, first, t) && Reaches(file, recheck, t, second, u)
    ensures Reaches(file, recheck, s, first + second, u)
    decreases |first|
  {
    if first == [] {
      assert first + second == second;
    } else {
      assert (first + second)[1..] == first[1..] + second;
      Chain(file, recheck, Step(file, recheck, s, first[0]), first[1..], t, second, u);
    }
  }

  const ROUND := [Dequeue, ReadBlock, Send, Increment, TestAfterSend]
  const ACKNOWLEDGE := [Complete, TestAfterComplete]

  /** At rest between worker runs, with the counter exact. */
  predicate Resting(file: Chunk, s: State) {
    && Inv(file, s) && s.phase == Idle && s.untested == 0
    && s.counter == s.inFlight
  }

  lemma OneRound(file: Chunk, s: State) returns (t: State)
    requires Resting(file, s) && s.queued > 0 && !s.endOfFile && s.inFlight + 1 < COUNTER_RANGE
    ensures Reaches(file, false, s, ROUND, t) && Resting(file, t)
    ensures t.inFlight == s.inFlight + 1 && t.completed == s.completed
    ensures t.endOfFile <==> |t.wire| == LastBlock(file) + 1
    ensures t.queued == if !t.endOfFile && t.inFlight < MAX_OUTSTANDING_SENDS then s.queued else s.queued - 1
  {
    t := RoundFields(file, s);
    hide Reaches, BlocksUpTo, Block, LastBlock;
    RunKeepsInv(file, false, s, ROUND, t);
  }

  lemma RoundFields(file: Chunk, s: State) returns (t: State)
    requires s.phase == Idle && s.queued > 0 && !s.endOfFile && s.position <= |file|
    requires s.counter == s.inFlight && s.inFlight + 1 < COUNTER_RANGE
    ensures Reaches(file, false, s, ROUND, t)
    ensures t.phase == Idle && t.untested == s.untested && t.completed == s.completed
    ensures t.inFlight == s.inFlight + 1 == t.counter
    ensures t.queued == if !t.endOfFile && t.inFlight < MAX_OUTSTANDING_SENDS then s.queued else s.queued - 1
  {
    var s1 := Step(file, false, s, Dequeue);
    var s2 := Step(file, false, s1, ReadBlock);
    var s3 := Step(file, false, s2, Send);
    var s4 := Step(file, false, s3, Increment);
    t := Step(file, false, s4, TestAfterSend);
    FiveSteps(file, s, s1, s2, s3, s4, t);
    hide Reaches;
  }

  lemma FiveSteps(file: Chunk, s: State, s1: State, s2: State, s3: State, s4: State, t: State)
    requires s.position <= |file| && Enabled(s, Dequeue) && s1 == Step(file, false, s, Dequeue)
    requires s1.position <= |file| && Enabled(s1, ReadBlock) && s2 == Step(file, false, s1, ReadBlock)
    requires s2.position <= |file| && Enabled(s2, Send) && s3 == Step(file, false, s2, Send)
    requires s3.position <= |file| && Enabled(s3, Increment) && s4 == Step(file, false, s3, Increment)
    requires s4.position <= |file| && Enabled(s4, TestAfterSend) && t == Step(file, false, s4, TestAfterSend)
    ensures Reaches(file, false, s, ROUND, t)
  {
    assert Reaches(file, false, t, [], t);
    assert Reaches(file, false, s4, [TestAfterSend], t);
    assert Reaches(file, false, s3, [Increment, TestAfterSend], t) by {
      assert [Increment, TestAfterSend][1..] == [TestAfterSend];
    }
    assert Reaches(file, false, s2, [Send, Increment, TestAfterSend], t) by {
      assert [Send, Increment, TestAfterSend][1..] == [Increment, TestAfterSend];
    }
    assert Reaches(file, false, s1, [ReadBlock, Send, Increment, TestAfterSend], t) by {
      assert [ReadBlock, Send, Increment, TestAfterSend][1..] == [Send, Increment, TestAfterSend];
    }
    assert ROUND[1..] == [ReadBlock, Send, Increment, TestAfterSend];
  }

  lemma OneAcknowledgement(file: Chunk, s: State) returns (t: State)
    requires Resting(file, s) && s.inFlight == 1 && !s.endOfFile
    ensures Reaches(file, false, s, ACKNOWLEDGE, t) && Resting(file, t)
    ensures t.inFlight == 0 && t.completed == s.completed + 1
    ensures !t.endOfFile && t.queued == s.queued + 1
  {
    var s1 := Step(file, false, s, Complete);
    t := Step(file, false, s1, TestAfterComplete);
    assert Reaches(file, false, t, [], t);
    assert Reaches(file, false, s1, [TestAfterComplete], t);
    assert ACKNOWLEDGE[1..] == [TestAfterComplete];
    RunKeepsInv(file, false, s, ACKNOWLEDGE, t);
  }

  lemma InitialRests(file: Chunk)
    ensures Resting(file, INITIAL)
  {
    hide Inv;
    InitialInv(file);
  }

  /** Sending and completing one block at a time leaves one more work item each time. */
  lemma {:induction false} Accumulate(file: Chunk, k: nat) returns (actions: seq<Action>, t: State)
    requires k <= LastBlock(file)
    ensures Reaches(file, false, INITIAL, actions, t) && Resting(file, t)
    ensures t.queued == k + 1 && t.inFlight == 0 && t.completed == k && !t.endOfFile
  {
    if k == 0 {
      actions, t := [], INITIAL;
      InitialRests(file);
    } else {
      var before, s := Accumulate(file, k - 1);
      var u := OneRound(file, s);
      t := OneAcknowledgement(file, u);
      Chain(file, false, s, ROUND, u, ACKNOWLEDGE, t);
      actions := before + (ROUND + ACKNOWLEDGE);
      Chain(file, false, INITIAL, before, s, ROUND + ACKNOWLEDGE, t);
    }
  }

  /** The accumulated items then run without a completion in between. */
  lemma {:induction false} Fill(file: Chunk, k: nat, n: nat) returns (actions: seq<Action>, t: State)
    requires n <= MAX_OUTSTANDING_SENDS + k < COUNTER_RANGE
    requires 2 * k + MAX_OUTSTANDING_SENDS <= LastBlock(file) + 1
    ensures Reaches(file, false, INITIAL, actions, t) && Resting(file, t)
    ensures t.inFlight == n && t.completed == k
    ensures n < MAX_OUTSTANDING_SENDS + k ==> !t.endOfFile && t.queued + Excess(t) == k + 1
  {
    if n == 0 {
      actions, t := Accumulate(file, k);
    } else {
      var before, s := Fill(file, k, n - 1);
      t := OneRound(file, s);
      actions := before + ROUND;
      Chain(file, false, INITIAL, before, s, ROUND, t);
    }
  }

  /** ... and some interleaving of it does reach (n + 4) / 2. */
  lemma InFlightAttained(file: Chunk, k: nat) returns (actions: seq<Action>, t: State)
    requires 2 * k + MAX_OUTSTANDING_SENDS <= LastBlock(file) + 1
    requires MAX_OUTSTANDING_SENDS + k < COUNTER_RANGE
    ensures Reaches(file, false, INITIAL, actions, t) && t.inFlight == MAX_OUTSTANDING_SENDS + k
  {
    actions, t := Fill(file, k, MAX_OUTSTANDING_SENDS + k);
  }

  // ---- What is left over ----

  /** The whole file has been sent and completed, nothing runs, and items are queued: the
      context may be deleted at SHUTDOWN_COMPLETE while they still refer to it. */
  predicate ItemsLeftOver(file: Chunk, s: State) {
    s.wire == Blocks(file) && s.phase == Idle && s.inFlight == 0 && s.untested == 0 && s.queued > 0
  }

  lemma LastAcknowledgement(file: Chunk, s: State) returns (t: State)
    requires Resting(file, s) && s.inFlight == 1 && s.endOfFile
    ensures Reaches(file, false, s, ACKNOWLEDGE, t)
    ensures t == s.(inFlight := 0, counter := 0, completed := s.completed + 1)
  {
    var s1 := Step(file, false, s, Complete);
    t := Step(file, false, s1, TestAfterComplete);
    assert Reaches(file, false, t, [], t);
    assert Reaches(file, false, s1, [TestAfterComplete], t);
    assert ACKNOWLEDGE[1..] == [TestAfterComplete];
  }

  lemma WholeFileSent(file: Chunk, s: State)
    requires Inv(file, s) && s.inFlight + s.completed == LastBlock(file) + 1
    ensures s.wire == Blocks(file) && s.endOfFile
  {
    hide BlocksUpTo, Block;
  }

  /** Completing each block before the next is sent leaves one item for every full block. */
  lemma LeaveItems(file: Chunk) returns (actions: seq<Action>, t: State)
    ensures Reaches(file, false, INITIAL, actions, t)
    ensures t.wire == Blocks(file) && t.phase == Idle && t.inFlight == 0 && t.untested == 0
    ensures t.queued == LastBlock(file)
  {
    hide Reaches, Blocks, LastBlock, Inv;
    var before, s := Accumulate(file, LastBlock(file));
    var u := OneRound(file, s);
    WholeFileSent(file, u);
    t := LastAcknowledgement(file, u);
    Chain(file, false, s, ROUND, u, ACKNOWLEDGE, t);
    actions := before + (ROUND + ACKNOWLEDGE);
    Chain(file, false, INITIAL, before, s, ROUND + ACKNOWLEDGE, t);
  }

  /** A file of one block queues no second item. */
  predicate OneBlockInv(s: State) {
    if s.endOfFile then s.queued == 0
    else s.inFlight == 0 && s.untested == 0
         && ((s.phase == Idle && s.queued == 1) || (s.phase == Entered && s.queued == 0))
  }

  lemma {:induction false} OneBlockRun(file: Chunk, s: State, actions: seq<Action>, t: State)
    requires |file| < FILE_IO_SIZE && OneBlockInv(s) && Reaches(file, false, s, actions, t)
    ensures OneBlockInv(t)
    decreases |actions|
  {
    if actions != [] {
      OneBlockStep(file, s, actions[0]);
      hide Step, OneBlockInv, Enabled;
      OneBlockRun(file, Step(file, false, s, actions[0]), actions[1..], t);
    }
  }

  lemma OneBlockStep(file: Chunk, s: State, a: Action)
    requires |file| < FILE_IO_SIZE && OneBlockInv(s) && s.position <= |file| && Enabled(s, a)
    ensures OneBlockInv(Step(file, false, s, a))
  {
  }

  /** Some interleaving leaves items over exactly for files of at least one full block. */
  lemma ItemsLeftOverExactly(file: Chunk)
    ensures (exists actions, t :: Reaches(file, false, INITIAL, actions, t) && ItemsLeftOver(file, t)) <==>
              |file| >= FILE_IO_SIZE
  {
    if |file| >= FILE_IO_SIZE {
      var actions, t := LeaveItems(file);
      assert Reaches(file, false, INITIAL, actions, t) && ItemsLeftOver(file, t);
    } else {
      forall actions, t | Reaches(file, false, INITIAL, actions, t) ensures !ItemsLeftOver(file, t) {
        OneBlockRun(file, INITIAL, actions, t);
        hide Reaches;
        Reached(file, false, actions, t);
      }
    }
  }

  ghost predicate WindowHolds(file: Chunk, recheck: bool) {
    forall actions, t :: Reaches(file, recheck, INITIAL, actions, t) ==> t.inFlight <= MAX_OUTSTANDING_SENDS
  }

  /** As written, the window of four is respected in every interleaving exactly by files
      of fewer than five full blocks. */
  lemma WindowHoldsExactly(file: Chunk)
    ensures WindowHolds(file, false) <==> |file| < 5 * FILE_IO_SIZE
  {
    hide Reaches;
    if |file| < 5 * FILE_IO_SIZE {
      forall actions, t | Reaches(file, false, INITIAL, actions, t) ensures t.inFlight <= MAX_OUTSTANDING_SENDS {
        InFlightAtMost(file, actions, t);
      }
    } else {
      var actions, t := InFlightAttained(file, 1);
    }
  }

  predicate RecheckedInv(s: State) {
    s.inFlight <= MAX_OUTSTANDING_SENDS - if s.phase.HasBlock? then 1 else 0
  }

  lemma {:induction false} RunKeepsRechecked(file: Chunk, s: State, actions: seq<Action>, t: State)
    requires Inv(file, s) && RecheckedInv(s) && Reaches(file, true, s, actions, t)
    ensures RecheckedInv(t)
    decreases |actions|
  {
    if actions != [] {
      StepKeepsContent(file, true, s, actions[0]);
      StepKeepsCounter(file, true, s, actions[0]);
      StepKeepsArmed(file, true, s, actions[0]);
      RunKeepsRechecked(file, Step(file, true, s, actions[0]), actions[1..], t);
    }
  }

  /** A worker that tests the window before it reads respects it for every file. */
  lemma RecheckedWindowHolds(file: Chunk)
    ensures WindowHolds(file, true)
  {
    hide Reaches, Inv;
    InitialInv(file);
    forall actions, t | Reaches(file, true, INITIAL, actions, t) ensures t.inFlight <= MAX_OUTSTANDING_SENDS {
      RunKeepsRechecked(file, INITIAL, actions, t);
    }
  }
}
