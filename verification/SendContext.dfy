/** The client's per-stream context (client.h) and the two pieces of code that update
    it: the pool's worker and the completion callback. Each, run without interruption,
    takes exactly the steps that SendPipeline lets interleave. */
module SendContext {
  import opened Bytes
  import opened SendPipeline

  /** FileIoWorker from its entry to its return. */
  function WorkerRun(file: Chunk, s: State): State
    requires s.phase == Entered && s.position <= |file|
  {
    var read := Step(file, false, s, ReadBlock);
    if read.phase == Idle then read
    else
      var counted := Step(file, false, Step(file, false, read, Send), Increment);
      Step(file, false, counted, TestAfterSend)
  }

  /** The SEND_COMPLETE event. */
  function CompletionRun(file: Chunk, s: State): State
    requires s.inFlight > 0 && s.position <= |file|
  {
    Step(file, false, Step(file, false, s, Complete), TestAfterComplete)
  }

  /** The steps of a worker that takes a block, and of one that finds the file at its end. */
  function WorkerActions(s: State): seq<Action> {
    if s.endOfFile then [ReadBlock] else [ReadBlock, Send, Increment, TestAfterSend]
  }

  lemma OneStep(file: Chunk, s: State, a: Action)
    requires Enabled(s, a) && s.position <= |file|
    ensures Reaches(file, false, s, [a], Step(file, false, s, a))
  {
    assert [a][1..] == [];
    assert Reaches(file, false, Step(file, false, s, a), [], Step(file, false, s, a));
  }

  lemma ThenStep(file: Chunk, s: State, a: Action, rest: seq<Action>, t: State)
    requires Enabled(s, a) && s.position <= |file| && Reaches(file, false, Step(file, false, s, a), rest, t)
    ensures Reaches(file, false, s, [a] + rest, t)
  {
    assert ([a] + rest)[1..] == rest;
  }

  /** An uninterrupted worker is a run of the pipeline: read, send, count and test the
      window, or nothing at all at the end of the file. */
  lemma WorkerIsARun(file: Chunk, s: State)
    requires s.phase == Entered && s.position <= |file|
    ensures Reaches(file, false, s, WorkerActions(s), WorkerRun(file, s)) && WorkerRun(file, s).phase == Idle
  {
    var read := Step(file, false, s, ReadBlock);
    if s.endOfFile {
      OneStep(file, s, ReadBlock);
    } else {
      var sent := Step(file, false, read, Send);
      var counted := Step(file, false, sent, Increment);
      OneStep(file, counted, TestAfterSend);
      hide Step;
      ThenStep(file, sent, Increment, [TestAfterSend], WorkerRun(file, s));
      ThenStep(file, read, Send, [Increment] + [TestAfterSend], WorkerRun(file, s));
      ThenStep(file, s, ReadBlock, [Send] + ([Increment] + [TestAfterSend]), WorkerRun(file, s));
      assert [ReadBlock] + ([Send] + ([Increment] + [TestAfterSend])) == WorkerActions(s);
    }
  }

  /** An uninterrupted completion: uncount the send and test the window. */
  lemma CompletionIsARun(file: Chunk, s: State)
    requires s.inFlight > 0 && s.position <= |file|
    ensures Reaches(file, false, s, [Complete, TestAfterComplete], CompletionRun(file, s))
    ensures CompletionRun(file, s).untested == s.untested
  {
    var done := Step(file, false, s, Complete);
    OneStep(file, done, TestAfterComplete);
    ThenStep(file, s, Complete, [TestAfterComplete], CompletionRun(file, s));
    assert [Complete] + [TestAfterComplete] == [Complete, TestAfterComplete];
  }

  class DataStreamContext {
    const file: Chunk
    var fileReadPosition: nat
    var endOfFile: bool
    var outstandingSends: nat
    /** Work items of this context in the client's pool. */
    var queued: nat
    /** The sends handed to the stream, whether each carried FIN, and QUIC's progress. */
    var sends: seq<Chunk>
    var fins: seq<bool>
    var inFlight: nat
    var completed: nat

    ghost function Snapshot(phase: Phase): State
      reads this
    {
      State(queued, phase, fileReadPosition, endOfFile, sends, fins, outstandingSends, inFlight, 0, completed)
    }

    /** The file has been opened and the first work item is queued. */
    constructor (file: Chunk)
      ensures this.file == file && Snapshot(Idle) == INITIAL
    {
      this.file := file;
      fileReadPosition, endOfFile, outstandingSends := 0, false, 0;
      queued, sends, fins, inFlight, completed := 1, [], [], 0, 0;
    }

    method FileIoWorker()
      requires fileReadPosition <= |file|
      modifies this
      ensures fileReadPosition <= |file|
      ensures Snapshot(Idle) == WorkerRun(file, old(Snapshot(Entered)))
    {
      if endOfFile {
        return;
      }
      var bytesRead := Min(FILE_IO_SIZE, |file| - fileReadPosition);
      var buffer := file[fileReadPosition..fileReadPosition + bytesRead];
      fileReadPosition := fileReadPosition + bytesRead;
      if bytesRead < FILE_IO_SIZE {
        endOfFile := true;
      }
      sends, fins := sends + [buffer], fins + [endOfFile];
      inFlight := inFlight + 1;
      outstandingSends := (outstandingSends + 1) % COUNTER_RANGE;
      if !endOfFile && outstandingSends < MAX_OUTSTANDING_SENDS {
        queued := queued + 1;
      }
    }

    method SendComplete()
      requires inFlight > 0 && fileReadPosition <= |file|
      modifies this
      ensures Snapshot(Idle) == CompletionRun(file, old(Snapshot(Idle)))
    {
      inFlight, completed := inFlight - 1, completed + 1;
      outstandingSends := (outstandingSends + COUNTER_RANGE - 1) % COUNTER_RANGE;
      if !endOfFile && outstandingSends < MAX_OUTSTANDING_SENDS {
        queued := queued + 1;
      }
    }
  }
}
