/** The server's per-stream context (server.h) and the code that updates it: the stream
    callback and the worker. Each, run without interruption, takes exactly the steps that
    ReceivePipeline lets interleave. */
module ServerStream {
  import opened Bytes
  import opened ReceivePipeline
  import opened Wrappers

  /** Lines 51 to 105: read the flag, finalise or not, release the reference. */
  function RestOfRun(c: Context, s: State, k: nat, r: Results): State {
    var tested := OnTestFinal(false, s, k);
    OnDeref(if s.finalReceive then OnFinalise(c, OnClose(tested, k), k, r) else tested, k)
  }

  /** FileIoWorker from its entry to its return, for the given outcomes. */
  function WorkerRun(c: Context, s: State, k: nat, openOk: bool, part: nat, writeOk: bool, now: int, r: Results): State {
    var ready := OnOpen(s, k, openOk);
    if !s.isOpen && !openOk then ready
    else
      var written := OnWrite(ready, k, part, writeOk, now);
      if !writeOk then OnDeref(written, k)
      else RestOfRun(c, OnComplete(OnAccount(written, k), k), k, r)
  }

  function FinalActions(s: State, k: nat, r: Results): seq<Action> {
    (if s.finalReceive then [Close(k), Finalise(k, r)] else []) + [Deref(k)]
  }

  /** The steps of a worker up to each of its exits. */
  function WorkerActions(s: State, k: nat, openOk: bool, part: nat, writeOk: bool, now: int, r: Results): seq<Action> {
    if !s.isOpen && !openOk then [Open(k, false)]
    else if !writeOk then [Open(k, openOk), Write(k, part, false, now), Deref(k)]
    else
      [Open(k, openOk), Write(k, part, true, now), Account(k), ReceiveComplete(k), TestFinal(k)]
      + FinalActions(s, k, r)
  }

  lemma NoStep(c: Context, s: State)
    ensures Reaches(c, false, s, [], s)
  {
  }

  lemma ThenStep(c: Context, s: State, a: Action, rest: seq<Action>, t: State)
    requires Enabled(s, a) && Reaches(c, false, Step(c, false, s, a), rest, t)
    ensures Reaches(c, false, s, [a] + rest, t)
  {
    hide Step, Enabled;
    assert ([a] + rest)[1..] == rest;
  }

  lemma ClosingIsARun(c: Context, s: State, k: nat, r: Results)
    requires At(s, k, Closing)
    ensures Reaches(c, false, s, [Close(k), Finalise(k, r)] + [Deref(k)], OnDeref(OnFinalise(c, OnClose(s, k), k, r), k))
  {
    var closed, final := OnClose(s, k), OnFinalise(c, OnClose(s, k), k, r);
    var t := OnDeref(final, k);
    assert At(closed, k, Finalising) && At(final, k, Dropping);
    NoStep(c, t);
    hide OnFinalise, OnClose, OnDeref, Reaches;
    ThenStep(c, final, Deref(k), [], t);
    ThenStep(c, closed, Finalise(k, r), [Deref(k)] + [], t);
    ThenStep(c, s, Close(k), [Finalise(k, r)] + ([Deref(k)] + []), t);
    assert [Close(k)] + ([Finalise(k, r)] + ([Deref(k)] + [])) == [Close(k), Finalise(k, r)] + [Deref(k)];
  }

  /** From the flag on. */
  lemma RestIsARun(c: Context, s: State, k: nat, r: Results)
    requires At(s, k, Completed)
    ensures Reaches(c, false, s, [TestFinal(k)] + FinalActions(s, k, r), RestOfRun(c, s, k, r))
  {
    var t, tested := RestOfRun(c, s, k, r), OnTestFinal(false, s, k);
    if s.finalReceive {
      assert At(tested, k, Closing);
      ClosingIsARun(c, tested, k, r);
      hide OnFinalise, OnClose, OnDeref, Reaches;
    } else {
      assert At(tested, k, Dropping);
      NoStep(c, t);
      hide OnFinalise, OnClose, OnDeref, Reaches;
      ThenStep(c, tested, Deref(k), [], t);
      assert [Deref(k)] + [] == FinalActions(s, k, r);
    }
    hide OnTestFinal;
    ThenStep(c, s, TestFinal(k), FinalActions(s, k, r), t);
  }

  /** From a complete write on. */
  lemma WrittenIsARun(c: Context, s: State, k: nat, r: Results)
    requires At(s, k, Written)
    ensures Reaches(c, false, s, [Account(k)] + ([ReceiveComplete(k)] + ([TestFinal(k)] + FinalActions(s, k, r))),
                    RestOfRun(c, OnComplete(OnAccount(s, k), k), k, r))
  {
    var counted, completed := OnAccount(s, k), OnComplete(OnAccount(s, k), k);
    var t, rest := RestOfRun(c, completed, k, r), [TestFinal(k)] + FinalActions(s, k, r);
    assert At(counted, k, Accounted) && At(completed, k, Completed) && completed.finalReceive == s.finalReceive;
    assert FinalActions(completed, k, r) == FinalActions(s, k, r);
    RestIsARun(c, completed, k, r);
    hide RestOfRun, OnAccount, OnComplete, Reaches, FinalActions;
    ThenStep(c, counted, ReceiveComplete(k), rest, t);
    ThenStep(c, s, Account(k), [ReceiveComplete(k)] + rest, t);
  }

  /** An uninterrupted worker, through each of its exits, is a run of the pipeline. */
  lemma WorkerIsARun(c: Context, s: State, k: nat, openOk: bool, part: nat, writeOk: bool, now: int, r: Results)
    requires At(s, k, Queued)
    ensures Reaches(c, false, s, WorkerActions(s, k, openOk, part, writeOk, now, r), WorkerRun(c, s, k, openOk, part, writeOk, now, r))
  {
    var t, ready := WorkerRun(c, s, k, openOk, part, writeOk, now, r), OnOpen(s, k, openOk);
    if !s.isOpen && !openOk {
      NoStep(c, t);
      hide OnOpen, Reaches, OnWrite, RestOfRun;
      ThenStep(c, s, Open(k, false), [], t);
      assert [Open(k, false)] + [] == [Open(k, false)];
    } else {
      assert At(ready, k, Opened) && ready.isOpen && FinalActions(ready, k, r) == FinalActions(s, k, r);
      hide OnOpen, Reaches, OnWrite, OnAccount, OnComplete, RestOfRun, OnDeref, FinalActions;
      WriteIsARun(c, ready, k, part, writeOk, now, r);
      ThenStep(c, s, Open(k, openOk), WriteActions(ready, k, part, writeOk, now, r), t);
      OpenAndWrite(s, ready, k, openOk, part, writeOk, now, r);
    }
  }

  lemma OpenAndWrite(s: State, ready: State, k: nat, openOk: bool, part: nat, writeOk: bool, now: int, r: Results)
    requires (s.isOpen || openOk) && FinalActions(ready, k, r) == FinalActions(s, k, r)
    ensures [Open(k, openOk)] + WriteActions(ready, k, part, writeOk, now, r) == WorkerActions(s, k, openOk, part, writeOk, now, r)
  {
    hide FinalActions;
  }

  function WriteActions(s: State, k: nat, part: nat, ok: bool, now: int, r: Results): seq<Action> {
    if !ok then [Write(k, part, false, now)] + [Deref(k)]
    else [Write(k, part, true, now)] + ([Account(k)] + ([ReceiveComplete(k)] + ([TestFinal(k)] + FinalActions(s, k, r))))
  }

  lemma WriteIsARun(c: Context, s: State, k: nat, part: nat, ok: bool, now: int, r: Results)
    requires At(s, k, Opened) && s.isOpen
    ensures var written := OnWrite(s, k, part, ok, now);
            Reaches(c, false, s, WriteActions(s, k, part, ok, now, r),
                    if ok then RestOfRun(c, OnComplete(OnAccount(written, k), k), k, r) else OnDeref(written, k))
  {
    var written := OnWrite(s, k, part, ok, now);
    if ok {
      assert At(written, k, Written) && FinalActions(written, k, r) == FinalActions(s, k, r);
      hide OnWrite, RestOfRun, FinalActions, Reaches;
      WrittenIsARun(c, written, k, r);
      ThenStep(c, s, Write(k, part, true, now), [Account(k)] + ([ReceiveComplete(k)] + ([TestFinal(k)] + FinalActions(s, k, r))),
               RestOfRun(c, OnComplete(OnAccount(written, k), k), k, r));
    } else {
      assert At(written, k, Dropping);
      NoStep(c, OnDeref(written, k));
      hide OnWrite, OnDeref, Reaches;
      ThenStep(c, written, Deref(k), [], OnDeref(written, k));
      assert [Deref(k)] + [] == [Deref(k)];
      ThenStep(c, s, Write(k, part, false, now), [Deref(k)], OnDeref(written, k));
    }
  }

  class DataStreamContext {
    const context: Context
    var buffers: Chunk
    var finalReceive: bool
    var bytesWritten: nat
    var isOpen: bool
    var refCount: nat
    var freed: bool
    var temp: Option<Chunk>
    var destination: Option<File>
    /** The state of the pipeline this context belongs to. */
    ghost var state: State

    ghost predicate Valid()
      reads this
    {
      && state.buffers == buffers && state.finalReceive == finalReceive && state.bytesWritten == bytesWritten
      && state.isOpen == isOpen && state.refCount == refCount && state.freed == freed
      && state.temp == temp && state.destination == destination
      && (isOpen ==> temp.Some?) && !state.renamed
    }

    /** The context as QSyncServerWorkerCallback leaves it when it starts the stream. */
    constructor (context: Context, destination: Option<File>)
      ensures Valid() && state == Initial(destination) && this.context == context
    {
      this.context := context;
      buffers, finalReceive, bytesWritten, isOpen := [], false, 0, false;
      refCount, freed, temp := 1, false, None;
      this.destination := destination;
      state := Initial(destination);
    }

    method Receive(data: Chunk, fin: bool)
      requires Valid() && Enabled(state, ReceivePipeline.Receive(data, fin))
      modifies this
      ensures Valid() && state == OnReceive(old(state), data, fin)
    {
      finalReceive := fin;
      buffers := data;
      refCount := refCount + 1;
      state := OnReceive(state, data, fin);
    }

    method ShutdownComplete()
      requires Valid() && state.streamUp && refCount > 0
      modifies this
      ensures Valid() && state == OnShutdown(old(state))
    {
      Deref();
      state := OnShutdown(state);
    }

    method Deref()
      requires refCount > 0
      modifies `refCount, `freed
      ensures refCount == old(refCount) - 1 && freed == (old(refCount) <= 1)
    {
      refCount := refCount - 1;
      freed := refCount == 0;
    }

    /** Lines 52 to 100. */
    method FinaliseFile(k: nat, r: Results)
      requires Valid() && At(state, k, Closing)
      modifies this
      ensures Valid() && state == OnFinalise(context, OnClose(old(state), k), k, r) && refCount == old(refCount)
    {
      state := OnFinalise(context, OnClose(state, k), k, r);
      isOpen := false;
      var stillExists := !r.existsFails && destination.Some?;
      if context.snapshot.Some? && stillExists {
        if r.sizeFails || |destination.value.bytes| != context.snapshot.value.size
           || r.timeFails || destination.value.time != context.snapshot.value.time {
          temp := None;
          return;
        }
      }
      if bytesWritten != context.newFileSize {
        return;
      }
      if r.renameFails || temp.None? {
        temp := None;
        return;
      }
      destination := Some(File(temp.value, if r.setTimeFails then r.now else context.fileTime));
      temp := None;
    }

    /** Lines 31 to 38. */
    method OpenFile(k: nat, ok: bool) returns (ready: bool)
      requires Valid() && At(state, k, Queued)
      modifies this
      ensures Valid() && state == OnOpen(old(state), k, ok)
      ensures ready == (old(isOpen) || ok) && refCount == old(refCount)
      ensures ready ==> isOpen && temp.Some? && At(state, k, Opened)
      ensures !ready ==> k !in state.workers
    {
      state := OnOpen(state, k, ok);
      if !isOpen {
        if !ok {
          return false;
        }
        isOpen, temp := true, Some([]);
      }
      ready := true;
    }

    /** Lines 39 to 50. */
    method WriteBuffers(k: nat, part: nat, ok: bool, now: int)
      requires Valid() && At(state, k, Opened) && isOpen && temp.Some?
      modifies this
      ensures Valid() && refCount == old(refCount)
      ensures var written := OnWrite(old(state), k, part, ok, now);
              state == (if ok then OnComplete(OnAccount(written, k), k) else written)
              && (ok ==> At(state, k, Completed))
    {
      state := OnWrite(state, k, part, ok, now);
      if !ok {
        temp := Some(temp.value + buffers[..if part < |buffers| then part else |buffers|]);
        return;
      }
      temp := Some(temp.value + buffers);
      bytesWritten := bytesWritten + |buffers|;
      state := OnComplete(OnAccount(state, k), k);
    }

    /** Lines 51 to 105. */
    method Finish(k: nat, r: Results)
      requires Valid() && At(state, k, Completed) && refCount > 0
      modifies this
      ensures Valid() && state == RestOfRun(context, old(state), k, r)
    {
      state := OnTestFinal(false, state, k);
      if finalReceive {
        FinaliseFile(k, r);
      }
      Deref();
      state := OnDeref(state, k);
    }

    /** The worker that receive `k` queued. */
    method FileIoWorker(k: nat, openOk: bool, part: nat, writeOk: bool, now: int, r: Results)
      requires Valid() && At(state, k, Queued) && refCount > 0
      modifies this
      ensures Valid() && state == WorkerRun(context, old(state), k, openOk, part, writeOk, now, r)
    {
      hide OnOpen, OnWrite, OnAccount, OnComplete, RestOfRun;
      var ready := OpenFile(k, openOk);
      if !ready {
        return;
      }
      WriteBuffers(k, part, writeOk, now);
      if !writeOk {
        Deref();
        state := OnDeref(state, k);
        return;
      }
      Finish(k, r);
    }
  }
}
