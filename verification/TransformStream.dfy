/**
  TransformStream and TransformStreamDefaultController as the source has them: reserved slots that the
  algorithms overwrite step by step. Each method is proved to take the state where the function of the
  same name in `TransformStreamState` takes it, and `Run` to take it where a run of steps does, so that
  everything proved of runs holds of this object.

  `CallPullIfNeeded`, `ReadableStreamEnqueue`, `SettleAbort`, `AdvanceQueueIfNeeded` and the methods
  named after steps are the engine's operations, which call back into the source.
*/
module TransformStreamObject {
  import opened TransformStreamState
  import opened TransformStreamSteps
  import opened TransformStreamTheorems

  class TransformStream {
    const transformer: Transformer
    var backpressure: bool
    var changePromise: PromiseId
    var cleared: bool
    var readable: ReadableStream
    var writable: WritableStream

    // The engine's promises: the one the start callback returned, and the resolutions of the others.
    var start: StartPromise
    var resolutions: multiset<PromiseId>

    ghost var written: seq<Chunk>
    ghost var enqueued: seq<Chunk>
    ghost var delivered: seq<Chunk>
    ghost var calls: seq<Call>
    ghost var faults: set<Fault>

    ghost function View(): State
      reads this
    {
      State(transformer, start, backpressure, changePromise, resolutions, cleared, readable, writable,
            written, enqueued, delivered, calls, faults)
    }

    /** Initialize: both ends are created, then backpressure is set with no promise in the slot. */
    constructor (transformer: Transformer, highWaterMark: HighWaterMark)
      ensures View() == Initialize(transformer, highWaterMark)
    {
      this.transformer := transformer;
      writable := WritableStream(Writable, false, [], false, Idle, NoAbort);
      readable := ReadableStream(Readable, false, false, false, 0, false, false, [], 0, highWaterMark);
      backpressure := false;
      changePromise := 0;
      cleared := false;
      start, resolutions := Pending, multiset{};
      written, enqueued, delivered, calls, faults := [], [], [], [], {};
      new;
      SetBackpressure(true);
    }

    ghost method Check(holds: bool, fault: Fault)
      modifies this`faults
      ensures View() == AddFault(old(View()), !holds, fault)
    {
      if !holds { faults := faults + {fault}; }
    }

    method SetBackpressure(newBackpressure: bool)
      modifies this
      ensures View() == TransformStreamState.SetBackpressure(old(View()), newBackpressure)
    {
      Check(backpressure != newBackpressure, SameBackpressure);
      if changePromise != 0 {
        resolutions := resolutions + multiset{changePromise};
      }
      changePromise := changePromise + 1;
      backpressure := newBackpressure;
    }

    method ClearAlgorithms()
      modifies this`cleared
      ensures View() == old(View()).(cleared := true)
    {
      cleared := true;
    }

    method ErrorWritableAndUnblockWrite()
      modifies this
      ensures View() == TransformStreamState.ErrorWritableAndUnblockWrite(old(View()))
    {
      ClearAlgorithms();
      if writable.state.Writable? {
        writable := StartErroring(writable);
      }
      if backpressure {
        SetBackpressure(false);
      }
    }

    method Error()
      modifies this
      ensures View() == TransformStreamState.Error(old(View()))
    {
      readable := ReadableError(readable);
      ErrorWritableAndUnblockWrite();
    }

    method DefaultSourcePullAlgorithm() returns (pullPromise: PromiseId)
      modifies this
      ensures View() == DefaultSourcePull(old(View())) && pullPromise == changePromise
    {
      Check(backpressure, PullWithoutBackpressure);
      Check(changePromise != 0, NoChangePromise);
      SetBackpressure(false);
      pullPromise := changePromise;
    }

    method DefaultSourceCancelAlgorithm()
      modifies this
      ensures View() == TransformStreamState.ErrorWritableAndUnblockWrite(old(View()))
    {
      ErrorWritableAndUnblockWrite();
    }

    method DefaultSinkAbortAlgorithm()
      modifies this
      ensures View() == TransformStreamState.Error(old(View()))
    {
      Error();
    }

    method CallPullIfNeeded()
      modifies this
      ensures View() == TransformStreamState.CallPullIfNeeded(old(View()))
    {
      if !ShouldCallPull(readable) { return; }
      if readable.pulling {
        readable := readable.(pullAgain := true);
        return;
      }
      var pullPromise := DefaultSourcePullAlgorithm();
      readable := readable.(pulling := true, pullPromise := pullPromise);
    }

    method ReadableStreamEnqueue(chunk: Chunk) returns (ok: bool)
      modifies this
      ensures (View(), ok) == ReadableEnqueue(old(View()), chunk)
    {
      if readable.readRequests > 0 {
        readable := readable.(readRequests := readable.readRequests - 1);
        delivered := delivered + [chunk];
      } else {
        if chunk.readableSize.Throws? || chunk.readableSize.value < 0.0 {
          readable := ReadableError(readable);
          return false;
        }
        readable := readable.(queue := readable.queue + [chunk]);
      }
      enqueued := enqueued + [chunk];
      CallPullIfNeeded();
      ok := true;
    }

    method Enqueue(chunk: Chunk) returns (ok: bool)
      modifies this
      ensures (View(), ok) == TransformStreamState.Enqueue(old(View()), chunk)
    {
      if !CanCloseOrEnqueue(readable) { return false; }
      ok := ReadableStreamEnqueue(chunk);
      if !ok {
        ErrorWritableAndUnblockWrite();
        return false;
      }
      var newBackpressure := !ShouldCallPull(readable);
      if newBackpressure != backpressure {
        Check(newBackpressure, EnqueueClearsBackpressure);
        SetBackpressure(true);
      }
    }

    method Terminate()
      modifies this
      ensures View() == TransformStreamState.Terminate(old(View()))
    {
      if CanCloseOrEnqueue(readable) {
        readable := ReadableControllerClose(readable);
      }
      ErrorWritableAndUnblockWrite();
    }

    method PerformTransform(chunk: Chunk)
      modifies this
      ensures View() == TransformStreamState.PerformTransform(old(View()), chunk)
    {
      Check(!cleared, NullTransform);
      calls := calls + [TransformCall(chunk)];
      writable := writable.(inFlight := Write(Transforming));
      if transformer.NoTransformer? || !transformer.transform {
        var ok := Enqueue(chunk);
        writable := writable.(inFlight := Write(if ok then WriteSettled(true) else TransformRejected));
      }
    }

    method TransformPromiseCatchHandler()
      modifies this
      ensures View() == TransformCatch(old(View()))
    {
      Error();
      writable := writable.(inFlight := Write(WriteSettled(false)));
    }

    method DefaultSinkWriteAlgorithm(chunk: Chunk)
      modifies this
      ensures View() == DefaultSinkWrite(old(View()), chunk)
    {
      Check(writable.state.Writable?, WriteNotWritable);
      if backpressure {
        Check(changePromise != 0, NoChangePromise);
        writable := writable.(inFlight := Write(Deferred(changePromise)));
        return;
      }
      PerformTransform(chunk);
    }

    method DefaultSinkWriteThenHandler(chunk: Chunk)
      modifies this
      ensures View() == DeferredWriteThen(old(View()), chunk)
    {
      if writable.state.Erroring? {
        writable := writable.(inFlight := Write(Refused));
        return;
      }
      Check(writable.state.Writable?, DeferredWriteNotWritable);
      PerformTransform(chunk);
    }

    method DefaultSinkCloseAlgorithm()
      modifies this
      ensures View() == DefaultSinkClose(old(View()))
    {
      Check(!cleared, NullFlush);
      calls := calls + [FlushCall];
      if transformer.Transformer? && transformer.flush {
        writable := writable.(inFlight := Close(Flushing));
      } else {
        ClearAlgorithms();
        writable := writable.(inFlight := Close(FlushSettled(true)));
      }
    }

    method DefaultSinkCloseThenHandler()
      modifies this
      ensures View() == FlushReaction(old(View()), true)
    {
      if readable.state.RErrored? {
        writable := writable.(inFlight := Close(CloseSettled(false)));
        return;
      }
      if CanCloseOrEnqueue(readable) {
        readable := ReadableControllerClose(readable);
      }
      writable := writable.(inFlight := Close(CloseSettled(true)));
    }

    method DefaultSinkCloseCatchHandler()
      modifies this
      ensures View() == FlushReaction(old(View()), false)
    {
      Error();
      writable := writable.(inFlight := Close(CloseSettled(false)));
    }

    // ---------- the writable end's calls into the sink ----------

    method SettleAbort()
      modifies this
      ensures View() == TransformStreamState.SettleAbort(old(View()))
    {
      if writable.state.Errored? && writable.pendingAbort.Abort? {
        var abort := writable.pendingAbort;
        writable := writable.(pendingAbort := NoAbort);
        if !abort.wasAlreadyErroring {
          DefaultSinkAbortAlgorithm();
        }
      }
    }

    method AdvanceQueueIfNeeded()
      modifies this
      ensures View() == TransformStreamState.AdvanceQueueIfNeeded(old(View()))
    {
      if !writable.started || !writable.inFlight.Idle? { return; }
      if writable.state.Erroring? {
        writable := FinishErroring(writable);
        SettleAbort();
      } else if writable.queue != [] {
        writable := writable.(inFlight := Write(Transforming));
        DefaultSinkWriteAlgorithm(writable.queue[0]);
      } else if writable.closeQueued {
        writable := writable.(closeQueued := false, inFlight := Close(Flushing));
        DefaultSinkCloseAlgorithm();
      }
    }

    // ---------- what a program does with the two ends ----------

    method WriteChunk(chunk: Chunk)
      modifies this
      ensures View() == DoWrite(old(View()), chunk)
    {
      hide TransformStreamState.AdvanceQueueIfNeeded;
      if !chunk.writableSizeOk && writable.state.Writable? {
        writable := StartErroring(writable);
      }
      if writable.state.Writable? && !CloseQueuedOrInFlight(writable) {
        writable := writable.(queue := writable.queue + [chunk]);
        written := written + [chunk];
        AdvanceQueueIfNeeded();
      }
    }

    method CloseWritable()
      modifies this
      ensures View() == DoClose(old(View()))
    {
      if writable.state.WClosed? || writable.state.Errored? || CloseQueuedOrInFlight(writable) { return; }
      writable := writable.(closeQueued := true);
      AdvanceQueueIfNeeded();
    }

    method AbortWritable()
      modifies this
      ensures View() == DoAbort(old(View()))
    {
      if writable.pendingAbort.Abort? { return; }
      if writable.state.Writable? {
        writable := StartErroring(writable.(pendingAbort := Abort(false)));
        SettleAbort();
      } else if writable.state.Erroring? {
        writable := writable.(pendingAbort := Abort(true));
      }
    }

    method Read()
      modifies this
      ensures View() == DoRead(old(View()))
    {
      hide TransformStreamState.CallPullIfNeeded;
      if !readable.state.Readable? { return; }
      if readable.queue == [] {
        readable := readable.(readRequests := readable.readRequests + 1);
        CallPullIfNeeded();
      } else {
        delivered := delivered + [readable.queue[0]];
        readable := readable.(queue := readable.queue[1..]);
        if readable.closeRequested && readable.queue == [] {
          readable := readable.(state := RClosed, readRequests := 0);
        } else {
          CallPullIfNeeded();
        }
      }
    }

    method Cancel()
      modifies this
      ensures View() == DoCancel(old(View()))
    {
      if readable.state.Readable? {
        readable := readable.(state := RClosed, readRequests := 0, queue := [], cancelled := true);
        DefaultSourceCancelAlgorithm();
      }
    }

    // ---------- reactions ----------

    method ReadableStart()
      modifies this
      ensures View() == DoReadableStart(old(View()))
    {
      if start.Fulfilled? && !readable.started {
        readable := readable.(started := true);
        CallPullIfNeeded();
      } else if start.Rejected? {
        readable := ReadableError(readable);
      }
    }

    method WritableStart()
      modifies this
      ensures View() == DoWritableStart(old(View()))
    {
      if start.Pending? || writable.started { return; }
      writable := writable.(started := true);
      if start.Fulfilled? {
        AdvanceQueueIfNeeded();
      } else {
        writable := DealWithRejection(writable);
        SettleAbort();
      }
    }

    method PullReaction()
      modifies this
      ensures View() == DoPullReaction(old(View()))
    {
      if !readable.pulling || readable.pullPromise !in resolutions { return; }
      var again := readable.pullAgain;
      readable := readable.(pulling := false, pullAgain := false);
      if again {
        CallPullIfNeeded();
      }
    }

    method DeferredWriteReaction()
      modifies this
      ensures View() == DoDeferredWrite(old(View()))
    {
      if writable.inFlight.Write? && writable.inFlight.write.Deferred? && writable.inFlight.write.promise in resolutions
         && writable.queue != []
      {
        DefaultSinkWriteThenHandler(writable.queue[0]);
      }
    }

    method TransformCatchReaction()
      modifies this
      ensures View() == DoTransformCatch(old(View()))
    {
      if writable.inFlight == Write(TransformRejected) {
        TransformPromiseCatchHandler();
      }
    }

    method WriteReaction()
      modifies this
      ensures View() == DoWriteReaction(old(View()))
    {
      hide TransformStreamState.AdvanceQueueIfNeeded, TransformStreamState.SettleAbort;
      if !writable.inFlight.Write? { return; }
      match writable.inFlight.write
      case WriteSettled(true) =>
        var rest := if writable.queue == [] then [] else writable.queue[1..];
        writable := writable.(inFlight := Idle, queue := rest);
        AdvanceQueueIfNeeded();
      case WriteSettled(false) =>
        writable := DealWithRejection(writable.(inFlight := Idle));
        SettleAbort();
      case Refused =>
        writable := DealWithRejection(writable.(inFlight := Idle));
        SettleAbort();
      case _ =>
    }

    method FlushPromiseReaction()
      modifies this
      ensures View() == DoFlushReaction(old(View()))
    {
      if writable.inFlight.Close? && writable.inFlight.close.FlushSettled? {
        if writable.inFlight.close.flushOk {
          DefaultSinkCloseThenHandler();
        } else {
          DefaultSinkCloseCatchHandler();
        }
      }
    }

    method CloseReaction()
      modifies this
      ensures View() == DoCloseReaction(old(View()))
    {
      if writable.inFlight == Close(CloseSettled(true)) {
        writable := writable.(inFlight := Idle, state := WClosed, pendingAbort := NoAbort);
      } else if writable.inFlight == Close(CloseSettled(false)) {
        writable := DealWithRejection(writable.(inFlight := Idle, pendingAbort := NoAbort));
      }
    }

    // ---------- promises returned by the transformer's callbacks ----------

    method SettleStart(ok: bool)
      modifies this
      ensures View() == DoSettleStart(old(View()), ok)
    {
      if start.Pending? && (ok || transformer.Transformer?) {
        start := if ok then Fulfilled else Rejected;
      }
    }

    method SettleTransform(ok: bool)
      modifies this
      ensures View() == DoSettleTransform(old(View()), ok)
    {
      if writable.inFlight == Write(Transforming) && transformer.Transformer? {
        writable := writable.(inFlight := Write(if ok then WriteSettled(true) else TransformRejected));
      }
    }

    method FlushReturns()
      modifies this
      ensures View() == DoFlushReturns(old(View()))
    {
      if writable.inFlight == Close(Flushing) {
        ClearAlgorithms();
        writable := writable.(inFlight := Close(FlushPending));
      }
    }

    method SettleFlush(ok: bool)
      modifies this
      ensures View() == DoSettleFlush(old(View()), ok)
    {
      if writable.inFlight == Close(FlushPending) {
        writable := writable.(inFlight := Close(FlushSettled(ok)));
      }
    }

    // ---------- runs ----------

    method Step(step: Step)
      modifies this
      ensures View() == Apply(old(View()), step)
    {
      hide DoWrite, DoClose, DoAbort, DoRead, DoCancel, TransformStreamState.Enqueue, TransformStreamState.Error,
           TransformStreamState.Terminate, DoSettleStart, DoReadableStart, DoWritableStart, DoPullReaction, DoDeferredWrite,
           DoSettleTransform, DoTransformCatch, DoWriteReaction, DoFlushReturns, DoSettleFlush, DoFlushReaction, DoCloseReaction;
      match step
      case WriteChunk(chunk) => WriteChunk(chunk);
      case CloseWritable => CloseWritable();
      case AbortWritable => AbortWritable();
      case Read => Read();
      case Cancel => Cancel();
      case ControllerEnqueue(chunk) => if transformer.Transformer? { var _ := Enqueue(chunk); }
      case ControllerError => if transformer.Transformer? { Error(); }
      case ControllerTerminate => if transformer.Transformer? { Terminate(); }
      case SettleStart(ok) => SettleStart(ok);
      case ReadableStartReaction => ReadableStart();
      case WritableStartReaction => WritableStart();
      case PullReaction => PullReaction();
      case DeferredWriteReaction => DeferredWriteReaction();
      case SettleTransform(ok) => SettleTransform(ok);
      case TransformCatchReaction => TransformCatchReaction();
      case WriteReaction => WriteReaction();
      case FlushReturns => FlushReturns();
      case SettleFlush(ok) => SettleFlush(ok);
      case FlushPromiseReaction => FlushPromiseReaction();
      case CloseReaction => CloseReaction();
    }

    method Run(steps: seq<Step>)
      modifies this
      ensures View() == TransformStreamSteps.Run(old(View()), steps)
    {
      hide Apply;
      for i := 0 to |steps|
        invariant View() == TransformStreamSteps.Run(old(View()), steps[..i])
      {
        Step(steps[i]);
        RunStep(old(View()), steps[..i], steps[i]);
        assert steps[..i + 1] == steps[..i] + [steps[i]];
      }
      assert steps[..|steps|] == steps;
    }
  }

  /** A new stream driven through any steps: what is proved of runs is proved of the object. */
  method RunNew(transformer: Transformer, highWaterMark: HighWaterMark, steps: seq<Step>) returns (stream: TransformStream)
    ensures fresh(stream) && stream.View() == TransformStreamSteps.Run(Initialize(transformer, highWaterMark), steps)
    ensures stream.faults <= {EnqueueClearsBackpressure, SameBackpressure}
    ensures transformer.NoTransformer? ==> stream.faults == {} && stream.delivered <= stream.written
    ensures stream.delivered <= stream.enqueued
  {
    hide Initialize, TransformStreamSteps.Run;
    stream := new TransformStream(transformer, highWaterMark);
    stream.Run(steps);
    OnlyEnqueueAssertionFails(transformer, highWaterMark, steps);
    ReadableConservation(transformer, highWaterMark, steps);
    if transformer.NoTransformer? {
      IdentityConservation(highWaterMark, steps);
    }
  }
}
