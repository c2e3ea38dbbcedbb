/**
  The data part of the invariant of a TransformStream: in which order chunks reach the transform
  algorithm, the readable queue and the reader, and the proof that every step keeps it.
*/
module TransformStreamFlow {
  import opened TransformStreamState
  import opened TransformStreamSteps
  import opened TransformStreamControl

  predicate Transformed(w: WritableStream) {
    w.inFlight.Write? && !w.inFlight.write.Deferred? && !w.inFlight.write.Refused?
  }

  /** The number of transform calls in a log of transforms followed by at most one flush. */
  function Transforms(calls: seq<Call>): nat {
    if calls != [] && calls[|calls| - 1].FlushCall? then |calls| - 1 else |calls|
  }

  /** The calls are transforms of the written chunks in order, then at most one flush after all of them. */
  predicate CallsOk(calls: seq<Call>, written: seq<Chunk>) {
    var n := Transforms(calls);
    && n <= |written|
    && (forall i :: 0 <= i < n ==> calls[i] == TransformCall(written[i]))
    && (n < |calls| ==> n == |written|)
  }

  predicate QueueIsSuffix(queue: seq<Chunk>, written: seq<Chunk>) {
    |queue| <= |written| && queue == written[|written| - |queue|..]
  }

  /** The writable queue holds what has not been transformed yet, its head up to the in-flight phase. */
  predicate CallsMatch(w: WritableStream, calls: seq<Call>, written: seq<Chunk>) {
    !w.state.Errored? ==>
      && QueueIsSuffix(w.queue, written)
      && Transforms(calls) == |written| - |w.queue| + (if Transformed(w) then 1 else 0)
      && (Transforms(calls) < |calls| <==> w.inFlight.Close? || w.state.WClosed?)
  }

  /** What has been enqueued is what has been delivered and what is still queued, in order. */
  predicate ReadableFlow(r: ReadableStream, enqueued: seq<Chunk>, delivered: seq<Chunk>) {
    && |delivered| <= |enqueued| && delivered == enqueued[..|delivered|]
    && (r.state.Readable? ==> enqueued == delivered + r.queue)
    && (r.state.RClosed? && !r.cancelled ==> enqueued == delivered)
  }

  predicate FailedWrite(f: InFlight) {
    f == Write(TransformRejected) || f == Write(WriteSettled(false))
  }

  /** Without a transformer every transform enqueues its chunk, unless the enqueue fails. */
  predicate IdentityFlow(w: WritableStream, calls: seq<Call>, written: seq<Chunk>, enqueued: seq<Chunk>) {
    && |enqueued| <= Transforms(calls)
    && |enqueued| <= |written| && enqueued == written[..|enqueued|]
    && w.inFlight != Write(Transforming)
    && (!w.state.Errored? ==> |enqueued| == Transforms(calls) - if FailedWrite(w.inFlight) then 1 else 0)
  }

  predicate Flow(s: State) {
    && CallsOk(s.calls, s.written)
    && CallsMatch(s.w, s.calls, s.written)
    && ReadableFlow(s.r, s.enqueued, s.delivered)
    && (s.transformer.NoTransformer? ==> IdentityFlow(s.w, s.calls, s.written, s.enqueued))
  }

  /** What holds when the transform algorithm is about to be called on the head of the writable queue. */
  predicate BeforeTransform(s: State) {
    && CallsOk(s.calls, s.written)
    && QueueIsSuffix(s.w.queue, s.written) && s.w.queue != [] && !s.w.state.Errored? && !s.w.state.WClosed?
    && Transforms(s.calls) == |s.calls| == |s.written| - |s.w.queue|
    && ReadableFlow(s.r, s.enqueued, s.delivered)
    && (s.transformer.NoTransformer? ==> s.enqueued == s.written[..|s.calls|])
  }

  lemma UnblockFlow(s: State)
    ensures var t := ErrorWritableAndUnblockWrite(s);
            && t.r == s.r && SameLogs(s, t) && t.cleared && t.w.inFlight == s.w.inFlight
            && t.w == if s.w.state.Writable? then StartErroring(s.w) else s.w
  {
  }

  lemma ErrorFlow(s: State)
    requires Flow(s)
    ensures Flow(Error(s))
  {
    hide ErrorWritableAndUnblockWrite;
    UnblockFlow(s.(r := ReadableError(s.r)));
  }

  lemma PullFlow(s: State)
    ensures var t := CallPullIfNeeded(s);
            && t.w == s.w && t.cleared == s.cleared && SameLogs(s, t)
            && t.r == s.r.(pulling := t.r.pulling, pullAgain := t.r.pullAgain, pullPromise := t.r.pullPromise)
  {
    hide ShouldCallPull;
  }

  lemma ReadableEnqueueFlow(s: State, chunk: Chunk)
    requires ReadableFlow(s.r, s.enqueued, s.delivered) && CanCloseOrEnqueue(s.r)
    requires s.r.readRequests > 0 ==> s.r.queue == []
    ensures var (t, ok) := ReadableEnqueue(s, chunk);
            && ReadableFlow(t.r, t.enqueued, t.delivered)
            && t.enqueued == (if ok then s.enqueued + [chunk] else s.enqueued)
            && t.w == s.w && t.written == s.written && t.calls == s.calls && t.transformer == s.transformer
  {
    hide CallPullIfNeeded;
    if s.r.readRequests > 0 {
      var given := s.(r := s.r.(readRequests := s.r.readRequests - 1),
                      enqueued := s.enqueued + [chunk], delivered := s.delivered + [chunk]);
      PullFlow(given);
      assert ReadableFlow(given.r, given.enqueued, given.delivered);
    } else if chunk.readableSize.Size? && chunk.readableSize.value >= 0.0 {
      var queued := s.(r := s.r.(queue := s.r.queue + [chunk]), enqueued := s.enqueued + [chunk]);
      PullFlow(queued);
      assert ReadableFlow(queued.r, queued.enqueued, queued.delivered);
    }
  }

  lemma EnqueueFlow(s: State, chunk: Chunk)
    requires ReadableFlow(s.r, s.enqueued, s.delivered)
    requires s.r.readRequests > 0 ==> s.r.queue == []
    ensures var (t, ok) := Enqueue(s, chunk);
            && ReadableFlow(t.r, t.enqueued, t.delivered)
            && t.enqueued == (if ok then s.enqueued + [chunk] else s.enqueued)
            && t.written == s.written && t.calls == s.calls && t.transformer == s.transformer
            && (t.w == s.w || (!ok && s.w.state.Writable? && t.w == StartErroring(s.w)))
  {
    hide ErrorWritableAndUnblockWrite, ReadableEnqueue, ShouldCallPull, ReadableFlow, StartErroring;
    if CanCloseOrEnqueue(s.r) {
      ReadableEnqueueFlow(s, chunk);
      UnblockFlow(ReadableEnqueue(s, chunk).0);
    }
  }

  /** The logs after a transform call, for each phase the call can leave the write in. */
  lemma TransformLogs(w: WritableStream, calls: seq<Call>, written: seq<Chunk>, chunk: Chunk, identity: bool, enqueued: seq<Chunk>)
    requires CallsOk(calls, written) && QueueIsSuffix(w.queue, written) && w.queue != [] && chunk == w.queue[0]
    requires Transforms(calls) == |calls| == |written| - |w.queue| && !w.state.WClosed?
    requires identity ==> enqueued == written[..|calls|]
    ensures var after := calls + [TransformCall(chunk)];
            && CallsOk(after, written)
            && CallsMatch(w.(inFlight := Write(Transforming)), after, written)
            && CallsMatch(w.(inFlight := Write(WriteSettled(true))), after, written)
            && CallsMatch(w.(inFlight := Write(TransformRejected)), after, written)
            && CallsMatch(w.(inFlight := Write(TransformRejected), state := Erroring), after, written)
            && (identity ==>
                  && IdentityFlow(w.(inFlight := Write(WriteSettled(true))), after, written, enqueued + [chunk])
                  && IdentityFlow(w.(inFlight := Write(TransformRejected)), after, written, enqueued)
                  && IdentityFlow(w.(inFlight := Write(TransformRejected), state := Erroring), after, written, enqueued))
  {
    assert chunk == written[|calls|];
  }

  lemma PerformTransformFlow(s: State, chunk: Chunk)
    requires BeforeTransform(s) && chunk == s.w.queue[0] && s.w.inFlight.Write?
    requires s.r.readRequests > 0 ==> s.r.queue == []
    ensures Flow(PerformTransform(s, chunk))
  {
    hide Enqueue, ReadableFlow, CallsOk, CallsMatch, IdentityFlow, QueueIsSuffix, Transforms;
    TransformLogs(s.w, s.calls, s.written, chunk, s.transformer.NoTransformer?, s.enqueued);
    EnqueueFlow(SetWrite(AddFault(s, s.cleared, NullTransform).(calls := s.calls + [TransformCall(chunk)]), Transforming), chunk);
  }

  lemma SettleAbortFlow(s: State)
    requires Flow(s)
    ensures Flow(SettleAbort(s))
  {
    hide Error;
    if s.w.state.Errored? && s.w.pendingAbort.Abort? { ErrorFlow(s.(w := s.w.(pendingAbort := NoAbort))); }
  }

  lemma CloseLogs(calls: seq<Call>, written: seq<Chunk>)
    requires CallsOk(calls, written) && |calls| == |written|
    ensures CallsOk(calls + [FlushCall], written) && Transforms(calls + [FlushCall]) == |calls|
  {
  }

  lemma SinkWriteFlow(s: State)
    requires Flow(s) && s.w.inFlight.Idle? && s.w.queue != [] && !s.w.state.Errored? && !s.w.state.WClosed?
    requires s.r.readRequests > 0 ==> s.r.queue == []
    ensures Flow(DefaultSinkWrite(SetWrite(s, Transforming), s.w.queue[0]))
  {
    hide PerformTransform, ReadableFlow, CallsOk;
    var marked := AddFault(SetWrite(s, Transforming), !s.w.state.Writable?, WriteNotWritable);
    assert BeforeTransform(marked);
    if !s.backpressure { PerformTransformFlow(marked, s.w.queue[0]); }
  }

  lemma SinkCloseFlow(s: State)
    requires Flow(s) && s.w.inFlight.Idle? && s.w.queue == [] && !s.w.state.Errored? && !s.w.state.WClosed?
    ensures Flow(DefaultSinkClose(SetClose(s.(w := s.w.(closeQueued := false)), Flushing)))
  {
    hide ReadableFlow, CallsOk;
    CloseLogs(s.calls, s.written);
  }

  lemma AdvanceFlow(s: State)
    requires Flow(s)
    requires s.r.readRequests > 0 ==> s.r.queue == []
    requires s.w.state.WClosed? || s.w.state.Errored? ==> s.w.queue == [] && !s.w.closeQueued
    ensures Flow(AdvanceQueueIfNeeded(s))
  {
    if s.w.started && s.w.inFlight.Idle? {
      if s.w.state.Erroring? {
        hide SettleAbort, ReadableFlow, CallsOk;
        SettleAbortFlow(s.(w := FinishErroring(s.w)));
      } else {
        hide DefaultSinkWrite, DefaultSinkClose, Flow;
        if s.w.queue != [] {
          SinkWriteFlow(s);
        } else if s.w.closeQueued {
          SinkCloseFlow(s);
        }
      }
    }
  }

  /** The facts of `Control` that the flow of data depends on. */
  predicate FlowReady(s: State) {
    && (s.r.readRequests > 0 ==> s.r.state.Readable? && s.r.queue == [] && !s.r.closeRequested)
    && (s.w.state.WClosed? || s.w.state.Errored? ==> s.w.queue == [] && !s.w.closeQueued && s.w.inFlight.Idle?)
    && (s.w.inFlight.Write? ==> s.w.queue != [])
    && (s.w.inFlight.Close? ==> s.w.queue == [] && s.w.started)
    && (s.w.inFlight == Write(Refused) || s.w.inFlight == Write(WriteSettled(false)) ==> s.w.state.Erroring?)
    && (s.r.closeRequested && s.r.state.Readable? ==> s.r.queue != [])
  }

  lemma ControlFlowReady(s: State)
    requires Control(s)
    ensures FlowReady(s)
  {
  }

  /** A chunk accepted by the writable end is the last one written and the last one queued. */
  lemma AcceptedLogs(w: WritableStream, calls: seq<Call>, written: seq<Chunk>, chunk: Chunk)
    requires CallsOk(calls, written) && CallsMatch(w, calls, written) && w.state.Writable? && !w.inFlight.Close?
    ensures CallsOk(calls, written + [chunk]) && CallsMatch(w.(queue := w.queue + [chunk]), calls, written + [chunk])
  {
    hide Transforms;
    var more := w.queue + [chunk];
    assert forall i :: 0 <= i < |more| ==> more[i] == (written + [chunk])[|written| - |w.queue| + i];
    assert (written + [chunk])[|written| - |w.queue|..] == more;
    assert forall i :: 0 <= i < |written| ==> (written + [chunk])[i] == written[i];
  }

  lemma AcceptedFlow(s: State, chunk: Chunk)
    requires FlowReady(s) && Flow(s) && s.w.state.Writable? && !s.w.inFlight.Close?
    ensures Flow(s.(w := s.w.(queue := s.w.queue + [chunk]), written := s.written + [chunk]))
  {
    hide ReadableFlow, CallsOk, CallsMatch;
    AcceptedLogs(s.w, s.calls, s.written, chunk);
  }

  lemma WriteFlow(s: State, chunk: Chunk)
    requires FlowReady(s) && Flow(s)
    ensures Flow(DoWrite(s, chunk))
  {
    if s.w.state.Writable? && chunk.writableSizeOk && !CloseQueuedOrInFlight(s.w) {
      AcceptedFlow(s, chunk);
      hide AdvanceQueueIfNeeded, Flow;
      AdvanceFlow(s.(w := s.w.(queue := s.w.queue + [chunk]), written := s.written + [chunk]));
    } else {
      hide AdvanceQueueIfNeeded, ReadableFlow, CallsOk;
    }
  }

  lemma CloseAndAbortFlow(s: State)
    requires FlowReady(s) && Flow(s)
    ensures Flow(DoClose(s)) && Flow(DoAbort(s))
  {
    hide AdvanceQueueIfNeeded, SettleAbort, ReadableFlow, CallsOk;
    if !s.w.state.WClosed? && !s.w.state.Errored? && !CloseQueuedOrInFlight(s.w) {
      AdvanceFlow(s.(w := s.w.(closeQueued := true)));
    }
    if s.w.pendingAbort.NoAbort? && s.w.state.Writable? {
      SettleAbortFlow(s.(w := StartErroring(s.w.(pendingAbort := Abort(false)))));
    }
  }

  lemma TakeFlow(r: ReadableStream, enqueued: seq<Chunk>, delivered: seq<Chunk>)
    requires ReadableFlow(r, enqueued, delivered) && r.state.Readable? && r.queue != []
    ensures ReadableFlow(r.(queue := r.queue[1..]), enqueued, delivered + [r.queue[0]])
    ensures r.queue[1..] == [] ==> enqueued == delivered + [r.queue[0]]
  {
    assert enqueued == delivered + [r.queue[0]] + r.queue[1..];
  }

  /** The flow does not depend on the rest of the readable end; closing a drained one keeps it. */
  lemma SameFlow(r: ReadableStream, enqueued: seq<Chunk>, delivered: seq<Chunk>)
    requires ReadableFlow(r, enqueued, delivered)
    ensures forall q: ReadableStream ::
              q.state == r.state && q.queue == r.queue && q.cancelled == r.cancelled ==> ReadableFlow(q, enqueued, delivered)
    ensures r.queue == [] && r.state.Readable? ==> forall q: ReadableStream ::
              q.state == RClosed ==> ReadableFlow(q, enqueued, delivered)
  {
  }

  lemma ReadFlow(s: State)
    requires FlowReady(s) && Flow(s)
    ensures Flow(DoRead(s))
  {
    hide CallPullIfNeeded, CallsOk, CallsMatch, IdentityFlow, ReadableFlow;
    if s.r.state.Readable? {
      if s.r.queue == [] {
        SameFlow(s.r, s.enqueued, s.delivered);
        PullFlow(s.(r := s.r.(readRequests := s.r.readRequests + 1)));
      } else {
        TakeFlow(s.r, s.enqueued, s.delivered);
        SameFlow(s.r.(queue := s.r.queue[1..]), s.enqueued, s.delivered + [s.r.queue[0]]);
        PullFlow(s.(r := s.r.(queue := s.r.queue[1..]), delivered := s.delivered + [s.r.queue[0]]));
      }
    }
  }

  lemma CancelAndTerminateFlow(s: State)
    requires FlowReady(s) && Flow(s)
    ensures Flow(DoCancel(s)) && Flow(Terminate(s))
  {
    hide ErrorWritableAndUnblockWrite, CallsOk;
    if s.r.state.Readable? {
      UnblockFlow(s.(r := s.r.(state := RClosed, readRequests := 0, queue := [], cancelled := true)));
    }
    UnblockFlow(if CanCloseOrEnqueue(s.r) then s.(r := ReadableControllerClose(s.r)) else s);
  }

  lemma ControllerEnqueueFlow(s: State, chunk: Chunk)
    requires FlowReady(s) && Flow(s) && s.transformer.Transformer?
    ensures Flow(Enqueue(s, chunk).0)
  {
    hide Enqueue, ReadableFlow, CallsOk;
    EnqueueFlow(s, chunk);
  }

  lemma StartFlow(s: State, ok: bool)
    requires FlowReady(s) && Flow(s)
    ensures Flow(DoSettleStart(s, ok)) && Flow(DoReadableStart(s)) && Flow(DoPullReaction(s))
  {
    hide CallPullIfNeeded, CallsOk, CallsMatch, IdentityFlow;
    PullFlow(s.(r := s.r.(started := true)));
    PullFlow(s.(r := s.r.(pulling := false, pullAgain := false)));
  }

  lemma WritableStartFlow(s: State)
    requires FlowReady(s) && Flow(s)
    ensures Flow(DoWritableStart(s))
  {
    hide AdvanceQueueIfNeeded, SettleAbort, ReadableFlow, CallsOk;
    if !s.w.started {
      if s.start.Fulfilled? { AdvanceFlow(s.(w := s.w.(started := true))); }
      if s.start.Rejected? { SettleAbortFlow(s.(w := DealWithRejection(s.w.(started := true)))); }
    }
  }

  lemma DeferredWriteFlow(s: State)
    requires FlowReady(s) && Flow(s)
    ensures Flow(DoDeferredWrite(s))
  {
    hide PerformTransform, ReadableFlow, CallsOk;
    if s.w.inFlight.Write? && s.w.inFlight.write.Deferred? && !s.w.state.Erroring? {
      PerformTransformFlow(AddFault(s, !s.w.state.Writable?, DeferredWriteNotWritable), s.w.queue[0]);
    }
  }

  lemma TransformReactionFlow(s: State, ok: bool)
    requires FlowReady(s) && Flow(s)
    ensures Flow(DoSettleTransform(s, ok)) && Flow(DoTransformCatch(s))
  {
    hide ErrorWritableAndUnblockWrite, CallsOk;
    UnblockFlow(s.(r := ReadableError(s.r)));
  }

  lemma WriteReactionFlow(s: State)
    requires FlowReady(s) && Flow(s)
    ensures Flow(DoWriteReaction(s))
  {
    hide AdvanceQueueIfNeeded, SettleAbort, ReadableFlow, CallsOk;
    if s.w.inFlight == Write(WriteSettled(true)) {
      AdvanceFlow(s.(w := s.w.(inFlight := Idle, queue := s.w.queue[1..])));
    } else if s.w.inFlight == Write(WriteSettled(false)) || s.w.inFlight == Write(Refused) {
      SettleAbortFlow(s.(w := DealWithRejection(s.w.(inFlight := Idle))));
    }
  }

  lemma FlushFlow(s: State, ok: bool)
    requires FlowReady(s) && Flow(s)
    ensures Flow(DoFlushReturns(s)) && Flow(DoSettleFlush(s, ok)) && Flow(DoCloseReaction(s))
  {
    hide ReadableFlow, CallsOk;
  }

  lemma ReadableErrorFlow(r: ReadableStream, enqueued: seq<Chunk>, delivered: seq<Chunk>)
    requires ReadableFlow(r, enqueued, delivered)
    ensures ReadableFlow(ReadableError(r), enqueued, delivered)
  {
  }

  lemma FlushRejectedFlow(s: State)
    requires FlowReady(s) && Flow(s) && s.w.inFlight.Close?
    ensures Flow(SetClose(Error(s), CloseSettled(false)))
  {
    hide ErrorWritableAndUnblockWrite, CallsOk, ReadableFlow;
    ReadableErrorFlow(s.r, s.enqueued, s.delivered);
    UnblockFlow(s.(r := ReadableError(s.r)));
  }

  /** The readable end is closed, or left with its queue, and the flow does not notice. */
  lemma ClosedFlow(r: ReadableStream, enqueued: seq<Chunk>, delivered: seq<Chunk>)
    requires ReadableFlow(r, enqueued, delivered) && CanCloseOrEnqueue(r)
    ensures ReadableFlow(ReadableControllerClose(r), enqueued, delivered)
  {
  }

  /** Moving the in-flight close on touches neither the calls nor what an identity stream enqueued. */
  lemma CloseMoves(w: WritableStream, calls: seq<Call>, written: seq<Chunk>, enqueued: seq<Chunk>, phase: ClosePhase)
    requires w.inFlight.Close?
    ensures CallsMatch(w, calls, written) ==> CallsMatch(w.(inFlight := Close(phase)), calls, written)
    ensures IdentityFlow(w, calls, written, enqueued) ==> IdentityFlow(w.(inFlight := Close(phase)), calls, written, enqueued)
  {
  }

  lemma FlushFulfilledFlow(s: State)
    requires Flow(s) && s.w.inFlight.Close?
    ensures Flow(FlushReaction(s, true))
  {
    hide CallsOk, CallsMatch, IdentityFlow, ReadableFlow, CanCloseOrEnqueue, ReadableControllerClose;
    CloseMoves(s.w, s.calls, s.written, s.enqueued, CloseSettled(false));
    CloseMoves(s.w, s.calls, s.written, s.enqueued, CloseSettled(true));
    if CanCloseOrEnqueue(s.r) { ClosedFlow(s.r, s.enqueued, s.delivered); }
  }

  lemma FlushReactionFlow(s: State)
    requires FlowReady(s) && Flow(s)
    ensures Flow(DoFlushReaction(s))
  {
    hide Error, Flow;
    if s.w.inFlight == Close(FlushSettled(false)) {
      FlushRejectedFlow(s);
    } else if s.w.inFlight == Close(FlushSettled(true)) {
      FlushFulfilledFlow(s);
    }
  }

  lemma StepFlow(s: State, step: Step)
    requires FlowReady(s) && Flow(s)
    ensures Flow(Apply(s, step))
  {
    hide Flow, FlowReady, DoWrite, DoClose, DoAbort, DoRead, DoCancel, Enqueue, Error, Terminate, DoSettleStart,
         DoReadableStart, DoWritableStart, DoPullReaction, DoDeferredWrite, DoSettleTransform, DoTransformCatch,
         DoWriteReaction, DoFlushReturns, DoSettleFlush, DoFlushReaction, DoCloseReaction;
    match step
    case WriteChunk(chunk) => WriteFlow(s, chunk);
    case CloseWritable => CloseAndAbortFlow(s);
    case AbortWritable => CloseAndAbortFlow(s);
    case Read => ReadFlow(s);
    case Cancel => CancelAndTerminateFlow(s);
    case ControllerEnqueue(chunk) => if s.transformer.Transformer? { ControllerEnqueueFlow(s, chunk); }
    case ControllerError => ErrorFlow(s);
    case ControllerTerminate => CancelAndTerminateFlow(s);
    case SettleStart(ok) => StartFlow(s, ok);
    case ReadableStartReaction => StartFlow(s, true);
    case WritableStartReaction => WritableStartFlow(s);
    case PullReaction => StartFlow(s, true);
    case DeferredWriteReaction => DeferredWriteFlow(s);
    case SettleTransform(ok) => TransformReactionFlow(s, ok);
    case TransformCatchReaction => TransformReactionFlow(s, true);
    case WriteReaction => WriteReactionFlow(s);
    case FlushReturns => FlushFlow(s, true);
    case SettleFlush(ok) => FlushFlow(s, ok);
    case FlushPromiseReaction => FlushReactionFlow(s);
    case CloseReaction => FlushFlow(s, true);
  }
}
