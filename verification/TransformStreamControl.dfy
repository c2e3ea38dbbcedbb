/**
  The control part of the invariant of a TransformStream: promises, pulls, backpressure, the phases of
  the writable end and the clearing of the algorithms, and the proof that every step keeps it.
*/
module TransformStreamControl {
  import opened TransformStreamState
  import opened TransformStreamSteps

  /** Every superseded change-promise was resolved exactly once; the current one is pending. */
  ghost predicate Promises(current: PromiseId, resolutions: multiset<PromiseId>) {
    && current >= 1
    && (forall p :: resolutions[p] == if 1 <= p < current then 1 else 0)
  }

  /** The writable end's own consistency, also in the middle of a step. */
  predicate WritableOk(w: WritableStream, start: StartPromise) {
    && (w.inFlight.Write? ==> w.queue != [])
    && (w.inFlight.Close? ==> w.queue == [] && !w.closeQueued)
    && (!w.inFlight.Idle? ==> (w.state.Writable? || w.state.Erroring?) && w.started && start.Fulfilled?)
    && (w.state.Writable? ==> w.pendingAbort.NoAbort?)
    && (w.state.Errored? || w.state.WClosed? ==> w.queue == [] && !w.closeQueued)
    && (w.started ==> !start.Pending?)
    && (w.started && start.Rejected? ==> !w.state.Writable?)
    && (w.inFlight == Write(Refused) || w.inFlight == Write(WriteSettled(false)) ==> w.state.Erroring?)
  }

  /** Between steps nothing that could be started is left lying. */
  predicate WritableQuiet(w: WritableStream) {
    && (w.state.Writable? && w.started && (w.queue != [] || w.closeQueued) ==> !w.inFlight.Idle?)
    && (w.state.Erroring? ==> !w.inFlight.Idle? || !w.started)
    && (w.state.Errored? || w.state.WClosed? ==> w.pendingAbort.NoAbort?)
  }

  /** The algorithms are only cleared when the writable end will never call them again. */
  predicate Algorithms(cleared: bool, w: WritableStream) {
    cleared ==> !w.state.Writable? || (w.inFlight.Close? && w.inFlight.close != Flushing)
  }

  /** While the writable end can still start a write, the readable end is open. */
  predicate ReadableOpen(r: ReadableStream, w: WritableStream, start: StartPromise) {
    CanCloseOrEnqueue(r) || !w.state.Writable? || w.inFlight.Close? || (start.Rejected? && !w.started)
  }

  predicate ReadableOk(r: ReadableStream, start: StartPromise) {
    && (r.started ==> start.Fulfilled?)
    && (r.readRequests > 0 ==> r.state.Readable? && r.queue == [] && !r.closeRequested)
    && (r.closeRequested && r.state.Readable? ==> r.queue != [])
    && (!r.state.Readable? ==> r.queue == [])
  }

  /** A pull is outstanding on the current promise, or there is backpressure. */
  predicate Pulls(r: ReadableStream, backpressure: bool, current: PromiseId) {
    && (r.pulling ==> r.started && 1 <= r.pullPromise <= current)
    && (!r.pulling ==> !r.pullAgain)
    && (CanCloseOrEnqueue(r) ==> (backpressure <==> !r.pulling || r.pullPromise < current))
  }

  /** Between steps demand has been turned into a pull. */
  predicate Demand(r: ReadableStream, backpressure: bool) {
    ShouldCallPull(r) ==> r.pulling && (backpressure ==> r.pullAgain)
  }

  /** A write that is still blocked waits for the current promise, under backpressure, with the readable end open. */
  predicate Deferral(f: InFlight, open: bool, backpressure: bool, current: PromiseId) {
    f.Write? && f.write.Deferred? ==>
      && 1 <= f.write.promise <= current
      && (f.write.promise == current ==> backpressure && open)
  }

  /** Only an Enqueue can break an assertion, and then both of these at once. */
  predicate FaultsOk(faults: set<Fault>) {
    faults == {} || faults == {EnqueueClearsBackpressure, SameBackpressure}
  }

  /** Without a transformer nothing but the write in flight can restore backpressure. */
  predicate Identity(w: WritableStream, start: StartPromise, faults: set<Fault>, backpressure: bool, current: PromiseId) {
    && faults == {}
    && !start.Rejected?
    && (w.state.Writable? && w.inFlight.Write? && w.inFlight.write.Deferred? && backpressure ==>
          w.inFlight.write.promise == current)
  }

  ghost predicate Base(s: State) {
    && Promises(s.changePromise, s.resolutions)
    && WritableOk(s.w, s.start)
    && Algorithms(s.cleared, s.w)
    && ReadableOpen(s.r, s.w, s.start)
    && ReadableOk(s.r, s.start)
    && Pulls(s.r, s.backpressure, s.changePromise)
    && Deferral(s.w.inFlight, CanCloseOrEnqueue(s.r), s.backpressure, s.changePromise)
    && FaultsOk(s.faults)
    && (s.transformer.NoTransformer? ==> Identity(s.w, s.start, s.faults, s.backpressure, s.changePromise))
  }

  ghost predicate Control(s: State) {
    Base(s) && Demand(s.r, s.backpressure) && WritableQuiet(s.w)
  }

  /** What is left of `Control` when the readable end has just been closed or errored. */
  ghost predicate Severed(s: State) {
    && Promises(s.changePromise, s.resolutions)
    && WritableOk(s.w, s.start) && WritableQuiet(s.w)
    && ReadableOk(s.r, s.start)
    && Pulls(s.r, s.backpressure, s.changePromise)
    && !CanCloseOrEnqueue(s.r)
    && Deferral(s.w.inFlight, true, s.backpressure, s.changePromise)
    && FaultsOk(s.faults)
    && (s.transformer.NoTransformer? ==> Identity(s.w, s.start, s.faults, s.backpressure, s.changePromise))
  }

  predicate SameLogs(s: State, t: State) {
    && t.transformer == s.transformer && t.start == s.start
    && t.written == s.written && t.calls == s.calls && t.enqueued == s.enqueued && t.delivered == s.delivered
  }

  lemma UnblockControl(s: State)
    requires Severed(s)
    ensures var t := ErrorWritableAndUnblockWrite(s);
            && Control(t) && t.r == s.r && !t.w.state.Writable? && t.w.inFlight == s.w.inFlight && SameLogs(s, t)
            && t.faults == s.faults && t.cleared
            && t.w == if s.w.state.Writable? then StartErroring(s.w) else s.w
  {
  }

  lemma ErrorControl(s: State)
    requires Control(s)
    ensures var t := Error(s);
            && Control(t) && t.r == ReadableError(s.r) && !t.w.state.Writable? && t.w.inFlight == s.w.inFlight && SameLogs(s, t)
            && t.faults == s.faults && t.cleared
            && t.w == if s.w.state.Writable? then StartErroring(s.w) else s.w
  {
    hide ErrorWritableAndUnblockWrite;
    UnblockControl(s.(r := ReadableError(s.r)));
  }

  lemma PullControl(s: State)
    requires Base(s)
    ensures var t := CallPullIfNeeded(s);
            && Base(t) && Demand(t.r, t.backpressure) && t.w == s.w && SameLogs(s, t) && t.faults == s.faults
            && t.cleared == s.cleared && (s.r.pulling ==> t.backpressure == s.backpressure)
            && t.r == s.r.(pulling := t.r.pulling, pullAgain := t.r.pullAgain, pullPromise := t.r.pullPromise)
  {
  }

  lemma UpdateBackpressureControl(s: State)
    requires Control(s)
    requires s.transformer.NoTransformer? ==>
               s.w.inFlight == Write(Transforming) && (s.backpressure ==> !ShouldCallPull(s.r))
    ensures var t := UpdateBackpressure(s);
            Control(t) && t.w == s.w && t.r == s.r && SameLogs(s, t) && t.cleared == s.cleared
  {
  }

  lemma ReadableEnqueueControl(s: State, chunk: Chunk)
    requires Control(s) && CanCloseOrEnqueue(s.r)
    ensures var (t, ok) := ReadableEnqueue(s, chunk);
            && t.w == s.w && t.cleared == s.cleared && t.transformer == s.transformer
            && (if ok then Control(t) && (!s.backpressure ==> !t.backpressure) else Severed(t))
  {
    hide CallPullIfNeeded;
    if s.r.readRequests > 0 {
      PullControl(s.(r := s.r.(readRequests := s.r.readRequests - 1),
                     enqueued := s.enqueued + [chunk], delivered := s.delivered + [chunk]));
    } else if chunk.readableSize.Size? && chunk.readableSize.value >= 0.0 {
      PullControl(s.(r := s.r.(queue := s.r.queue + [chunk]), enqueued := s.enqueued + [chunk]));
    }
  }

  lemma EnqueueControl(s: State, chunk: Chunk)
    requires Control(s)
    requires s.transformer.NoTransformer? ==> s.w.inFlight == Write(Transforming) && !s.backpressure
    ensures var (t, ok) := Enqueue(s, chunk);
            Control(t) && t.w.inFlight == s.w.inFlight && t.cleared == (s.cleared || (!ok && CanCloseOrEnqueue(s.r)))
  {
    hide ErrorWritableAndUnblockWrite, ReadableEnqueue, UpdateBackpressure;
    if CanCloseOrEnqueue(s.r) {
      ReadableEnqueueControl(s, chunk);
      var (t, ok) := ReadableEnqueue(s, chunk);
      if ok { UpdateBackpressureControl(t); } else { UnblockControl(t); }
    }
  }

  lemma PerformTransformControl(s: State, chunk: Chunk)
    requires Control(s)
    requires s.w.inFlight.Write? && s.w.state.Writable?
    requires s.transformer.NoTransformer? ==> !s.backpressure
    ensures Control(PerformTransform(s, chunk))
  {
    hide Enqueue;
    var called := SetWrite(s.(calls := s.calls + [TransformCall(chunk)]), Transforming);
    EnqueueControl(called, chunk);
  }

  lemma SettleAbortControl(s: State)
    requires Base(s) && Demand(s.r, s.backpressure)
    requires s.w.state.WClosed? ==> s.w.pendingAbort.NoAbort?
    requires !s.w.state.Writable? && (s.w.state.Erroring? ==> !s.w.inFlight.Idle? || !s.w.started)
    ensures Control(SettleAbort(s))
  {
    hide Error;
    if s.w.state.Errored? && s.w.pendingAbort.Abort? {
      ErrorControl(s.(w := s.w.(pendingAbort := NoAbort)));
    }
  }

  lemma AdvanceControl(s: State)
    requires Base(s) && Demand(s.r, s.backpressure)
    requires s.w.state.Errored? || s.w.state.WClosed? ==> s.w.pendingAbort.NoAbort?
    ensures Control(AdvanceQueueIfNeeded(s))
  {
    hide SettleAbort, PerformTransform;
    if s.w.started && s.w.inFlight.Idle? {
      if s.w.state.Erroring? {
        SettleAbortControl(s.(w := FinishErroring(s.w)));
      } else if s.w.queue != [] {
        var marked := SetWrite(s, Transforming);
        assert Control(marked);
        if !s.backpressure { PerformTransformControl(marked, s.w.queue[0]); }
      }
    }
  }

  lemma WriteControl(s: State, chunk: Chunk)
    requires Control(s)
    ensures Control(DoWrite(s, chunk))
  {
    hide AdvanceQueueIfNeeded;
    if s.w.state.Writable? && chunk.writableSizeOk && !CloseQueuedOrInFlight(s.w) {
      AdvanceControl(s.(w := s.w.(queue := s.w.queue + [chunk]), written := s.written + [chunk]));
    }
  }

  lemma CloseAndAbortControl(s: State)
    requires Control(s)
    ensures Control(DoClose(s)) && Control(DoAbort(s))
  {
    hide AdvanceQueueIfNeeded, SettleAbort;
    if !s.w.state.WClosed? && !s.w.state.Errored? && !CloseQueuedOrInFlight(s.w) {
      AdvanceControl(s.(w := s.w.(closeQueued := true)));
    }
    if s.w.pendingAbort.NoAbort? && s.w.state.Writable? {
      SettleAbortControl(s.(w := StartErroring(s.w.(pendingAbort := Abort(false)))));
    }
  }

  lemma ReadControl(s: State)
    requires Control(s)
    ensures Control(DoRead(s))
  {
    hide CallPullIfNeeded;
    if s.r.state.Readable? {
      if s.r.queue == [] {
        PullControl(s.(r := s.r.(readRequests := s.r.readRequests + 1)));
      } else {
        var taken := s.(r := s.r.(queue := s.r.queue[1..]), delivered := s.delivered + [s.r.queue[0]]);
        if !s.r.closeRequested || taken.r.queue != [] { PullControl(taken); }
      }
    }
  }

  lemma CancelAndTerminateControl(s: State)
    requires Control(s)
    ensures Control(DoCancel(s)) && Control(Terminate(s))
  {
    hide ErrorWritableAndUnblockWrite;
    if s.r.state.Readable? {
      UnblockControl(s.(r := s.r.(state := RClosed, readRequests := 0, queue := [], cancelled := true)));
    }
    UnblockControl(if CanCloseOrEnqueue(s.r) then s.(r := ReadableControllerClose(s.r)) else s);
  }

  lemma StartControl(s: State, ok: bool)
    requires Control(s)
    ensures Control(DoSettleStart(s, ok)) && Control(DoReadableStart(s))
  {
    hide CallPullIfNeeded;
    if s.start.Fulfilled? && !s.r.started { PullControl(s.(r := s.r.(started := true))); }
  }

  lemma WritableStartControl(s: State)
    requires Control(s)
    ensures Control(DoWritableStart(s))
  {
    hide AdvanceQueueIfNeeded, SettleAbort;
    if !s.w.started {
      if s.start.Fulfilled? { AdvanceControl(s.(w := s.w.(started := true))); }
      if s.start.Rejected? { SettleAbortControl(s.(w := DealWithRejection(s.w.(started := true)))); }
    }
  }

  lemma PullReactionControl(s: State)
    requires Control(s)
    ensures Control(DoPullReaction(s))
  {
    hide CallPullIfNeeded;
    if s.r.pulling && s.r.pullPromise in s.resolutions && s.r.pullAgain {
      PullControl(s.(r := s.r.(pulling := false, pullAgain := false)));
    }
  }

  lemma TransformReactionControl(s: State, ok: bool)
    requires Control(s)
    ensures Control(DoDeferredWrite(s)) && Control(DoSettleTransform(s, ok)) && Control(DoTransformCatch(s))
  {
    hide PerformTransform, Error;
    if s.w.inFlight.Write? && s.w.inFlight.write.Deferred? && s.w.inFlight.write.promise in s.resolutions
       && s.w.state.Writable? {
      PerformTransformControl(s, s.w.queue[0]);
    }
    ErrorControl(s);
  }

  lemma WriteReactionControl(s: State)
    requires Control(s)
    ensures Control(DoWriteReaction(s))
  {
    hide AdvanceQueueIfNeeded, SettleAbort;
    if s.w.inFlight == Write(WriteSettled(true)) {
      AdvanceControl(s.(w := s.w.(inFlight := Idle, queue := s.w.queue[1..])));
    } else if s.w.inFlight == Write(WriteSettled(false)) || s.w.inFlight == Write(Refused) {
      SettleAbortControl(s.(w := DealWithRejection(s.w.(inFlight := Idle))));
    }
  }

  lemma FlushSettlesControl(s: State, ok: bool)
    requires Control(s)
    ensures Control(DoFlushReturns(s)) && Control(DoSettleFlush(s, ok))
  {
    hide ShouldCallPull;
  }

  lemma CloseReactionControl(s: State)
    requires Control(s)
    ensures Control(DoCloseReaction(s))
  {
    hide ShouldCallPull;
  }

  lemma FlushReactionControl(s: State)
    requires Control(s)
    ensures Control(DoFlushReaction(s))
  {
    hide Error, ShouldCallPull;
    if s.w.inFlight == Close(FlushSettled(false)) {
      ErrorControl(s);
      assert Control(SetClose(Error(s), CloseSettled(false)));
    } else if s.w.inFlight == Close(FlushSettled(true)) {
      var closed := if CanCloseOrEnqueue(s.r) then s.(r := ReadableControllerClose(s.r)) else s;
      assert Demand(closed.r, s.backpressure) by { assert ShouldCallPull(closed.r) ==> CanCloseOrEnqueue(closed.r) by { CallPullNeedsOpen(closed.r); } }
    }
  }

  lemma CallPullNeedsOpen(r: ReadableStream)
    ensures ShouldCallPull(r) ==> CanCloseOrEnqueue(r)
  {
  }

  lemma StepControl(s: State, step: Step)
    requires Control(s)
    ensures Control(Apply(s, step))
  {
    hide Control, DoWrite, DoClose, DoAbort, DoRead, DoCancel, Enqueue, Error, Terminate, DoSettleStart, DoReadableStart,
         DoWritableStart, DoPullReaction, DoDeferredWrite, DoSettleTransform, DoTransformCatch, DoWriteReaction,
         DoFlushReturns, DoSettleFlush, DoFlushReaction, DoCloseReaction;
    match step
    case WriteChunk(chunk) => WriteControl(s, chunk);
    case CloseWritable => CloseAndAbortControl(s);
    case AbortWritable => CloseAndAbortControl(s);
    case Read => ReadControl(s);
    case Cancel => CancelAndTerminateControl(s);
    case ControllerEnqueue(chunk) => if s.transformer.Transformer? { EnqueueControl(s, chunk); }
    case ControllerError => ErrorControl(s);
    case ControllerTerminate => CancelAndTerminateControl(s);
    case SettleStart(ok) => StartControl(s, ok);
    case ReadableStartReaction => StartControl(s, true);
    case WritableStartReaction => WritableStartControl(s);
    case PullReaction => PullReactionControl(s);
    case DeferredWriteReaction => TransformReactionControl(s, true);
    case SettleTransform(ok) => TransformReactionControl(s, ok);
    case TransformCatchReaction => TransformReactionControl(s, true);
    case WriteReaction => WriteReactionControl(s);
    case FlushReturns => FlushSettlesControl(s, true);
    case SettleFlush(ok) => FlushSettlesControl(s, ok);
    case FlushPromiseReaction => FlushReactionControl(s);
    case CloseReaction => CloseReactionControl(s);
  }
}
