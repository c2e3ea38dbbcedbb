/**
  What holds of a TransformStream in every state that any run can reach: which assertions can fail,
  when the transform and flush algorithms are called, that no blocked write is forgotten, and that an
  identity stream neither loses, duplicates nor reorders chunks.
*/
module TransformStreamTheorems {
  import opened TransformStreamState
  import opened TransformStreamSteps
  import opened TransformStreamControl
  import opened TransformStreamFlow

  lemma {:induction false} RunInv(transformer: Transformer, highWaterMark: HighWaterMark, steps: seq<Step>)
    ensures var s := Run(Initialize(transformer, highWaterMark), steps);
            Control(s) && Flow(s) && s.transformer == transformer
  {
    hide Apply, Control, Flow;
    var s0 := Initialize(transformer, highWaterMark);
    if steps == [] {
      InitialInv(transformer, highWaterMark);
    } else {
      var n := |steps| - 1;
      RunInv(transformer, highWaterMark, steps[..n]);
      var s := Run(s0, steps[..n]);
      StepControl(s, steps[n]);
      ControlFlowReady(s);
      StepFlow(s, steps[n]);
      StepTransformer(s, steps[n]);
    }
  }

  /** The part of the state that only the calling of the algorithms changes. */
  predicate NoCalls(s: State, t: State) {
    t.transformer == s.transformer && t.calls == s.calls && (s.cleared ==> t.cleared)
  }

  lemma EnqueueNoCalls(s: State, chunk: Chunk)
    ensures NoCalls(s, Enqueue(s, chunk).0)
  {
    hide ShouldCallPull, CallPullIfNeeded, ErrorWritableAndUnblockWrite, StartErroring;
    if s.r.readRequests > 0 {
      PullFlow(s.(r := s.r.(readRequests := s.r.readRequests - 1),
                  enqueued := s.enqueued + [chunk], delivered := s.delivered + [chunk]));
    }
    PullFlow(s.(r := s.r.(queue := s.r.queue + [chunk]), enqueued := s.enqueued + [chunk]));
    UnblockFlow(s.(r := ReadableError(s.r)));
  }

  lemma SettleAbortNoCalls(s: State)
    ensures NoCalls(s, SettleAbort(s))
  {
    hide ShouldCallPull, StartErroring;
  }

  lemma AdvanceTransformer(s: State)
    ensures AdvanceQueueIfNeeded(s).transformer == s.transformer
    ensures s.cleared && (s.w.inFlight.Idle? && s.w.started ==> !s.w.state.Writable?)
            && (s.w.state.Errored? || s.w.state.WClosed? ==> s.w.queue == [] && !s.w.closeQueued) ==>
              NoCalls(s, AdvanceQueueIfNeeded(s))
  {
    hide Enqueue, SettleAbort;
    forall x: State, chunk ensures NoCalls(x, Enqueue(x, chunk).0) { EnqueueNoCalls(x, chunk); }
    forall x: State ensures NoCalls(x, SettleAbort(x)) { SettleAbortNoCalls(x); }
  }

  /** Most steps never call the algorithms. */
  lemma QuietReadable(s: State)
    ensures NoCalls(s, DoRead(s)) && NoCalls(s, DoCancel(s)) && NoCalls(s, DoReadableStart(s)) && NoCalls(s, DoPullReaction(s))
  {
    hide CallPullIfNeeded, ErrorWritableAndUnblockWrite, ReadableError;
    forall x: State ensures NoCalls(x, CallPullIfNeeded(x)) { PullFlow(x); }
    forall x: State ensures NoCalls(x, ErrorWritableAndUnblockWrite(x)) { UnblockFlow(x); }
  }

  lemma QuietErrors(s: State)
    ensures NoCalls(s, Error(s)) && NoCalls(s, Terminate(s)) && NoCalls(s, DoTransformCatch(s)) && NoCalls(s, DoFlushReaction(s))
    ensures NoCalls(s, DoAbort(s))
  {
    hide ErrorWritableAndUnblockWrite, ReadableError, ReadableControllerClose, SettleAbort, StartErroring;
    forall x: State ensures NoCalls(x, ErrorWritableAndUnblockWrite(x)) { UnblockFlow(x); }
    forall x: State ensures NoCalls(x, SettleAbort(x)) { SettleAbortNoCalls(x); }
  }

  lemma QuietSettles(s: State, ok: bool)
    ensures NoCalls(s, DoSettleStart(s, ok)) && NoCalls(s, DoSettleTransform(s, ok)) && NoCalls(s, DoSettleFlush(s, ok))
    ensures NoCalls(s, DoFlushReturns(s)) && NoCalls(s, DoCloseReaction(s))
  {
    hide DealWithRejection;
  }

  /** The steps that may call them. */
  lemma CallingTransformer(s: State, chunk: Chunk)
    ensures DoWrite(s, chunk).transformer == DoClose(s).transformer == DoWritableStart(s).transformer == s.transformer
    ensures DoWriteReaction(s).transformer == s.transformer
  {
    hide SettleAbort, AdvanceQueueIfNeeded, StartErroring, DealWithRejection;
    forall x: State ensures NoCalls(x, SettleAbort(x)) { SettleAbortNoCalls(x); }
    forall x: State ensures AdvanceQueueIfNeeded(x).transformer == x.transformer { AdvanceTransformer(x); }
  }

  lemma DeferredTransformer(s: State)
    ensures DoDeferredWrite(s).transformer == s.transformer
  {
    hide Enqueue;
    forall x: State, chunk ensures NoCalls(x, Enqueue(x, chunk).0) { EnqueueNoCalls(x, chunk); }
  }

  lemma StepTransformer(s: State, step: Step)
    ensures Apply(s, step).transformer == s.transformer
  {
    hide DoWrite, DoClose, DoAbort, DoRead, DoCancel, Enqueue, Error, Terminate, DoSettleStart, DoReadableStart,
         DoWritableStart, DoPullReaction, DoDeferredWrite, DoSettleTransform, DoTransformCatch, DoWriteReaction,
         DoFlushReturns, DoSettleFlush, DoFlushReaction, DoCloseReaction;
    QuietReadable(s);
    QuietErrors(s);
    match step
    case WriteChunk(chunk) => CallingTransformer(s, chunk);
    case ControllerEnqueue(chunk) => EnqueueNoCalls(s, chunk);
    case SettleStart(ok) => QuietSettles(s, ok);
    case SettleTransform(ok) => QuietSettles(s, ok);
    case SettleFlush(ok) => QuietSettles(s, ok);
    case _ =>
      QuietSettles(s, true);
      CallingTransformer(s, Chunk(0, true, Throws));
      DeferredTransformer(s);
  }

  lemma ClearedAdvance(s: State)
    requires Algorithms(s.cleared, s.w) && FlowReady(s) && s.cleared
    ensures NoCalls(s, DoClose(s)) && NoCalls(s, DoWritableStart(s))
    ensures NoCalls(s, DoWriteReaction(s))
  {
    hide SettleAbort, AdvanceQueueIfNeeded, DealWithRejection;
    forall x: State ensures NoCalls(x, SettleAbort(x)) { SettleAbortNoCalls(x); }
    forall x: State
      ensures x.cleared && (x.w.inFlight.Idle? && x.w.started ==> !x.w.state.Writable?)
              && (x.w.state.Errored? || x.w.state.WClosed? ==> x.w.queue == [] && !x.w.closeQueued) ==>
                NoCalls(x, AdvanceQueueIfNeeded(x))
    { AdvanceTransformer(x); }
  }

  lemma ClearedWrites(s: State, chunk: Chunk)
    requires Algorithms(s.cleared, s.w) && FlowReady(s) && s.cleared
    ensures NoCalls(s, DoWrite(s, chunk)) && NoCalls(s, DoDeferredWrite(s))
  {
  }

  lemma ClearedStep(s: State, step: Step)
    requires Algorithms(s.cleared, s.w) && FlowReady(s) && s.cleared
    ensures NoCalls(s, Apply(s, step))
  {
    hide NoCalls, DoWrite, DoClose, DoAbort, DoRead, DoCancel, Enqueue, Error, Terminate, DoSettleStart, DoReadableStart,
         DoWritableStart, DoPullReaction, DoDeferredWrite, DoSettleTransform, DoTransformCatch, DoWriteReaction,
         DoFlushReturns, DoSettleFlush, DoFlushReaction, DoCloseReaction;
    QuietReadable(s);
    QuietErrors(s);
    ClearedAdvance(s);
    Unmoved(s);
    match step
    case WriteChunk(chunk) => ClearedWrites(s, chunk);
    case ControllerEnqueue(chunk) => EnqueueNoCalls(s, chunk);
    case SettleStart(ok) => QuietSettles(s, ok);
    case SettleTransform(ok) => QuietSettles(s, ok);
    case SettleFlush(ok) => QuietSettles(s, ok);
    case _ =>
      QuietSettles(s, true);
      ClearedWrites(s, Chunk(0, true, Throws));
  }

  lemma Unmoved(s: State)
    ensures NoCalls(s, s)
  {
  }

  lemma InitialInv(transformer: Transformer, highWaterMark: HighWaterMark)
    ensures var s := Initialize(transformer, highWaterMark); Control(s) && Flow(s) && s.transformer == transformer
  {
  }

  // ---------- assertions ----------

  /**
    On every run only the assertions in Enqueue and, with it, in SetBackpressure can fail: no pull
    finds backpressure false, no write or deferred write runs on a stream that is not writable, and
    neither the transform nor the flush pointer is null when it is called. Without a transformer no
    assertion fails at all.
  */
  lemma {:induction false} OnlyEnqueueAssertionFails(transformer: Transformer, highWaterMark: HighWaterMark, steps: seq<Step>)
    ensures var s := Run(Initialize(transformer, highWaterMark), steps);
            && s.faults <= {EnqueueClearsBackpressure, SameBackpressure}
            && (transformer.NoTransformer? ==> s.faults == {})
  {
    RunInv(transformer, highWaterMark, steps);
  }

  /** Whether the readable end would still want a chunk after being handed `chunk`. */
  predicate WantsMoreThan(r: ReadableStream, chunk: Chunk) {
    if r.readRequests > 0 then r.readRequests > 1 || HasRoom(r, r.queue)
    else chunk.readableSize.Size? && chunk.readableSize.value >= 0.0 && HasRoom(r, r.queue + [chunk])
  }

  predicate HasRoom(r: ReadableStream, queue: seq<Chunk>) {
    r.highWaterMark.Unlimited? || r.highWaterMark.value - QueueSize(queue) > 0.0
  }

  lemma UpdateFaults(s: State)
    requires s.faults == {}
    ensures UpdateBackpressure(s).faults != {} <==> ShouldCallPull(s.r) && s.backpressure
  {
    hide ShouldCallPull;
  }

  /** Handing over the chunk does not fail, and leaves demand and backpressure standing only behind a pull. */
  lemma HandOver(s: State, chunk: Chunk)
    requires Control(s) && s.faults == {} && CanCloseOrEnqueue(s.r)
    ensures var (t, ok) := ReadableEnqueue(s, chunk);
            && t.faults == {} && (!ok ==> !WantsMoreThan(s.r, chunk) && Severed(t))
            && (ok ==> (ShouldCallPull(t.r) && t.backpressure <==> s.backpressure && s.r.pulling && WantsMoreThan(s.r, chunk)))
  {
    hide QueueSize;
    ReadableEnqueueControl(s, chunk);
  }

  /**
    Exactly when Enqueue's assertion fails: backpressure is up, the reaction to the previous pull has
    not run, and the readable end wants more than this chunk.
  */
  lemma EnqueueAssertion(s: State, chunk: Chunk)
    requires Control(s) && s.faults == {}
    ensures Enqueue(s, chunk).0.faults != {} <==>
            CanCloseOrEnqueue(s.r) && s.backpressure && s.r.pulling && WantsMoreThan(s.r, chunk)
  {
    hide ErrorWritableAndUnblockWrite, ReadableEnqueue, UpdateBackpressure, ShouldCallPull, WantsMoreThan, Control, Severed;
    if CanCloseOrEnqueue(s.r) {
      HandOver(s, chunk);
      var (t, ok) := ReadableEnqueue(s, chunk);
      if ok {
        UpdateFaults(t);
      } else {
        UnblockControl(t);
      }
    }
  }

  lemma {:induction false} RunStep(s: State, steps: seq<Step>, step: Step)
    ensures Run(s, steps + [step]) == Apply(Run(s, steps), step)
  {
    hide Apply;
    assert (steps + [step])[..|steps|] == steps;
  }

  /** A pull is outstanding and one read is waiting. */
  function OnePull(highWaterMark: HighWaterMark): State {
    var s := Initialize(Transformer(true, true), highWaterMark);
    s.(start := Fulfilled, backpressure := false, changePromise := 2, resolutions := multiset{1},
       r := s.r.(started := true, pulling := true, pullPromise := 2, readRequests := 1))
  }

  lemma OnePullReached()
    ensures OnePull(Limit(0.0)) == Apply(Apply(Apply(Initialize(Transformer(true, true), Limit(0.0)),
                                                     SettleStart(true)), ReadableStartReaction), Read)
  {
    var s := Apply(Initialize(Transformer(true, true), Limit(0.0)), SettleStart(true));
    assert s == Initialize(Transformer(true, true), Limit(0.0)).(start := Fulfilled);
    var started := Apply(s, ReadableStartReaction);
    assert started == s.(r := s.r.(started := true)) by { assert QueueSize(s.r.queue) == 0.0; }
    assert Apply(started, Read) == OnePull(Limit(0.0)) by { hide QueueSize; }
  }

  lemma EnqueueAfterOnePull(a: Chunk)
    ensures var s := OnePull(Limit(0.0));
            Apply(s, ControllerEnqueue(a))
            == s.(backpressure := true, changePromise := 3, resolutions := multiset{1, 2}, enqueued := [a], delivered := [a],
                  r := s.r.(readRequests := 0))
  {
    assert QueueSize([]) == 0.0;
  }

  lemma EnqueueAfterTwoReads(a: Chunk, b: Chunk)
    ensures Apply(Apply(Apply(Apply(OnePull(Limit(0.0)), ControllerEnqueue(a)), Read), Read), ControllerEnqueue(b)).faults
            == {EnqueueClearsBackpressure, SameBackpressure}
  {
    EnqueueAfterOnePull(a);
    hide QueueSize;
    var s := Apply(OnePull(Limit(0.0)), ControllerEnqueue(a));
    var once := Apply(s, Read);
    assert once == s.(r := s.r.(readRequests := 1, pullAgain := true));
    var twice := Apply(once, Read);
    assert twice == s.(r := s.r.(readRequests := 2, pullAgain := true));
  }

  /** Two reads between an enqueue and the reaction to its pull make the next enqueue's assertion fail. */
  lemma EnqueueAssertionCanFail(a: Chunk, b: Chunk)
    ensures Run(Initialize(Transformer(true, true), Limit(0.0)),
                [SettleStart(true), ReadableStartReaction, Read, ControllerEnqueue(a), Read, Read, ControllerEnqueue(b)]).faults
            == {EnqueueClearsBackpressure, SameBackpressure}
  {
    hide Apply;
    var s0 := Initialize(Transformer(true, true), Limit(0.0));
    var up := [SettleStart(true), ReadableStartReaction, Read];
    var enqueued := up + [ControllerEnqueue(a)];
    assert Run(s0, []) == s0;
    RunStep(s0, [], SettleStart(true));
    RunStep(s0, [] + [SettleStart(true)], ReadableStartReaction);
    RunStep(s0, [] + [SettleStart(true)] + [ReadableStartReaction], Read);
    assert up == [] + [SettleStart(true)] + [ReadableStartReaction] + [Read];
    OnePullReached();
    RunStep(s0, up, ControllerEnqueue(a));
    RunStep(s0, enqueued, Read);
    RunStep(s0, enqueued + [Read], Read);
    RunStep(s0, enqueued + [Read] + [Read], ControllerEnqueue(b));
    EnqueueAfterTwoReads(a, b);
    assert enqueued + [Read] + [Read] + [ControllerEnqueue(b)]
        == [SettleStart(true), ReadableStartReaction, Read, ControllerEnqueue(a), Read, Read, ControllerEnqueue(b)];
  }

  // ---------- the calls of the transformer ----------

  /**
    On every run the calls made are transforms of the written chunks, in order and without gaps or
    repetitions, followed by at most one flush, made when every written chunk has been transformed.
  */
  lemma {:induction false} CallsInOrder(transformer: Transformer, highWaterMark: HighWaterMark, steps: seq<Step>)
    ensures var s := Run(Initialize(transformer, highWaterMark), steps);
            && |s.calls| <= |s.written| + 1
            && (forall i :: 0 <= i < |s.calls| ==>
                  if i < |s.written| && s.calls[i].TransformCall? then s.calls[i].chunk == s.written[i]
                  else s.calls[i].FlushCall? && i == |s.written| == |s.calls| - 1)
  {
    RunInv(transformer, highWaterMark, steps);
  }

  /** Once the algorithms are cleared the writable end is past calling them, and stays so. */
  lemma {:induction false} ClearedForGood(transformer: Transformer, highWaterMark: HighWaterMark, steps: seq<Step>, more: seq<Step>)
    requires Run(Initialize(transformer, highWaterMark), steps).cleared
    ensures var s := Run(Initialize(transformer, highWaterMark), steps);
            && (s.w.state.Writable? ==> s.w.inFlight.Close? && s.w.inFlight.close != Flushing)
            && Run(s, more).cleared && Run(s, more).calls == s.calls
    decreases |more|
  {
    RunInv(transformer, highWaterMark, steps);
    var s0 := Initialize(transformer, highWaterMark);
    var s := Run(s0, steps);
    if more != [] {
      var n := |more| - 1;
      ClearedForGood(transformer, highWaterMark, steps, more[..n]);
      RunJoin(s0, steps, more[..n]);
      RunInv(transformer, highWaterMark, steps + more[..n]);
      ClearedStep(Run(s, more[..n]), more[n]);
    }
  }

  lemma {:induction false} RunJoin(s: State, steps: seq<Step>, more: seq<Step>)
    ensures Run(s, steps + more) == Run(Run(s, steps), more)
  {
    hide Apply;
    if more == [] {
      assert steps + more == steps;
    } else {
      var n := |more| - 1;
      RunJoin(s, steps, more[..n]);
      assert (steps + more)[..|steps| + n] == steps + more[..n];
    }
  }

  // ---------- blocked writes ----------

  predicate Blocked(s: State) {
    s.w.inFlight.Write? && s.w.inFlight.write.Deferred? && s.w.inFlight.write.promise !in s.resolutions
  }

  /**
    No change-promise is ever lost: each superseded one has been resolved exactly once and the current
    one never, and a write that is still blocked waits for the current one, with backpressure up and
    the readable end open. A blocked write together with demand means that the reaction to the
    outstanding pull can run.
  */
  lemma {:induction false} NoLostWakeUp(transformer: Transformer, highWaterMark: HighWaterMark, steps: seq<Step>)
    ensures var s := Run(Initialize(transformer, highWaterMark), steps);
            && (forall p :: s.resolutions[p] == if 1 <= p < s.changePromise then 1 else 0)
            && (Blocked(s) ==>
                  && s.w.inFlight.write.promise == s.changePromise && s.backpressure && CanCloseOrEnqueue(s.r)
                  && (ShouldCallPull(s.r) ==> s.r.pulling && s.r.pullPromise in s.resolutions))
  {
    RunInv(transformer, highWaterMark, steps);
  }

  /** An error, a cancel or a terminate releases a blocked write. */
  lemma ErrorReleases(s: State)
    requires Control(s) && Blocked(s)
    ensures !Blocked(Error(s)) && !Blocked(DoCancel(s)) && !Blocked(Terminate(s))
    ensures Error(s).w.inFlight == DoCancel(s).w.inFlight == Terminate(s).w.inFlight == s.w.inFlight
  {
    hide StartErroring, ReadableControllerClose, ReadableError;
    ReleaseByUnblock(s);
  }

  lemma ReleaseByUnblock(s: State)
    requires Control(s) && Blocked(s)
    ensures forall r: ReadableStream :: var t := ErrorWritableAndUnblockWrite(s.(r := r));
              !Blocked(t) && t.w.inFlight == s.w.inFlight
  {
    forall r: ReadableStream
      ensures var t := ErrorWritableAndUnblockWrite(s.(r := r)); !Blocked(t) && t.w.inFlight == s.w.inFlight
    {
      UnblockFlow(s.(r := r));
    }
  }

  /** Once the readable end has started, a read followed by the pending pull reaction releases a blocked write. */
  lemma ReadReleases(s: State)
    requires Control(s) && Blocked(s) && s.r.started && s.r.queue == []
    ensures !Blocked(DoPullReaction(DoRead(s)))
    ensures DoPullReaction(DoRead(s)).w.inFlight == s.w.inFlight
  {
    var waiting := s.(r := s.r.(readRequests := s.r.readRequests + 1));
    assert ShouldCallPull(waiting.r);
  }

  // ---------- identity streams ----------

  /** The chunks accepted by the writable end whose transform has not been called. */
  function Untransformed(w: WritableStream): seq<Chunk> {
    if Transformed(w) && w.queue != [] then w.queue[1..] else w.queue
  }

  predicate Conserved(s: State) {
    && s.delivered <= s.written
    && (s.r.state.Readable? && !s.w.state.Errored? && !FailedWrite(s.w.inFlight) ==>
          s.written == s.delivered + s.r.queue + Untransformed(s.w))
    && (s.r.state.RClosed? && s.w.state.WClosed? && !s.r.cancelled ==> s.delivered == s.written)
  }

  lemma FlowConserves(s: State)
    requires FlowReady(s) && Flow(s) && s.transformer.NoTransformer?
    ensures Conserved(s)
  {
    if !s.w.state.Errored? && !FailedWrite(s.w.inFlight) {
      assert s.written == s.enqueued + Untransformed(s.w);
    }
    hide CallsOk;
  }

  /**
    Without a transformer the chunks delivered to the reader are always a prefix of those written.
    While both ends are open and no write has failed, nothing is missing: what was written is what was
    delivered, then the readable queue, then the writable queue. When both ends have closed without a
    cancel, everything written was delivered.
  */
  lemma {:induction false} IdentityConservation(highWaterMark: HighWaterMark, steps: seq<Step>)
    ensures var s := Run(Initialize(NoTransformer, highWaterMark), steps);
            && s.delivered <= s.written
            && (s.r.state.Readable? && !s.w.state.Errored? && !FailedWrite(s.w.inFlight) ==>
                  s.written == s.delivered + s.r.queue + Untransformed(s.w))
            && (s.r.state.RClosed? && s.w.state.WClosed? && !s.r.cancelled ==> s.delivered == s.written)
  {
    hide Control, Flow, FlowReady, Run, Initialize;
    RunInv(NoTransformer, highWaterMark, steps);
    var s := Run(Initialize(NoTransformer, highWaterMark), steps);
    ControlFlowReady(s);
    FlowConserves(s);
  }

  /**
    The same for any transformer as far as the readable end goes: the delivered chunks are always a
    prefix of the enqueued ones, and while the readable end is open the rest is in its queue.
  */
  lemma {:induction false} ReadableConservation(transformer: Transformer, highWaterMark: HighWaterMark, steps: seq<Step>)
    ensures var s := Run(Initialize(transformer, highWaterMark), steps);
            && s.delivered <= s.enqueued
            && (s.r.state.Readable? ==> s.enqueued == s.delivered + s.r.queue)
            && (s.r.state.RClosed? && !s.r.cancelled ==> s.enqueued == s.delivered)
  {
    RunInv(transformer, highWaterMark, steps);
  }
}
