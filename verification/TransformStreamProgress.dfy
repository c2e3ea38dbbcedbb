/**
  What moves a TransformStream on: demand is turned into pulls and accepted writes into calls on every
  run, and each reaction that is due does what it is there for.
*/
module TransformStreamProgress {
  import opened TransformStreamState
  import opened TransformStreamSteps
  import opened TransformStreamControl
  import opened TransformStreamFlow
  import opened TransformStreamTheorems
  import opened TransformStreamEnds

  // ---------- demand ----------

  function SizeOf(chunk: Chunk): real {
    if chunk.readableSize.Size? then chunk.readableSize.value else 0.0
  }

  /** The sizes of the queued chunks, in the order they were enqueued. */
  function Total(queue: seq<Chunk>): real {
    if queue == [] then 0.0 else Total(queue[..|queue| - 1]) + SizeOf(queue[|queue| - 1])
  }

  /** An open readable end that was started wants a chunk: a read waits for one, or the queue is below the limit. */
  predicate Wanting(r: ReadableStream) {
    && r.state.Readable? && !r.closeRequested && r.started
    && (r.readRequests > 0 || r.highWaterMark.Unlimited? || Total(r.queue) < r.highWaterMark.value)
  }

  lemma {:induction false} SizesAdd(queue: seq<Chunk>, chunk: Chunk)
    ensures QueueSize(queue + [chunk]) == QueueSize(queue) + SizeOf(chunk)
  {
    if queue == [] {
      assert queue + [chunk] == [chunk];
    } else {
      SizesAdd(queue[1..], chunk);
      assert (queue + [chunk])[1..] == queue[1..] + [chunk];
    }
  }

  lemma {:induction false} SizeIsTotal(queue: seq<Chunk>)
    ensures QueueSize(queue) == Total(queue)
  {
    if queue != [] {
      var n := |queue| - 1;
      SizeIsTotal(queue[..n]);
      SizesAdd(queue[..n], queue[n]);
      assert queue == queue[..n] + [queue[n]];
    }
  }

  lemma WantingPulls(r: ReadableStream)
    ensures ShouldCallPull(r) <==> Wanting(r)
  {
    SizeIsTotal(r.queue);
  }

  /** On every run a demand has a pull outstanding, which has lifted the backpressure or will be repeated. */
  lemma DemandIsPulled(transformer: Transformer, highWaterMark: HighWaterMark, steps: seq<Step>)
    ensures var s := Run(Initialize(transformer, highWaterMark), steps);
            Wanting(s.r) ==> s.r.pulling && (!s.backpressure || s.r.pullAgain)
  {
    RunInv(transformer, highWaterMark, steps);
    var s := Run(Initialize(transformer, highWaterMark), steps);
    WantingPulls(s.r);
    hide Run, Initialize, ShouldCallPull, Wanting;
  }

  /** The start of the readable end turns its first demand into a pull, which lifts the backpressure. */
  lemma StartedStreamPulls(s: State)
    requires Control(s) && s.start.Fulfilled? && !s.r.started
    ensures var t := DoReadableStart(s); t.r.started && (Wanting(t.r) ==> t.r.pulling && !t.backpressure)
  {
    WantingPulls(s.r.(started := true));
    WantingPulls(DoReadableStart(s).r);
    hide ShouldCallPull, Wanting;
  }

  /** After a chunk that leaves no demand there is backpressure. */
  lemma FullQueuePushesBack(s: State, chunk: Chunk)
    requires CanCloseOrEnqueue(s.r)
    ensures var (t, ok) := Enqueue(s, chunk); ok && !Wanting(t.r) ==> t.backpressure
  {
    var (enqueued, ok) := ReadableEnqueue(s, chunk);
    WantingPulls(enqueued.r);
    hide ReadableEnqueue, ShouldCallPull, Wanting;
  }

  // ---------- writes ----------

  /** On every run a started stream that can write and has something to do is doing it; one that ends is ending. */
  lemma QueueIsServed(transformer: Transformer, highWaterMark: HighWaterMark, steps: seq<Step>)
    ensures var s := Run(Initialize(transformer, highWaterMark), steps);
            && (s.w.started && s.w.state.Writable? && (s.w.queue != [] || s.w.closeQueued) ==> !s.w.inFlight.Idle?)
            && (s.w.started && s.w.state.Erroring? ==> !s.w.inFlight.Idle?)
            && (s.w.state.Errored? || s.w.state.WClosed? ==> s.w.queue == [] && !s.w.closeQueued && s.w.pendingAbort.NoAbort?)
  {
    RunInv(transformer, highWaterMark, steps);
    hide Run, Initialize;
  }

  lemma StartedStreamGoesOn(s: State)
    requires Control(s) && s.start.Fulfilled? && !s.w.started && s.w.state.Writable?
    ensures var t := DoWritableStart(s);
            && t.w.started
            && (s.w.queue != [] ==> t.w.inFlight.Write? && (!s.backpressure ==> t.calls == s.calls + [TransformCall(s.w.queue[0])]))
            && (s.w.queue == [] && s.w.closeQueued ==> t.w.inFlight.Close? && t.calls == s.calls + [FlushCall])
  {
    hide PerformTransform;
    if s.w.queue != [] {
      forall x: State
        ensures PerformTransform(x, s.w.queue[0]).calls == x.calls + [TransformCall(s.w.queue[0])]
        ensures PerformTransform(x, s.w.queue[0]).w.inFlight.Write? && PerformTransform(x, s.w.queue[0]).w.started == x.w.started
      {
        PerformCalls(x, s.w.queue[0]);
      }
    }
  }

  lemma PerformCalls(s: State, chunk: Chunk)
    ensures var t := PerformTransform(s, chunk); t.calls == s.calls + [TransformCall(chunk)] && t.w.inFlight.Write? && t.w.started == s.w.started
  {
    var called := SetWrite(AddFault(s, s.cleared, NullTransform).(calls := s.calls + [TransformCall(chunk)]), Transforming);
    EnqueueCalls(called, chunk);
    EnqueueWritable(called, chunk);
    hide Enqueue;
  }

  /** A write that was released runs, unless the stream has begun to error: then it is refused. One that was not released waits. */
  lemma ReleasedWriteRuns(s: State)
    requires Control(s) && s.w.inFlight.Write? && s.w.inFlight.write.Deferred?
    ensures var t := DoDeferredWrite(s);
            if s.w.inFlight.write.promise !in s.resolutions then t == s
            else if s.w.state.Erroring? then t.w.inFlight == Write(Refused) && t.calls == s.calls && t.enqueued == s.enqueued
            else t.calls == s.calls + [TransformCall(s.w.queue[0])]
  {
    hide PerformTransform;
    PerformCalls(s, s.w.queue[0]);
  }

  /** A write that was refused ends the erroring; the readable end hears of it if an abort waits for that. */
  lemma RefusedWriteErrors(s: State)
    requires Control(s) && s.w.inFlight == Write(Refused)
    ensures var t := DoWriteReaction(s);
            && t.w.state.Errored? && t.w.queue == [] && t.w.inFlight.Idle? && t.w.pendingAbort.NoAbort?
            && (s.w.pendingAbort == Abort(false) ==> !t.r.state.Readable? && t.cleared)
            && (s.w.pendingAbort != Abort(false) ==> t.r == s.r)
  {
  }

  /** An abort of a stream that is erroring already is noted, and nothing else happens; a second one is not. */
  lemma LateAbort(s: State)
    requires Control(s) && s.w.state.Erroring?
    ensures var t := DoAbort(s);
            && t.w.pendingAbort == (if s.w.pendingAbort.NoAbort? then Abort(true) else s.w.pendingAbort)
            && t.r == s.r && t.cleared == s.cleared && t.w.queue == s.w.queue && t.w.inFlight == s.w.inFlight && t.w.state.Erroring?
  {
  }

  // ---------- the controller, called by the transformer ----------

  lemma ControllerEnqueues(s: State, chunk: Chunk)
    requires s.transformer.Transformer?
    ensures var t := Apply(s, ControllerEnqueue(chunk));
            && (t.enqueued == s.enqueued + [chunk] <==>
                CanCloseOrEnqueue(s.r) && (s.r.readRequests > 0 || (chunk.readableSize.Size? && chunk.readableSize.value >= 0.0)))
            && (!CanCloseOrEnqueue(s.r) ==> t == s)
  {
    if CanCloseOrEnqueue(s.r) {
      EnqueueDelivers(s, chunk);
      hide Enqueue;
    }
  }

  lemma UnblockShuts(s: State)
    ensures var t := ErrorWritableAndUnblockWrite(s); t.r == s.r && t.cleared && !t.w.state.Writable?
  {
    hide StartErroring;
    ErroringState(s.w);
  }

  lemma ControllerErrors(s: State)
    requires s.transformer.Transformer?
    ensures var t := Apply(s, ControllerError);
            !t.r.state.Readable? && !t.w.state.Writable? && t.cleared && (s.r.state.Readable? ==> t.r.state.RErrored?)
  {
    UnblockShuts(s.(r := ReadableError(s.r)));
    hide ErrorWritableAndUnblockWrite;
  }

  lemma ControllerTerminates(s: State)
    requires s.transformer.Transformer?
    ensures var t := Apply(s, ControllerTerminate);
            !CanCloseOrEnqueue(t.r) && !t.w.state.Writable? && t.cleared && (s.r.state.RErrored? <==> t.r.state.RErrored?)
  {
    UnblockShuts(if CanCloseOrEnqueue(s.r) then s.(r := ReadableControllerClose(s.r)) else s);
    hide ErrorWritableAndUnblockWrite;
  }

  /** Without a transformer nobody has the controller. */
  lemma NoController(s: State, chunk: Chunk)
    requires s.transformer.NoTransformer?
    ensures Apply(s, ControllerEnqueue(chunk)) == Apply(s, ControllerError) == Apply(s, ControllerTerminate) == s
  {
  }
}
