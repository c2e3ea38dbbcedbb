/**
  How the ends of a TransformStream end: closing the writable end closes the readable one, which hands
  out what it still has and then its end; and an error or an abort on one side reaches the other.
*/
module TransformStreamEnds {
  import opened TransformStreamState
  import opened TransformStreamSteps
  import opened TransformStreamControl
  import opened TransformStreamFlow
  import opened TransformStreamTheorems

  // ---------- the readable end never opens again ----------

  /** No chunk can be added any more: the readable end is closed, errored, or about to close. */
  predicate Shut(r: ReadableStream) {
    !r.state.Readable? || r.closeRequested
  }

  predicate StaysShut(before: ReadableStream, after: ReadableStream) {
    && (before.closeRequested ==> after.closeRequested)
    && (!before.state.Readable? ==> after.state == before.state)
  }

  /** An abort that has not yet reached the readable end is still pending. */
  predicate AbortReaches(s: State) {
    s.w.pendingAbort == Abort(false) || Shut(s.r)
  }

  /** What the phases of the writable end say of the readable one. */
  predicate Ends(s: State) {
    && (s.w.state.WClosed? || s.w.inFlight == Close(CloseSettled(true)) ==> Shut(s.r))
    && (s.w.inFlight == Write(WriteSettled(false)) || s.w.inFlight == Close(CloseSettled(false)) ==> !s.r.state.Readable?)
    && (s.cleared ==> Shut(s.r) || (s.w.inFlight.Close? && (s.w.inFlight.close.FlushPending? || s.w.inFlight.close.FlushSettled?)))
  }

  /** The flush algorithm has been called and has returned. */
  predicate Flushed(w: WritableStream) {
    (w.inFlight.Close? && w.inFlight.close != Flushing) || w.state.WClosed?
  }

  /** Nothing ends without the algorithms being cleared, but for a start that was rejected. */
  predicate Clears(s: State) {
    Flushed(s.w) || (Shut(s.r) && !s.start.Rejected?) ==> s.cleared
  }

  predicate KeepsClear(s: State, t: State) {
    && (s.cleared ==> t.cleared)
    && (s.start.Rejected? ==> t.start.Rejected?)
    && (t.cleared || ((Flushed(t.w) ==> Flushed(s.w)) && (Shut(t.r) ==> Shut(s.r) || Flushed(s.w) || s.start.Rejected?)))
  }

  /** A step keeps all of this. */
  predicate Moves(s: State, t: State) {
    Ends(t) && StaysShut(s.r, t.r) && (AbortReaches(s) ==> AbortReaches(t)) && KeepsClear(s, t)
  }

  // ---------- the operations ----------

  lemma UnblockEnds(s: State)
    requires Ends(s) && Shut(s.r)
    ensures Ends(ErrorWritableAndUnblockWrite(s)) && (AbortReaches(s) ==> AbortReaches(ErrorWritableAndUnblockWrite(s)))
  {
    hide ErrorWritableAndUnblockWrite;
    UnblockFlow(s);
  }

  lemma ErrorEnds(s: State)
    requires Ends(s)
    ensures var t := Error(s);
            Moves(s, t) && !t.r.state.Readable? && t.cleared && t.w.inFlight == s.w.inFlight && (s.r.state.Readable? ==> t.r.state.RErrored?)
            && !t.w.state.Writable?
  {
    hide ErrorWritableAndUnblockWrite;
    UnblockFlow(s.(r := ReadableError(s.r)));
  }

  lemma PullEnds(s: State)
    requires Ends(s)
    ensures Moves(s, CallPullIfNeeded(s))
  {
    hide CallPullIfNeeded;
    PullFlow(s);
  }

  /** A change of the readable end alone that does not open it. */
  lemma ReadableMoves(s: State, r: ReadableStream)
    requires Ends(s) && StaysShut(s.r, r) && (Shut(r) ==> Shut(s.r) || s.start.Rejected?)
    ensures forall t: State :: t.r == r && t.w == s.w && t.cleared == s.cleared && t.start == s.start ==> Moves(s, t)
  {
  }

  /** A failed enqueue is an error; one that succeeds changes the readable end's queue and its pulling. */
  lemma EnqueueIs(s: State, chunk: Chunk)
    ensures var (t, ok) := Enqueue(s, chunk);
            if ok then t.w == s.w && t.cleared == s.cleared && t.start == s.start && t.r.state == s.r.state && t.r.closeRequested == s.r.closeRequested
            else t == if CanCloseOrEnqueue(s.r) then Error(s) else s
  {
    hide ShouldCallPull, CallPullIfNeeded, ErrorWritableAndUnblockWrite;
    if s.r.readRequests > 0 {
      PullFlow(s.(r := s.r.(readRequests := s.r.readRequests - 1),
                  enqueued := s.enqueued + [chunk], delivered := s.delivered + [chunk]));
    }
    PullFlow(s.(r := s.r.(queue := s.r.queue + [chunk]), enqueued := s.enqueued + [chunk]));
  }

  lemma EnqueueEnds(s: State, chunk: Chunk)
    requires Ends(s)
    ensures var (t, ok) := Enqueue(s, chunk);
            Moves(s, t) && t.w.inFlight == s.w.inFlight && (!ok && CanCloseOrEnqueue(s.r) ==> t.r.state.RErrored?)
  {
    EnqueueIs(s, chunk);
    ErrorEnds(s);
    NotMoved(s);
    hide Enqueue, Error, Ends, Moves;
    if Enqueue(s, chunk).1 {
      ReadableMoves(s, Enqueue(s, chunk).0.r);
    }
  }

  lemma ErroringKeepsFlight(w: WritableStream)
    ensures StartErroring(w).inFlight == w.inFlight && StartErroring(w).pendingAbort == w.pendingAbort && !StartErroring(w).state.WClosed?
    ensures !StartErroring(w).state.Writable?
    ensures DealWithRejection(w).inFlight == w.inFlight && DealWithRejection(w).pendingAbort == w.pendingAbort
    ensures DealWithRejection(w).state.WClosed? ==> w.state.WClosed?
  {
  }

  lemma TransformEnds(s: State, chunk: Chunk)
    requires Ends(s) && s.w.inFlight.Write? && s.w.inFlight != Write(WriteSettled(false)) && !s.cleared
    ensures Moves(s, PerformTransform(s, chunk))
  {
    hide Enqueue;
    EnqueueEnds(SetWrite(AddFault(s, s.cleared, NullTransform).(calls := s.calls + [TransformCall(chunk)]), Transforming), chunk);
  }

  lemma SettleAbortEnds(s: State)
    requires Ends(s)
    ensures Moves(s, SettleAbort(s))
    ensures s.w.state.Errored? && s.w.pendingAbort == Abort(false) ==> !SettleAbort(s).r.state.Readable?
  {
    hide Error;
    ErrorEnds(s.(w := s.w.(pendingAbort := NoAbort)));
  }

  lemma AdvanceEnds(s: State)
    requires Ends(s) && (s.w.inFlight.Idle? && s.w.started && s.cleared ==> !s.w.state.Writable?)
    requires s.w.state.Errored? || s.w.state.WClosed? ==> s.w.queue == [] && !s.w.closeQueued
    ensures Moves(s, AdvanceQueueIfNeeded(s))
  {
    hide SettleAbort, PerformTransform;
    if s.w.started && s.w.inFlight.Idle? {
      if s.w.state.Erroring? {
        SettleAbortEnds(s.(w := FinishErroring(s.w)));
      } else if s.w.queue != [] {
        var marked := AddFault(SetWrite(s, Transforming), !s.w.state.Writable?, WriteNotWritable);
        if !s.backpressure { TransformEnds(marked, s.w.queue[0]); }
      }
    }
  }

  // ---------- the steps ----------

  lemma WriteEnds(s: State, chunk: Chunk)
    requires Control(s) && Ends(s)
    ensures Moves(s, DoWrite(s, chunk))
  {
    hide AdvanceQueueIfNeeded, StartErroring;
    ErroringKeepsFlight(s.w);
    if s.w.state.Writable? && chunk.writableSizeOk && !CloseQueuedOrInFlight(s.w) {
      AdvanceEnds(s.(w := s.w.(queue := s.w.queue + [chunk]), written := s.written + [chunk]));
    }
  }

  lemma CloseEnds(s: State)
    requires Control(s) && Ends(s)
    ensures Moves(s, DoClose(s))
  {
    hide AdvanceQueueIfNeeded;
    if !s.w.state.WClosed? && !s.w.state.Errored? && !CloseQueuedOrInFlight(s.w) {
      AdvanceEnds(s.(w := s.w.(closeQueued := true)));
    }
  }

  lemma AbortEnds(s: State)
    requires Control(s) && Ends(s)
    ensures Moves(s, DoAbort(s)) && (s.w.state.Writable? ==> AbortReaches(DoAbort(s)))
  {
    hide SettleAbort, StartErroring;
    var aborted := s.w.(pendingAbort := Abort(false));
    ErroringKeepsFlight(aborted);
    if s.w.state.Writable? {
      SettleAbortEnds(s.(w := StartErroring(aborted)));
    }
  }

  lemma ReadEnds(s: State)
    requires Control(s) && Ends(s)
    ensures Moves(s, DoRead(s))
  {
    hide CallPullIfNeeded, Moves, Ends;
    PullFlow(s.(r := s.r.(readRequests := s.r.readRequests + 1)));
    if s.r.queue != [] {
      PullFlow(s.(r := s.r.(queue := s.r.queue[1..]), delivered := s.delivered + [s.r.queue[0]]));
    }
    ReadableMoves(s, DoRead(s).r);
  }

  lemma PullingEnds(s: State)
    requires Control(s) && Ends(s)
    ensures Moves(s, DoReadableStart(s)) && Moves(s, DoPullReaction(s))
  {
    hide CallPullIfNeeded, Moves, Ends;
    PullFlow(s.(r := s.r.(started := true)));
    PullFlow(s.(r := s.r.(pulling := false, pullAgain := false)));
    ReadableMoves(s, DoReadableStart(s).r);
    ReadableMoves(s, DoPullReaction(s).r);
  }

  lemma CancelEnds(s: State)
    requires Control(s) && Ends(s)
    ensures Moves(s, DoCancel(s))
  {
    hide ErrorWritableAndUnblockWrite;
    var cancelled := s.(r := s.r.(state := RClosed, readRequests := 0, queue := [], cancelled := true));
    UnblockFlow(cancelled);
    UnblockEnds(cancelled);
  }

  lemma TerminateEnds(s: State)
    requires Control(s) && Ends(s)
    ensures Moves(s, Terminate(s))
  {
    hide ErrorWritableAndUnblockWrite;
    var closed := if CanCloseOrEnqueue(s.r) then s.(r := ReadableControllerClose(s.r)) else s;
    UnblockFlow(closed);
    UnblockEnds(closed);
  }

  lemma StartEnds(s: State)
    requires Control(s) && Ends(s)
    ensures Moves(s, DoWritableStart(s))
  {
    hide AdvanceQueueIfNeeded, SettleAbort, DealWithRejection;
    var started := s.w.(started := true);
    ErroringKeepsFlight(started);
    if !s.w.started && !s.start.Pending? {
      if s.start.Fulfilled? { AdvanceEnds(s.(w := started)); }
      else { SettleAbortEnds(s.(w := DealWithRejection(started))); }
    }
  }

  lemma DeferredEnds(s: State)
    requires Control(s) && Ends(s)
    ensures Moves(s, DoDeferredWrite(s))
  {
    hide PerformTransform;
    if s.w.inFlight.Write? && s.w.inFlight.write.Deferred? && s.w.state.Writable? && s.w.queue != [] {
      TransformEnds(s, s.w.queue[0]);
    }
  }

  lemma WriteReactionEnds(s: State)
    requires Control(s) && Ends(s)
    ensures Moves(s, DoWriteReaction(s))
  {
    hide AdvanceQueueIfNeeded, SettleAbort, DealWithRejection;
    ErroringKeepsFlight(s.w.(inFlight := Idle));
    if s.w.inFlight == Write(WriteSettled(true)) {
      AdvanceEnds(s.(w := s.w.(inFlight := Idle, queue := s.w.queue[1..])));
    } else if s.w.inFlight == Write(WriteSettled(false)) || s.w.inFlight == Write(Refused) {
      SettleAbortEnds(s.(w := DealWithRejection(s.w.(inFlight := Idle))));
    }
  }

  lemma CatchEnds(s: State)
    requires Control(s) && Ends(s)
    ensures Moves(s, DoTransformCatch(s)) && Moves(s, DoFlushReaction(s))
  {
    hide Error;
    ErrorEnds(s);
  }

  lemma SettleEnds(s: State, ok: bool)
    requires Control(s) && Ends(s)
    ensures Moves(s, DoSettleStart(s, ok)) && Moves(s, DoSettleTransform(s, ok))
  {
  }

  lemma FlushEnds(s: State, ok: bool)
    requires Control(s) && Ends(s)
    ensures Moves(s, DoSettleFlush(s, ok)) && Moves(s, DoFlushReturns(s))
  {
  }

  lemma CloseReactionEnds(s: State)
    requires Control(s) && Ends(s)
    ensures Moves(s, DoCloseReaction(s))
  {
    ErroringKeepsFlight(s.w.(inFlight := Idle, pendingAbort := NoAbort));
    hide DealWithRejection;
  }

  lemma StepEnds(s: State, step: Step)
    requires Control(s) && Ends(s)
    ensures Moves(s, Apply(s, step))
  {
    hide Control, Ends, Moves, DoWrite, DoClose, DoAbort, DoRead, DoCancel, Enqueue, Error, Terminate, DoSettleStart,
         DoReadableStart, DoWritableStart, DoPullReaction, DoDeferredWrite, DoSettleTransform, DoTransformCatch,
         DoWriteReaction, DoFlushReturns, DoSettleFlush, DoFlushReaction, DoCloseReaction;
    NotMoved(s);
    match step
    case WriteChunk(chunk) => WriteEnds(s, chunk);
    case ControllerEnqueue(chunk) => EnqueueEnds(s, chunk);
    case ControllerError => ErrorEnds(s);
    case SettleStart(ok) => SettleEnds(s, ok);
    case SettleTransform(ok) => SettleEnds(s, ok);
    case SettleFlush(ok) => FlushEnds(s, ok);
    case FlushReturns => FlushEnds(s, true);
    case CloseReaction => CloseReactionEnds(s);
    case WritableStartReaction => StartEnds(s);
    case DeferredWriteReaction => DeferredEnds(s);
    case WriteReaction => WriteReactionEnds(s);
    case TransformCatchReaction => CatchEnds(s);
    case FlushPromiseReaction => CatchEnds(s);
    case CloseWritable => CloseEnds(s);
    case AbortWritable => AbortEnds(s);
    case Cancel => CancelEnds(s);
    case ControllerTerminate => TerminateEnds(s);
    case Read => ReadEnds(s);
    case _ => PullingEnds(s);
  }

  lemma NotMoved(s: State)
    requires Ends(s)
    ensures Moves(s, s)
  {
  }

  // ---------- over runs ----------

  lemma {:induction false} RunEnds(transformer: Transformer, highWaterMark: HighWaterMark, steps: seq<Step>)
    ensures Ends(Run(Initialize(transformer, highWaterMark), steps)) && Control(Run(Initialize(transformer, highWaterMark), steps))
    ensures Clears(Run(Initialize(transformer, highWaterMark), steps))
  {
    RunInv(transformer, highWaterMark, steps);
    if steps != [] {
      var before := steps[..|steps| - 1];
      RunEnds(transformer, highWaterMark, before);
      hide Control, Ends, Apply, Initialize;
      StepEnds(Run(Initialize(transformer, highWaterMark), before), steps[|steps| - 1]);
    }
  }

  lemma {:induction false} RunMoves(transformer: Transformer, highWaterMark: HighWaterMark, steps: seq<Step>, more: seq<Step>)
    ensures var s := Run(Initialize(transformer, highWaterMark), steps);
            StaysShut(s.r, Run(s, more).r) && (AbortReaches(s) ==> AbortReaches(Run(s, more)))
    decreases |more|
  {
    var s := Run(Initialize(transformer, highWaterMark), steps);
    if more != [] {
      var before := more[..|more| - 1];
      RunMoves(transformer, highWaterMark, steps, before);
      RunJoin(Initialize(transformer, highWaterMark), steps, before);
      RunEnds(transformer, highWaterMark, steps + before);
      hide Control, Ends, Apply, Initialize, AbortReaches;
      StepEnds(Run(s, before), more[|more| - 1]);
    }
  }

  /**
    On every run, when the writable end is closed the readable end takes no more chunks; unless it
    was errored it is closed as soon as its queue is empty, so that a reader gets what was enqueued and
    then the end.
  */
  lemma CloseReachesReader(transformer: Transformer, highWaterMark: HighWaterMark, steps: seq<Step>)
    ensures var s := Run(Initialize(transformer, highWaterMark), steps);
            && (s.w.state.WClosed? ==> !CanCloseOrEnqueue(s.r))
            && (s.w.state.WClosed? && !s.r.state.RErrored? && s.r.queue == [] ==> s.r.state.RClosed?)
            && (s.w.state.WClosed? && s.r.state.Readable? ==> s.enqueued == s.delivered + s.r.queue)
            && (s.w.state.WClosed? && s.r.state.RClosed? && !s.r.cancelled ==> s.delivered == s.enqueued)
  {
    RunEnds(transformer, highWaterMark, steps);
    ReadableConservation(transformer, highWaterMark, steps);
    hide Run, Initialize;
  }

  /**
    Once the algorithms are cleared, other than by a flush, the readable end takes no more chunks; and
    they are cleared when it takes no more, for whatever reason but a rejected start, and when the
    flush has returned.
  */
  lemma ErrorReachesReader(transformer: Transformer, highWaterMark: HighWaterMark, steps: seq<Step>)
    ensures var s := Run(Initialize(transformer, highWaterMark), steps);
            && (s.cleared && !s.w.inFlight.Close? ==> !CanCloseOrEnqueue(s.r))
            && (!CanCloseOrEnqueue(s.r) && !s.start.Rejected? ==> s.cleared && (!s.w.state.Writable? || s.w.inFlight.Close?))
            && (s.w.inFlight.Close? ==> (s.cleared <==> s.w.inFlight.close != Flushing || !CanCloseOrEnqueue(s.r)))
            && (s.w.inFlight == Write(WriteSettled(false)) ==> !s.r.state.Readable?)
  {
    RunEnds(transformer, highWaterMark, steps);
    hide Run, Initialize;
  }

  /**
    An abort of the writable end reaches the readable one: however the run goes on, the abort is still
    pending or the readable end takes no more chunks, and by the time the writable end is errored or
    closed it is the latter.
  */
  lemma AbortReachesReader(transformer: Transformer, highWaterMark: HighWaterMark, steps: seq<Step>, more: seq<Step>)
    requires Run(Initialize(transformer, highWaterMark), steps).w.state.Writable?
    ensures var t := Run(Initialize(transformer, highWaterMark), steps + [AbortWritable] + more);
            && (t.w.pendingAbort == Abort(false) || !CanCloseOrEnqueue(t.r))
            && (t.w.state.Errored? || t.w.state.WClosed? ==> !CanCloseOrEnqueue(t.r))
  {
    var s0 := Initialize(transformer, highWaterMark);
    var s := Run(s0, steps);
    RunEnds(transformer, highWaterMark, steps);
    AbortEnds(s);
    RunStep(s0, steps, AbortWritable);
    RunMoves(transformer, highWaterMark, steps + [AbortWritable], more);
    RunJoin(s0, steps + [AbortWritable], more);
    RunInv(transformer, highWaterMark, steps + [AbortWritable] + more);
    hide Run, Initialize, DoAbort, Ends;
  }

  // ---------- reading to the end ----------

  function Reads(n: nat): (steps: seq<Step>)
    ensures |steps| == n
  {
    if n == 0 then [] else [Read] + Reads(n - 1)
  }

  lemma ReadsSnoc(n: nat)
    requires n > 0
    ensures Reads(n) == Reads(n - 1) + [Read]
  {
    if n > 1 {
      ReadsSnoc(n - 1);
    }
  }

  /** A read takes the head of the queue. */
  lemma ReadTakesHead(s: State)
    requires s.r.state.Readable? && s.r.queue != []
    ensures DoRead(s).delivered == s.delivered + [s.r.queue[0]] && DoRead(s).r.queue == s.r.queue[1..]
    ensures DoRead(s).r.state == if s.r.closeRequested && |s.r.queue| == 1 then RClosed else Readable
    ensures s.r.closeRequested ==> DoRead(s).r.closeRequested && DoRead(s).w == s.w && DoRead(s).enqueued == s.enqueued
  {
    hide CallPullIfNeeded;
    PullFlow(s.(r := s.r.(queue := s.r.queue[1..]), delivered := s.delivered + [s.r.queue[0]]));
  }

  /** `t` is `s` after `n` of the queued chunks were handed out, and the end after the last of them. */
  predicate HandedOut(s: State, t: State, n: nat)
    requires n <= |s.r.queue|
  {
    && t.delivered == s.delivered + s.r.queue[..n] && t.r.queue == s.r.queue[n..] && t.enqueued == s.enqueued && t.w == s.w
    && t.r.closeRequested && t.r.state == if n == |s.r.queue| then RClosed else Readable
  }

  lemma HandedOutOne(s: State, t: State, n: nat)
    requires n < |s.r.queue| && HandedOut(s, t, n)
    ensures HandedOut(s, DoRead(t), n + 1)
  {
    ReadTakesHead(t);
    hide DoRead;
    assert t.r.queue[0] == s.r.queue[n] && t.r.queue[1..] == s.r.queue[n + 1..];
    assert s.r.queue[..n + 1] == s.r.queue[..n] + [s.r.queue[n]];
  }

  lemma {:induction false} ReadsHandOut(s: State, n: nat)
    requires s.r.state.Readable? && s.r.closeRequested && n <= |s.r.queue| && s.r.queue != []
    ensures HandedOut(s, Run(s, Reads(n)), n)
    decreases n
  {
    if n > 0 {
      ReadsSnoc(n);
      ReadsHandOut(s, n - 1);
      RunStep(s, Reads(n - 1), Read);
      hide Reads, Run, DoRead, HandedOut;
      HandedOutOne(s, Run(s, Reads(n - 1)), n - 1);
    }
  }

  /** When the close has been requested, as many reads as chunks are queued hand them all out, and the end after them. */
  lemma ReadsDrain(s: State, n: nat)
    requires s.r.state.Readable? && s.r.closeRequested && n <= |s.r.queue| && s.r.queue != []
    ensures var t := Run(s, Reads(n));
            && t.delivered == s.delivered + s.r.queue[..n] && t.r.queue == s.r.queue[n..] && t.enqueued == s.enqueued && t.w == s.w
            && t.r.closeRequested && t.r.state == if n == |s.r.queue| then RClosed else Readable
  {
    ReadsHandOut(s, n);
    hide Run, Reads;
  }

  /** After a terminate the reader still gets the chunks that are queued, in order, and then the end. */
  lemma TerminateDrains(s: State)
    requires Control(s) && CanCloseOrEnqueue(s.r)
    ensures var t := Run(Terminate(s), Reads(|s.r.queue|));
            && t.delivered == s.delivered + s.r.queue && t.r.queue == [] && t.r.state.RClosed? && !t.w.state.Writable?
  {
    var closed := s.(r := ReadableControllerClose(s.r));
    UnblockFlow(closed);
    ErroringKeepsFlight(s.w);
    assert Terminate(s).r == closed.r && Terminate(s).delivered == s.delivered;
    hide Terminate, StartErroring;
    if s.r.queue != [] {
      ReadsDrain(Terminate(s), |s.r.queue|);
      assert s.r.queue[..|s.r.queue|] == s.r.queue;
    } else {
      assert Run(Terminate(s), Reads(0)) == Terminate(s);
    }
  }

  /** On every run: when the writable end is closed and the readable one is not, reading its queue delivers all that was enqueued. */
  lemma CloseDrains(transformer: Transformer, highWaterMark: HighWaterMark, steps: seq<Step>)
    ensures var s := Run(Initialize(transformer, highWaterMark), steps);
            s.w.state.WClosed? && s.r.state.Readable? ==>
              var t := Run(s, Reads(|s.r.queue|)); t.delivered == s.enqueued && t.r.state.RClosed?
  {
    var s := Run(Initialize(transformer, highWaterMark), steps);
    CloseReachesReader(transformer, highWaterMark, steps);
    RunInv(transformer, highWaterMark, steps);
    hide Initialize;
    if s.w.state.WClosed? && s.r.state.Readable? {
      ReadsDrain(s, |s.r.queue|);
      assert s.r.queue[..|s.r.queue|] == s.r.queue;
    }
  }

  // ---------- what single operations come to ----------

  /** When the flush promise is fulfilled the close succeeds, unless the readable end was errored meanwhile. */
  lemma FulfilledFlushCloses(s: State)
    requires Control(s) && s.w.inFlight == Close(FlushPending)
    ensures var t := DoCloseReaction(DoFlushReaction(DoSettleFlush(s, true)));
            if s.r.state.RErrored? then t.w.state.Errored? && t.r == s.r
            else
              && t.w.state.WClosed? && !CanCloseOrEnqueue(t.r) && t.r.queue == s.r.queue
              && (s.r.queue == [] ==> t.r.state.RClosed?) && (s.r.queue != [] ==> t.r.state.Readable?)
  {
  }

  /** When it is rejected both ends are errored. */
  lemma RejectedFlushErrors(s: State)
    requires Control(s) && s.w.inFlight == Close(FlushPending)
    ensures var t := DoCloseReaction(DoFlushReaction(DoSettleFlush(s, false)));
            t.w.state.Errored? && !t.r.state.Readable? && (s.r.state.Readable? ==> t.r.state.RErrored?)
  {
    ErrorIs(DoSettleFlush(s, false));
    hide Error;
  }

  /** A close is queued, and starts as soon as it can. */
  lemma CloseAccepted(s: State)
    requires Control(s) && s.w.state.Writable?
    ensures CloseQueuedOrInFlight(DoClose(s).w)
    ensures s.w.started && s.w.inFlight.Idle? ==> DoClose(s).w.inFlight.Close? && DoClose(s).calls == s.calls + [FlushCall]
  {
  }

  /** A rejected transform errors both ends. */
  lemma RejectionErrors(s: State)
    requires Control(s) && s.w.inFlight == Write(Transforming) && s.transformer.Transformer?
    ensures var t := DoWriteReaction(DoTransformCatch(DoSettleTransform(s, false)));
            t.w.state.Errored? && !t.r.state.Readable? && (s.r.state.Readable? ==> t.r.state.RErrored?) && t.w.queue == []
  {
    var settled := DoSettleTransform(s, false);
    var caught := DoTransformCatch(settled);
    ErrorIs(settled);
    assert caught.w.inFlight == Write(WriteSettled(false)) && !caught.w.state.Writable? && !caught.w.state.WClosed? && !caught.w.state.Errored?;
    hide DoTransformCatch, Error, DoSettleTransform;
    RejectedWriteEnds(caught);
  }

  lemma ErrorIs(s: State)
    ensures var t := Error(s);
            && t.r == ReadableError(s.r) && t.w == (if s.w.state.Writable? then StartErroring(s.w) else s.w)
  {
    hide ErrorWritableAndUnblockWrite;
    UnblockFlow(s.(r := ReadableError(s.r)));
  }

  lemma RejectedWriteEnds(s: State)
    requires s.w.inFlight == Write(WriteSettled(false)) && s.w.state.Erroring? && !s.r.state.Readable?
    ensures var t := DoWriteReaction(s); t.w.state.Errored? && t.r == s.r && t.w.queue == []
  {
    ErrorIs(s.(w := FinishErroring(s.w.(inFlight := Idle)).(pendingAbort := NoAbort)));
    hide Error;
  }

  /** A fulfilled transform makes way for the next chunk. */
  lemma FulfilledTransformMovesOn(s: State)
    requires Control(s) && s.w.inFlight == Write(Transforming) && s.transformer.Transformer? && s.w.state.Writable?
    ensures var t := DoWriteReaction(DoSettleTransform(s, true));
            && (t.w.queue == s.w.queue[1..] || t.w.state.Errored? || t.w.state.Erroring?)
            && (s.w.queue[1..] == [] && !s.w.closeQueued ==> t.w.inFlight.Idle? && t.w.queue == [] && t.w.state.Writable? && t.r == s.r)
  {
    var idle := s.(w := s.w.(inFlight := Idle, queue := s.w.queue[1..]));
    AdvanceKeepsQueue(idle);
    hide AdvanceQueueIfNeeded;
  }

  lemma AdvanceKeepsQueue(s: State)
    requires s.w.state.Writable? && s.w.inFlight.Idle?
    ensures var t := AdvanceQueueIfNeeded(s);
            && (t.w.queue == s.w.queue || t.w.state.Errored? || t.w.state.Erroring?)
            && (s.w.queue == [] && !s.w.closeQueued ==> t == s)
  {
    hide Enqueue, StartErroring;
    forall x: State, chunk ensures Enqueue(x, chunk).0.w == x.w || Enqueue(x, chunk).0.w == StartErroring(x.w) { EnqueueWritable(x, chunk); }
    forall w ensures StartErroring(w).state.Erroring? || StartErroring(w).state.Errored? { ErroringState(w); }
  }

  lemma EnqueueWritable(s: State, chunk: Chunk)
    ensures Enqueue(s, chunk).0.w == s.w || Enqueue(s, chunk).0.w == StartErroring(s.w)
  {
    hide ShouldCallPull, CallPullIfNeeded, ErrorWritableAndUnblockWrite, StartErroring;
    if s.r.readRequests > 0 {
      PullFlow(s.(r := s.r.(readRequests := s.r.readRequests - 1),
                  enqueued := s.enqueued + [chunk], delivered := s.delivered + [chunk]));
    }
    PullFlow(s.(r := s.r.(queue := s.r.queue + [chunk]), enqueued := s.enqueued + [chunk]));
    UnblockFlow(s.(r := ReadableError(s.r)));
  }

  lemma ErroringState(w: WritableStream)
    ensures StartErroring(w).state.Erroring? || StartErroring(w).state.Errored?
  {
  }

  /** Which chunks the writable end takes, and that one it cannot size errors it. */
  lemma WritesAccepted(s: State, chunk: Chunk)
    requires Control(s)
    ensures var t := DoWrite(s, chunk);
            && t.written == (if s.w.state.Writable? && chunk.writableSizeOk && !s.w.closeQueued && !s.w.inFlight.Close? then s.written + [chunk] else s.written)
            && (!chunk.writableSizeOk ==> !t.w.state.Writable?)
  {
    hide AdvanceQueueIfNeeded, StartErroring;
    forall x: State ensures AdvanceQueueIfNeeded(x).written == x.written { AdvanceWritten(x); }
    ErroringState(s.w);
  }

  lemma AdvanceWritten(s: State)
    ensures AdvanceQueueIfNeeded(s).written == s.written
  {
    hide Enqueue, StartErroring;
    forall x: State, chunk ensures Enqueue(x, chunk).0.written == x.written { EnqueueWritten(x, chunk); }
  }

  lemma EnqueueWritten(s: State, chunk: Chunk)
    ensures Enqueue(s, chunk).0.written == s.written
  {
    hide ShouldCallPull, CallPullIfNeeded, ErrorWritableAndUnblockWrite, StartErroring;
    if s.r.readRequests > 0 {
      PullFlow(s.(r := s.r.(readRequests := s.r.readRequests - 1),
                  enqueued := s.enqueued + [chunk], delivered := s.delivered + [chunk]));
    }
    PullFlow(s.(r := s.r.(queue := s.r.queue + [chunk]), enqueued := s.enqueued + [chunk]));
    UnblockFlow(s.(r := ReadableError(s.r)));
  }

  /** An enqueued chunk goes to a waiting read or to the end of the queue; one that cannot be sized errors the readable end. */
  lemma EnqueueDelivers(s: State, chunk: Chunk)
    requires CanCloseOrEnqueue(s.r)
    ensures var (t, ok) := Enqueue(s, chunk);
            && (ok <==> s.r.readRequests > 0 || (chunk.readableSize.Size? && chunk.readableSize.value >= 0.0))
            && (ok && s.r.readRequests > 0 ==>
                  t.delivered == s.delivered + [chunk] && t.r.readRequests == s.r.readRequests - 1 && t.r.queue == s.r.queue)
            && (ok && s.r.readRequests == 0 ==> t.r.queue == s.r.queue + [chunk] && t.delivered == s.delivered)
            && (ok ==> t.enqueued == s.enqueued + [chunk] && t.r.state.Readable?)
            && (!ok ==> t.enqueued == s.enqueued && t.r.state.RErrored? && !t.w.state.Writable?)
  {
    hide ShouldCallPull, CallPullIfNeeded, ErrorWritableAndUnblockWrite, StartErroring;
    ErroringState(s.w);
    if s.r.readRequests > 0 {
      PullFlow(s.(r := s.r.(readRequests := s.r.readRequests - 1),
                  enqueued := s.enqueued + [chunk], delivered := s.delivered + [chunk]));
    }
    PullFlow(s.(r := s.r.(queue := s.r.queue + [chunk]), enqueued := s.enqueued + [chunk]));
    UnblockFlow(s.(r := ReadableError(s.r)));
  }

  /** A rejected start errors both ends, once both reactions have run. */
  lemma RejectedStartErrors(s: State)
    requires Control(s) && s.start.Rejected? && !s.w.started
    ensures var t := DoWritableStart(DoReadableStart(s));
            !t.r.state.Readable? && !t.w.state.Writable? && (s.r.state.Readable? ==> t.r.state.RErrored?)
  {
    var read := DoReadableStart(s);
    var started := read.(w := DealWithRejection(read.w.(started := true)));
    ErrorIs(started.(w := started.w.(pendingAbort := NoAbort)));
    hide Error;
  }

  /** A cancel closes the readable end at once and errors a writable end that is still writable. */
  lemma CancelCloses(s: State)
    requires s.r.state.Readable?
    ensures DoCancel(s).r.state.RClosed? && DoCancel(s).r.queue == [] && DoCancel(s).r.cancelled && !DoCancel(s).w.state.Writable?
  {
    hide ErrorWritableAndUnblockWrite, StartErroring;
    ErroringState(s.w);
    UnblockFlow(s.(r := s.r.(state := RClosed, readRequests := 0, queue := [], cancelled := true)));
  }

  /** Without a transform callback a chunk is enqueued as it is; with one the callback decides. */
  lemma MissingTransformPasses(s: State, chunk: Chunk)
    ensures var t := PerformTransform(s, chunk);
            if s.transformer.Transformer? && s.transformer.transform then t.w.inFlight == Write(Transforming) && t.enqueued == s.enqueued
            else if CanCloseOrEnqueue(s.r) && (s.r.readRequests > 0 || (chunk.readableSize.Size? && chunk.readableSize.value >= 0.0))
            then t.w.inFlight == Write(WriteSettled(true)) && t.enqueued == s.enqueued + [chunk]
            else t.w.inFlight == Write(TransformRejected) && t.enqueued == s.enqueued
  {
    var called := SetWrite(AddFault(s, s.cleared, NullTransform).(calls := s.calls + [TransformCall(chunk)]), Transforming);
    if CanCloseOrEnqueue(s.r) {
      EnqueueDelivers(called, chunk);
    }
    hide ReadableEnqueue, UpdateBackpressure, ErrorWritableAndUnblockWrite;
  }

  /** Without a flush callback the flush is done at once, and otherwise when the callback's promise is fulfilled. */
  lemma MissingFlushPasses(s: State)
    ensures var t := DefaultSinkClose(s);
            && t.calls == s.calls + [FlushCall] && t.r == s.r
            && if s.transformer.Transformer? && s.transformer.flush
               then t.w.inFlight == Close(Flushing) && DoFlushReturns(t).w.inFlight == Close(FlushPending) && DoFlushReturns(t).cleared
               else t.w.inFlight == Close(FlushSettled(true)) && t.cleared
  {
  }

  /** A write under backpressure waits for the current change-promise; one without is transformed at once. */
  lemma BackpressureDefers(s: State, chunk: Chunk)
    requires Control(s) && s.w.state.Writable? && s.w.started && s.w.inFlight.Idle? && chunk.writableSizeOk
    ensures s.backpressure ==> DoWrite(s, chunk).w.inFlight == Write(Deferred(s.changePromise)) && DoWrite(s, chunk).calls == s.calls
    ensures !s.backpressure ==> DoWrite(s, chunk).calls == s.calls + [TransformCall(chunk)]
  {
    hide Enqueue;
    forall x: State ensures Enqueue(x, chunk).0.calls == x.calls { EnqueueCalls(x, chunk); }
  }

  lemma EnqueueCalls(s: State, chunk: Chunk)
    ensures Enqueue(s, chunk).0.calls == s.calls
  {
    EnqueueNoCalls(s, chunk);
    hide Enqueue;
  }
}
