/**
  The steps a TransformStream can take.

  A step is an action of the program holding the two ends or the controller, or one reaction of the
  engine's job queue. Reactions may run in any order once their promise is settled, which covers the
  engine's order; a step that is not enabled leaves the state as it is.
*/
module TransformStreamSteps {
  import opened TransformStreamState

  datatype Step =
    | WriteChunk(chunk: Chunk)
    | CloseWritable
    | AbortWritable
    | Read
    | Cancel
    | ControllerEnqueue(enqueued: Chunk)
    | ControllerError
    | ControllerTerminate
    | SettleStart(startOk: bool)
    | ReadableStartReaction
    | WritableStartReaction
    | PullReaction
    | DeferredWriteReaction
    | SettleTransform(transformOk: bool)
    | TransformCatchReaction
    | WriteReaction
    | FlushReturns
    | SettleFlush(flushOk: bool)
    | FlushPromiseReaction
    | CloseReaction

  predicate CloseQueuedOrInFlight(w: WritableStream) {
    w.closeQueued || w.inFlight.Close?
  }

  function DoWrite(s: State, chunk: Chunk): State {
    var sized := if !chunk.writableSizeOk && s.w.state.Writable? then s.(w := StartErroring(s.w)) else s;
    if sized.w.state.Writable? && !CloseQueuedOrInFlight(sized.w) then
      AdvanceQueueIfNeeded(sized.(w := sized.w.(queue := sized.w.queue + [chunk]), written := s.written + [chunk]))
    else sized
  }

  function DoClose(s: State): State {
    if s.w.state.WClosed? || s.w.state.Errored? || CloseQueuedOrInFlight(s.w) then s
    else AdvanceQueueIfNeeded(s.(w := s.w.(closeQueued := true)))
  }

  function DoAbort(s: State): State {
    if s.w.pendingAbort.Abort? then s
    else match s.w.state
      case Writable => SettleAbort(s.(w := StartErroring(s.w.(pendingAbort := Abort(false)))))
      case Erroring => s.(w := s.w.(pendingAbort := Abort(true)))
      case _ => s
  }

  function DoRead(s: State): State {
    if !s.r.state.Readable? then s
    else if s.r.queue == [] then CallPullIfNeeded(s.(r := s.r.(readRequests := s.r.readRequests + 1)))
    else
      var taken := s.(r := s.r.(queue := s.r.queue[1..]), delivered := s.delivered + [s.r.queue[0]]);
      if s.r.closeRequested && taken.r.queue == [] then taken.(r := taken.r.(state := RClosed, readRequests := 0))
      else CallPullIfNeeded(taken)
  }

  function DoCancel(s: State): State {
    if !s.r.state.Readable? then s
    else ErrorWritableAndUnblockWrite(s.(r := s.r.(state := RClosed, readRequests := 0, queue := [], cancelled := true)))
  }

  function DoReadableStart(s: State): State {
    match s.start
    case Pending => s
    case Fulfilled => if s.r.started then s else CallPullIfNeeded(s.(r := s.r.(started := true)))
    case Rejected => s.(r := ReadableError(s.r))
  }

  function DoWritableStart(s: State): State {
    if s.start.Pending? || s.w.started then s
    else
      var started := s.(w := s.w.(started := true));
      if s.start.Fulfilled? then AdvanceQueueIfNeeded(started)
      else SettleAbort(started.(w := DealWithRejection(started.w)))
  }

  function DoPullReaction(s: State): State {
    if !s.r.pulling || s.r.pullPromise !in s.resolutions then s
    else
      var pulled := s.(r := s.r.(pulling := false, pullAgain := false));
      if s.r.pullAgain then CallPullIfNeeded(pulled) else pulled
  }

  function DoDeferredWrite(s: State): State {
    if s.w.inFlight.Write? && s.w.inFlight.write.Deferred? && s.w.inFlight.write.promise in s.resolutions
       && s.w.queue != []
    then DeferredWriteThen(s, s.w.queue[0])
    else s
  }

  function DoWriteReaction(s: State): State {
    if !s.w.inFlight.Write? then s
    else match s.w.inFlight.write
      case WriteSettled(true) =>
        var rest := if s.w.queue == [] then [] else s.w.queue[1..];
        AdvanceQueueIfNeeded(s.(w := s.w.(inFlight := Idle, queue := rest)))
      case WriteSettled(false) => SettleAbort(s.(w := DealWithRejection(s.w.(inFlight := Idle))))
      case Refused => SettleAbort(s.(w := DealWithRejection(s.w.(inFlight := Idle))))
      case _ => s
  }

  /** Without a transformer there is no start callback that could fail. */
  function DoSettleStart(s: State, ok: bool): State {
    if s.start.Pending? && (ok || s.transformer.Transformer?) then s.(start := if ok then Fulfilled else Rejected) else s
  }

  /** The promise returned by the transform callback settles. */
  function DoSettleTransform(s: State, ok: bool): State {
    if s.w.inFlight == Write(Transforming) && s.transformer.Transformer? then
      SetWrite(s, if ok then WriteSettled(true) else TransformRejected)
    else s
  }

  function DoTransformCatch(s: State): State {
    if s.w.inFlight == Write(TransformRejected) then TransformCatch(s) else s
  }

  function DoFlushReturns(s: State): State {
    if s.w.inFlight == Close(Flushing) then SetClose(s.(cleared := true), FlushPending) else s
  }

  function DoSettleFlush(s: State, ok: bool): State {
    if s.w.inFlight == Close(FlushPending) then SetClose(s, FlushSettled(ok)) else s
  }

  function DoFlushReaction(s: State): State {
    if s.w.inFlight.Close? && s.w.inFlight.close.FlushSettled? then FlushReaction(s, s.w.inFlight.close.flushOk) else s
  }

  function DoCloseReaction(s: State): State {
    if !s.w.inFlight.Close? then s
    else match s.w.inFlight.close
      case CloseSettled(true) => s.(w := s.w.(inFlight := Idle, state := WClosed, pendingAbort := NoAbort))
      case CloseSettled(false) => s.(w := DealWithRejection(s.w.(inFlight := Idle, pendingAbort := NoAbort)))
      case _ => s
  }

  function Apply(s: State, step: Step): State {
    match step
    case WriteChunk(chunk) => DoWrite(s, chunk)
    case CloseWritable => DoClose(s)
    case AbortWritable => DoAbort(s)
    case Read => DoRead(s)
    case Cancel => DoCancel(s)
    case ControllerEnqueue(chunk) => if s.transformer.Transformer? then Enqueue(s, chunk).0 else s
    case ControllerError => if s.transformer.Transformer? then Error(s) else s
    case ControllerTerminate => if s.transformer.Transformer? then Terminate(s) else s
    case SettleStart(ok) => DoSettleStart(s, ok)
    case ReadableStartReaction => DoReadableStart(s)
    case WritableStartReaction => DoWritableStart(s)
    case PullReaction => DoPullReaction(s)
    case DeferredWriteReaction => DoDeferredWrite(s)
    case SettleTransform(ok) => DoSettleTransform(s, ok)
    case TransformCatchReaction => DoTransformCatch(s)
    case WriteReaction => DoWriteReaction(s)
    case FlushReturns => DoFlushReturns(s)
    case SettleFlush(ok) => DoSettleFlush(s, ok)
    case FlushPromiseReaction => DoFlushReaction(s)
    case CloseReaction => DoCloseReaction(s)
  }

  function Run(s: State, steps: seq<Step>): State {
    if steps == [] then s else Apply(Run(s, steps[..|steps| - 1]), steps[|steps| - 1])
  }
}
