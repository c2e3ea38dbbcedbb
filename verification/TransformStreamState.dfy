/**
  The state of one TransformStream and the algorithms of
  builtins/web/streams/transform-stream.cpp and transform-stream-default-controller.cpp as functions
  on it.

  The readable and the writable end are the abstract machines of sections 4 and 5 of the WHATWG
  Streams Standard; the transform stream sits between them (section 6). Every debug assertion of the
  two source files, and every call through an algorithm pointer that ClearAlgorithms may have nulled,
  records a `Fault` when it fails instead of stopping the model, so that "the assertion never fails"
  is a statement about runs.
*/
module TransformStreamState {

  // ---------- chunks, promises, configuration ----------

  /** What the readable strategy's size callback does with a chunk. */
  datatype Size = Throws | Size(value: real)

  /** A chunk, with what the two strategies' size callbacks make of it. */
  datatype Chunk = Chunk(id: int, writableSizeOk: bool, readableSize: Size)

  datatype HighWaterMark = Unlimited | Limit(value: real)

  /** Change-promises are numbered in the order of their creation; 0 is the null slot. */
  type PromiseId = nat

  datatype StartPromise = Pending | Fulfilled | Rejected

  /** `transformer` is the value passed to the constructor; the two flags say which callbacks it has. */
  datatype Transformer = NoTransformer | Transformer(transform: bool, flush: bool)

  // ---------- the readable end (section 4) ----------

  datatype ReadableState = Readable | RClosed | RErrored

  datatype ReadableStream = ReadableStream(
    state: ReadableState,
    started: bool,
    pulling: bool,
    pullAgain: bool,
    pullPromise: PromiseId,
    closeRequested: bool,
    cancelled: bool,
    queue: seq<Chunk>,
    readRequests: nat,
    highWaterMark: HighWaterMark)

  function QueueSize(queue: seq<Chunk>): real {
    if queue == [] then 0.0
    else (if queue[0].readableSize.Size? then queue[0].readableSize.value else 0.0) + QueueSize(queue[1..])
  }

  predicate CanCloseOrEnqueue(r: ReadableStream) {
    r.state.Readable? && !r.closeRequested
  }

  predicate ShouldCallPull(r: ReadableStream) {
    CanCloseOrEnqueue(r) && r.started &&
    (r.readRequests > 0 || r.highWaterMark.Unlimited? || r.highWaterMark.value - QueueSize(r.queue) > 0.0)
  }

  function ReadableError(r: ReadableStream): ReadableStream {
    if r.state.Readable? then r.(state := RErrored, queue := [], readRequests := 0) else r
  }

  /** ReadableStreamDefaultControllerClose; the caller has checked CanCloseOrEnqueue. */
  function ReadableControllerClose(r: ReadableStream): ReadableStream {
    if r.queue == [] then r.(closeRequested := true, state := RClosed, readRequests := 0)
    else r.(closeRequested := true)
  }

  // ---------- the writable end (section 5) ----------

  datatype WritableState = Writable | Erroring | Errored | WClosed

  /**
    How far the sink's write of the first queued chunk has come. `Refused`: the deferred write found
    the stream erroring. `TransformRejected`: the transform promise is rejected and its catch handler
    has not run. `WriteSettled`: the promise returned to the writable stream is settled.
  */
  datatype WritePhase = Deferred(promise: PromiseId) | Refused | Transforming | TransformRejected | WriteSettled(ok: bool)

  /** `Flushing`: inside the flush call, before ClearAlgorithms. */
  datatype ClosePhase = Flushing | FlushPending | FlushSettled(flushOk: bool) | CloseSettled(closeOk: bool)

  datatype InFlight = Idle | Write(write: WritePhase) | Close(close: ClosePhase)

  datatype AbortRequest = NoAbort | Abort(wasAlreadyErroring: bool)

  datatype WritableStream = WritableStream(
    state: WritableState,
    started: bool,
    queue: seq<Chunk>,
    closeQueued: bool,
    inFlight: InFlight,
    pendingAbort: AbortRequest)

  /** Resets the queue; a pending abort is left for `SettleAbort`. */
  function FinishErroring(w: WritableStream): WritableStream {
    w.(state := Errored, queue := [], closeQueued := false)
  }

  function StartErroring(w: WritableStream): WritableStream {
    var erroring := w.(state := Erroring);
    if w.inFlight.Idle? && w.started then FinishErroring(erroring) else erroring
  }

  function DealWithRejection(w: WritableStream): WritableStream {
    match w.state
    case Writable => StartErroring(w)
    case Erroring => FinishErroring(w)
    case _ => w
  }

  // ---------- the transform stream (section 6) ----------

  datatype Fault =
    | SameBackpressure           // transform-stream.cpp:784
    | PullWithoutBackpressure    // transform-stream.cpp:529
    | NoChangePromise            // transform-stream.cpp:532, 618
    | WriteNotWritable           // transform-stream.cpp:607
    | DeferredWriteNotWritable   // transform-stream.cpp:584
    | NullTransform              // transform-stream-default-controller.cpp:436-437
    | NullFlush                  // transform-stream.cpp:743-744
    | EnqueueClearsBackpressure  // transform-stream-default-controller.cpp:226

  datatype Call = TransformCall(chunk: Chunk) | FlushCall

  /**
    `resolutions` counts the resolve calls made on each change-promise. The last five fields are
    logs: chunks accepted by the writable end, chunks enqueued to and delivered by the readable end,
    calls of the transform and flush algorithms, and faults.
  */
  datatype State = State(
    transformer: Transformer,
    start: StartPromise,
    backpressure: bool,
    changePromise: PromiseId,
    resolutions: multiset<PromiseId>,
    cleared: bool,
    r: ReadableStream,
    w: WritableStream,
    written: seq<Chunk>,
    enqueued: seq<Chunk>,
    delivered: seq<Chunk>,
    calls: seq<Call>,
    faults: set<Fault>)

  function AddFault(s: State, failed: bool, fault: Fault): State {
    if failed then s.(faults := s.faults + {fault}) else s
  }

  /** The promise is created with the number after the one it replaces. */
  function SetBackpressure(s: State, backpressure: bool): State {
    AddFault(s, s.backpressure == backpressure, SameBackpressure).(
      resolutions := if s.changePromise != 0 then s.resolutions + multiset{s.changePromise} else s.resolutions,
      changePromise := s.changePromise + 1,
      backpressure := backpressure)
  }

  /** The state after Initialize. */
  function Initialize(transformer: Transformer, highWaterMark: HighWaterMark): State {
    var r := ReadableStream(Readable, false, false, false, 0, false, false, [], 0, highWaterMark);
    var w := WritableStream(Writable, false, [], false, Idle, NoAbort);
    SetBackpressure(State(transformer, Pending, false, 0, multiset{}, false, r, w, [], [], [], [], {}), true)
  }

  function ErrorWritableAndUnblockWrite(s: State): State {
    var cleared := s.(cleared := true);
    var errored := if s.w.state.Writable? then cleared.(w := StartErroring(s.w)) else cleared;
    if errored.backpressure then SetBackpressure(errored, false) else errored
  }

  function Error(s: State): State {
    ErrorWritableAndUnblockWrite(s.(r := ReadableError(s.r)))
  }

  function DefaultSourcePull(s: State): State {
    SetBackpressure(
      AddFault(AddFault(s, !s.backpressure, PullWithoutBackpressure), s.changePromise == 0, NoChangePromise), false)
  }

  function CallPullIfNeeded(s: State): State {
    if !ShouldCallPull(s.r) then s
    else if s.r.pulling then s.(r := s.r.(pullAgain := true))
    else
      var pulled := DefaultSourcePull(s);
      pulled.(r := pulled.r.(pulling := true, pullPromise := pulled.changePromise))
  }

  /** ReadableStreamDefaultControllerEnqueue: false when the size callback's result is unusable. */
  function ReadableEnqueue(s: State, chunk: Chunk): (State, bool) {
    if s.r.readRequests > 0 then
      (CallPullIfNeeded(s.(r := s.r.(readRequests := s.r.readRequests - 1),
                           enqueued := s.enqueued + [chunk], delivered := s.delivered + [chunk])), true)
    else if chunk.readableSize.Throws? || chunk.readableSize.value < 0.0 then
      (s.(r := ReadableError(s.r)), false)
    else
      (CallPullIfNeeded(s.(r := s.r.(queue := s.r.queue + [chunk]), enqueued := s.enqueued + [chunk])), true)
  }

  /** Steps 6 and 7 of Enqueue. */
  function UpdateBackpressure(s: State): State {
    var backpressure := !ShouldCallPull(s.r);
    if backpressure == s.backpressure then s
    else SetBackpressure(AddFault(s, !backpressure, EnqueueClearsBackpressure), true)
  }

  function Enqueue(s: State, chunk: Chunk): (State, bool) {
    if !CanCloseOrEnqueue(s.r) then (s, false)
    else
      var (enqueued, ok) := ReadableEnqueue(s, chunk);
      if !ok then (ErrorWritableAndUnblockWrite(enqueued), false) else (UpdateBackpressure(enqueued), true)
  }

  function Terminate(s: State): State {
    ErrorWritableAndUnblockWrite(if CanCloseOrEnqueue(s.r) then s.(r := ReadableControllerClose(s.r)) else s)
  }

  function SetWrite(s: State, phase: WritePhase): State {
    s.(w := s.w.(inFlight := Write(phase)))
  }

  function SetClose(s: State, phase: ClosePhase): State {
    s.(w := s.w.(inFlight := Close(phase)))
  }

  /** PerformTransform with transform_algorithm_transformer as the algorithm. */
  function PerformTransform(s: State, chunk: Chunk): State {
    var called := SetWrite(AddFault(s, s.cleared, NullTransform).(calls := s.calls + [TransformCall(chunk)]), Transforming);
    if s.transformer.Transformer? && s.transformer.transform then called
    else
      var (enqueued, ok) := Enqueue(called, chunk);
      SetWrite(enqueued, if ok then WriteSettled(true) else TransformRejected)
  }

  function DefaultSinkWrite(s: State, chunk: Chunk): State {
    var checked := AddFault(s, !s.w.state.Writable?, WriteNotWritable);
    if s.backpressure then
      SetWrite(AddFault(checked, s.changePromise == 0, NoChangePromise), Deferred(s.changePromise))
    else PerformTransform(checked, chunk)
  }

  /** default_sink_write_algo_then_handler */
  function DeferredWriteThen(s: State, chunk: Chunk): State {
    if s.w.state.Erroring? then SetWrite(s, Refused)
    else PerformTransform(AddFault(s, !s.w.state.Writable?, DeferredWriteNotWritable), chunk)
  }

  /** transformPromise_catch_handler */
  function TransformCatch(s: State): State {
    SetWrite(Error(s), WriteSettled(false))
  }

  /** The synchronous part of DefaultSinkCloseAlgorithm, up to the end of the flush call. */
  function DefaultSinkClose(s: State): State {
    var called := AddFault(s, s.cleared, NullFlush).(calls := s.calls + [FlushCall]);
    if s.transformer.Transformer? && s.transformer.flush then SetClose(called, Flushing)
    else SetClose(called.(cleared := true), FlushSettled(true))
  }

  /** default_sink_close_algo_then_handler and default_sink_close_algo_catch_handler */
  function FlushReaction(s: State, ok: bool): State {
    if !ok then SetClose(Error(s), CloseSettled(false))
    else if s.r.state.RErrored? then SetClose(s, CloseSettled(false))
    else
      SetClose(if CanCloseOrEnqueue(s.r) then s.(r := ReadableControllerClose(s.r)) else s, CloseSettled(true))
  }

  // ---------- the writable end's calls into the sink ----------

  /** Runs the abort algorithm (DefaultSinkAbortAlgorithm) when an errored stream still owes it. */
  function SettleAbort(s: State): State {
    if s.w.state.Errored? && s.w.pendingAbort.Abort? then
      var settled := s.(w := s.w.(pendingAbort := NoAbort));
      if s.w.pendingAbort.wasAlreadyErroring then settled else Error(settled)
    else s
  }

  /** The request is marked as in flight before the sink algorithm is called. */
  function AdvanceQueueIfNeeded(s: State): State {
    if !s.w.started || !s.w.inFlight.Idle? then s
    else if s.w.state.Erroring? then SettleAbort(s.(w := FinishErroring(s.w)))
    else if s.w.queue != [] then DefaultSinkWrite(SetWrite(s, Transforming), s.w.queue[0])
    else if s.w.closeQueued then DefaultSinkClose(SetClose(s.(w := s.w.(closeQueued := false)), Flushing))
    else s
  }
}
