/**
  The life of a fetch event (builtins/web/fetch/fetch_event.cpp): its state, whether it is being
  dispatched, the count of pending promises, and the one response it may send.
*/
module FetchEventState {

  datatype Phase = Unhandled | WaitToRespond | ResponseStreaming | ResponseDone | RespondedWithError

  function Rank(phase: Phase): nat {
    match phase
    case Unhandled => 0
    case WaitToRespond => 1
    case ResponseStreaming => 2
    case ResponseDone => 3
    case RespondedWithError => 4
  }

  /** The assertions of the source. */
  datatype Fault =
    | CountNotPositive     // lines 32 and 42
    | SentTooLate          // line 145
    | ErrorTooLate         // line 300
    | AlreadyDispatching   // line 421
    | NotDispatching       // line 426
    | StateNotRaised       // line 438

  /** The reactions to the promise given to `respondWith`. */
  datatype Answer = NotAsked | Awaited | Answered

  datatype Event = Event(
    state: Phase,
    dispatching: bool,
    pending: int,
    counted: set<nat>,       // the counted promises whose decrementing reaction has not run
    promises: nat,           // how many promises were counted
    answer: Answer,
    reader: bool,            // the response's body is being read
    sends: nat,              // how often a response was sent to the outparam
    faults: set<Fault>)

  const FRESH := Event(Unhandled, false, 0, {}, 0, NotAsked, false, 0, {})

  predicate ResponseStarted(e: Event) {
    !e.state.Unhandled? && !e.state.WaitToRespond?
  }

  predicate IsActive(e: Event) {
    e.dispatching || e.state.ResponseStreaming? || e.pending > 0
  }

  function Fail(e: Event, bad: bool, fault: Fault): Event {
    if bad then e.(faults := e.faults + {fault}) else e
  }

  function AddPendingPromise(e: Event): Event {
    Fail(e, e.pending + 1 <= 0, CountNotPositive).(pending := e.pending + 1, counted := e.counted + {e.promises}, promises := e.promises + 1)
  }

  function DecPendingPromiseCount(e: Event, promise: nat): Event {
    Fail(e, e.pending <= 0, CountNotPositive).(pending := e.pending - 1, counted := e.counted - {promise})
  }

  function SetState(e: Event, next: Phase): Event {
    Fail(e, Rank(next) <= Rank(e.state), StateNotRaised).(state := next)
  }

  function SendResponse(e: Event, next: Phase): Event {
    SetState(Fail(e, ResponseStarted(e), SentTooLate).(sends := e.sends + 1), next)
  }

  function RespondWithError(e: Event, bodyOk: bool): Event {
    var checked := Fail(e, ResponseStarted(e), ErrorTooLate);
    if bodyOk then SendResponse(checked, RespondedWithError) else checked
  }

  // ---------- what the handlers and the promise jobs call ----------

  function RespondWith(e: Event): Event {
    if !e.dispatching || !e.state.Unhandled? then e
    else SetState(AddPendingPromise(e), WaitToRespond).(answer := Awaited)
  }

  function WaitUntil(e: Event): Event {
    if IsActive(e) then AddPendingPromise(e) else e
  }

  /** What the promise given to `respondWith` turned out to hold. */
  datatype Held =
    | NoResponse(errorBodyOk: bool)
    | Unusable                                                      // `maybe_stream_body` throws
    | Usable(appendOk: bool, streaming: bool, reader: bool)         // a reader always streams

  /** `start_response`: an incoming response's body must be appended to the outgoing one first. */
  function StartResponse(e: Event, appendOk: bool, streaming: bool): Event {
    if appendOk then SendResponse(e, if streaming then ResponseStreaming else ResponseDone) else e
  }

  function ResponsePromiseThen(e: Event, held: Held): Event {
    var taken := e.(answer := Answered);
    match held
    case NoResponse(errorBodyOk) => RespondWithError(taken, errorBodyOk)
    case Unusable => taken
    case Usable(appendOk, streaming, reader) => StartResponse(taken.(reader := reader), appendOk, streaming)
  }

  function ResponsePromiseCatch(e: Event, errorBodyOk: bool): Event {
    RespondWithError(e.(answer := Answered), errorBodyOk)
  }

  /** The `done` branch of `body_reader_then_handler` for a response. */
  function BodyDone(e: Event): Event {
    SetState(e, ResponseDone).(reader := false)
  }

  /** `body_reader_catch_handler`, or a chunk that cannot be written: reading just stops. */
  function BodyFails(e: Event): Event {
    e.(reader := false)
  }

  datatype Call = CallRespondWith | CallWaitUntil

  function DoCalls(e: Event, calls: seq<Call>): Event
    decreases |calls|
  {
    if calls == [] then e
    else
      var before := DoCalls(e, calls[..|calls| - 1]);
      if calls[|calls| - 1].CallRespondWith? then RespondWith(before) else WaitUntil(before)
  }

  // ---------- dispatching ----------

  datatype Handler = Handler(calls: seq<Call>, throws: bool)

  function StartDispatching(e: Event): Event {
    Fail(e, e.dispatching, AlreadyDispatching).(dispatching := true)
  }

  function StopDispatching(e: Event): Event {
    Fail(e, !e.dispatching, NotDispatching).(dispatching := false)
  }

  /** The handlers from number `i` on: the first that throws or responds is the last to be called. */
  function CallHandlers(e: Event, handlers: seq<Handler>, i: nat): Event
    requires i <= |handlers|
    decreases |handlers| - i
  {
    if i == |handlers| then e
    else
      var after := DoCalls(e, handlers[i].calls);
      if handlers[i].throws || !after.state.Unhandled? then after else CallHandlers(after, handlers, i + 1)
  }

  function DispatchFetchEvent(e: Event, handlers: seq<Handler>): Event {
    StopDispatching(CallHandlers(StartDispatching(e), handlers, 0))
  }

  // ---------- the event loop ----------

  datatype Step =
    | Decrement(promise: nat)
    | Fulfilled(held: Held)
    | Rejected(errorBodyOk: bool)
    | BodyEnds
    | BodyBreaks
    | UserCode(calls: seq<Call>)

  /** A reaction runs once, after it was registered. */
  predicate Enabled(e: Event, step: Step) {
    match step
    case Decrement(promise) => promise in e.counted
    case Fulfilled(held) => e.answer.Awaited? && (held.Usable? && held.reader ==> held.streaming && held.appendOk)
    case Rejected(_) => e.answer.Awaited?
    case BodyEnds => e.reader
    case BodyBreaks => e.reader
    case UserCode(_) => true
  }

  function Apply(e: Event, step: Step): Event {
    match step
    case Decrement(promise) => DecPendingPromiseCount(e, promise)
    case Fulfilled(held) => ResponsePromiseThen(e, held)
    case Rejected(errorBodyOk) => ResponsePromiseCatch(e, errorBodyOk)
    case BodyEnds => BodyDone(e)
    case BodyBreaks => BodyFails(e)
    case UserCode(calls) => DoCalls(e, calls)
  }

  predicate AllEnabled(e: Event, steps: seq<Step>)
    decreases |steps|
  {
    steps != [] ==> AllEnabled(e, steps[..|steps| - 1]) && Enabled(ApplyAll(e, steps[..|steps| - 1]), steps[|steps| - 1])
  }

  function ApplyAll(e: Event, steps: seq<Step>): Event
    decreases |steps|
  {
    if steps == [] then e else Apply(ApplyAll(e, steps[..|steps| - 1]), steps[|steps| - 1])
  }

  // ---------- a request from beginning to end ----------

  /** What happens around the event: whether each fallible part succeeds, and what runs. */
  datatype Request = Request(initOk: bool, handlers: seq<Handler>, steps: seq<Step>, loopOk: bool, errorBodyOk: bool)

  function Looped(e: Event, request: Request): Event {
    ApplyAll(DispatchFetchEvent(e, request.handlers), request.steps)
  }

  /** The incoming-request entry point. */
  function HandleRequest(e: Event, request: Request): Event {
    if !request.initOk then e
    else
      var looped := Looped(e, request);
      if request.loopOk && !ResponseStarted(looped) then RespondWithError(looped, request.errorBodyOk) else looped
  }
}
