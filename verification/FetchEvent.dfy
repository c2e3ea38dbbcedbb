/** Theorems about fetch events, and the event's methods as they run. */
module FetchEvent {
  import opened FetchEventState

  // ---------- the invariant ----------

  predicate Inv(e: Event) {
    && e.faults == {}
    && e.pending == |e.counted|
    && (forall p :: p in e.counted ==> p < e.promises)
    && e.sends == (if ResponseStarted(e) then 1 else 0)
    && (e.answer.NotAsked? <==> e.state.Unhandled?)
    && (e.answer.Awaited? ==> e.state.WaitToRespond?)
    && (e.reader ==> e.state.ResponseStreaming?)
  }

  /** Nothing goes back: the state only rises, the response is not sent again, and no promise is uncounted unseen. */
  predicate Later(e: Event, f: Event) {
    && Rank(e.state) <= Rank(f.state)
    && e.sends <= f.sends
    && (ResponseStarted(e) ==> f.sends == e.sends)
  }

  lemma AddKeepsInv(e: Event)
    requires Inv(e)
    ensures Inv(AddPendingPromise(e))
  {
    assert e.promises !in e.counted;
  }

  lemma RespondWithKeepsInv(e: Event)
    requires Inv(e)
    ensures Inv(RespondWith(e)) && Later(e, RespondWith(e)) && RespondWith(e).dispatching == e.dispatching
  {
    AddKeepsInv(e);
  }

  lemma CallKeepsInv(e: Event, call: Call)
    requires Inv(e)
    ensures var f := if call.CallRespondWith? then RespondWith(e) else WaitUntil(e);
            Inv(f) && Later(e, f) && f.dispatching == e.dispatching
  {
    RespondWithKeepsInv(e);
    AddKeepsInv(e);
    hide Inv, RespondWith;
  }

  lemma {:induction false} CallsKeepInv(e: Event, calls: seq<Call>)
    requires Inv(e)
    ensures Inv(DoCalls(e, calls)) && Later(e, DoCalls(e, calls)) && DoCalls(e, calls).dispatching == e.dispatching
    decreases |calls|
  {
    if calls != [] {
      CallsKeepInv(e, calls[..|calls| - 1]);
      CallKeepsInv(DoCalls(e, calls[..|calls| - 1]), calls[|calls| - 1]);
    }
  }

  lemma {:induction false} HandlersKeepInv(e: Event, handlers: seq<Handler>, i: nat)
    requires Inv(e) && i <= |handlers|
    ensures Inv(CallHandlers(e, handlers, i)) && Later(e, CallHandlers(e, handlers, i))
    ensures CallHandlers(e, handlers, i).dispatching == e.dispatching
    decreases |handlers| - i
  {
    if i < |handlers| {
      CallsKeepInv(e, handlers[i].calls);
      var after := DoCalls(e, handlers[i].calls);
      if !handlers[i].throws && after.state.Unhandled? {
        HandlersKeepInv(after, handlers, i + 1);
      }
    }
  }

  lemma DispatchKeepsInv(e: Event, handlers: seq<Handler>)
    requires Inv(e) && !e.dispatching
    ensures Inv(DispatchFetchEvent(e, handlers)) && Later(e, DispatchFetchEvent(e, handlers))
    ensures !DispatchFetchEvent(e, handlers).dispatching
  {
    HandlersKeepInv(StartDispatching(e), handlers, 0);
  }

  /** Every step of the event loop passes the assertions it meets, and moves forward. */
  lemma StepKeepsInv(e: Event, step: Step)
    requires Inv(e) && !e.dispatching && Enabled(e, step)
    ensures Inv(Apply(e, step)) && Later(e, Apply(e, step)) && !Apply(e, step).dispatching
  {
    match step
    case UserCode(calls) => CallsKeepInv(e, calls);
    case Decrement(promise) => DecrementKeepsInv(e, promise);
    case Fulfilled(held) => AnswerKeepsInv(e, held, true);
    case Rejected(errorBodyOk) => AnswerKeepsInv(e, Unusable, errorBodyOk);
    case _ =>
  }

  lemma DecrementKeepsInv(e: Event, promise: nat)
    requires Inv(e) && promise in e.counted
    ensures Inv(DecPendingPromiseCount(e, promise)) && Later(e, DecPendingPromiseCount(e, promise))
    ensures DecPendingPromiseCount(e, promise).dispatching == e.dispatching
  {
    assert |e.counted - {promise}| == |e.counted| - 1;
  }

  lemma AnswerKeepsInv(e: Event, held: Held, errorBodyOk: bool)
    requires Inv(e) && e.answer.Awaited? && (held.Usable? && held.reader ==> held.streaming && held.appendOk)
    ensures var f, g := ResponsePromiseThen(e, held), ResponsePromiseCatch(e, errorBodyOk);
            && Inv(f) && Later(e, f) && f.dispatching == e.dispatching
            && Inv(g) && Later(e, g) && g.dispatching == e.dispatching
  {
  }

  lemma {:induction false} StepsKeepInv(e: Event, steps: seq<Step>)
    requires Inv(e) && !e.dispatching && AllEnabled(e, steps)
    ensures Inv(ApplyAll(e, steps)) && Later(e, ApplyAll(e, steps)) && !ApplyAll(e, steps).dispatching
    decreases |steps|
  {
    if steps != [] {
      StepsKeepInv(e, steps[..|steps| - 1]);
      hide Apply, Inv;
      StepKeepsInv(ApplyAll(e, steps[..|steps| - 1]), steps[|steps| - 1]);
    }
  }

  lemma {:induction false} StepsSplit(e: Event, first: seq<Step>, second: seq<Step>)
    ensures ApplyAll(e, first + second) == ApplyAll(ApplyAll(e, first), second)
    ensures AllEnabled(e, first + second) <==> AllEnabled(e, first) && AllEnabled(ApplyAll(e, first), second)
    decreases |second|
  {
    if second != [] {
      var before := second[..|second| - 1];
      StepsSplit(e, first, before);
      assert (first + second)[..|first + second| - 1] == first + before;
    } else {
      assert first + second == first;
    }
  }

  // ---------- the theorems ----------

  /** On every run no assertion fails, and between any two points of it the state never falls. */
  lemma StateOnlyRises(handlers: seq<Handler>, first: seq<Step>, second: seq<Step>)
    requires AllEnabled(DispatchFetchEvent(FRESH, handlers), first + second)
    ensures var start := DispatchFetchEvent(FRESH, handlers);
            Later(ApplyAll(start, first), ApplyAll(start, first + second)) && ApplyAll(start, first + second).faults == {}
  {
    var start := DispatchFetchEvent(FRESH, handlers);
    DispatchKeepsInv(FRESH, handlers);
    StepsSplit(start, first, second);
    StepsKeepInv(start, first);
    StepsKeepInv(ApplyAll(start, first), second);
  }

  /** The count is that of the promises still to settle, so it never falls below zero. */
  lemma PendingIsCounted(handlers: seq<Handler>, steps: seq<Step>)
    requires AllEnabled(DispatchFetchEvent(FRESH, handlers), steps)
    ensures var e := ApplyAll(DispatchFetchEvent(FRESH, handlers), steps); e.pending == |e.counted| >= 0
  {
    DispatchKeepsInv(FRESH, handlers);
    StepsKeepInv(DispatchFetchEvent(FRESH, handlers), steps);
  }

  /** However a request goes, its response is sent at most once; this says exactly when it is sent. */
  lemma SentOnce(request: Request)
    requires request.initOk ==> AllEnabled(DispatchFetchEvent(FRESH, request.handlers), request.steps)
    ensures var e := HandleRequest(FRESH, request);
            && e.faults == {}
            && e.sends == if request.initOk && (ResponseStarted(Looped(FRESH, request)) || (request.loopOk && request.errorBodyOk)) then 1 else 0
  {
    if request.initOk {
      DispatchKeepsInv(FRESH, request.handlers);
      StepsKeepInv(DispatchFetchEvent(FRESH, request.handlers), request.steps);
    }
  }

  /** No handler is called after one that responded or threw. */
  lemma {:induction false} LaterHandlersSkipped(e: Event, handlers: seq<Handler>, more: seq<Handler>, i: nat)
    requires i <= |handlers| && e.state.Unhandled?
    requires CallHandlers(e, handlers, i) != CallHandlers(e, handlers + more, i)
    ensures CallHandlers(e, handlers, i).state.Unhandled? && forall k :: i <= k < |handlers| ==> !handlers[k].throws
    decreases |handlers| - i
  {
    if i < |handlers| {
      var after := DoCalls(e, handlers[i].calls);
      assert (handlers + more)[i] == handlers[i];
      if !handlers[i].throws && after.state.Unhandled? {
        LaterHandlersSkipped(after, handlers, more, i + 1);
      }
    }
  }

  // ---------- which response, by the steps taken ----------

  /** The promise was rejected, or held something else than a response, and the error response has a body. */
  predicate SendsError(step: Step) {
    step == Rejected(true) || step == Fulfilled(NoResponse(true))
  }

  predicate SendsWhole(step: Step) {
    step.Fulfilled? && step.held.Usable? && step.held.appendOk && !step.held.streaming
  }

  predicate SendsStream(step: Step) {
    step.Fulfilled? && step.held.Usable? && step.held.appendOk && step.held.streaming
  }

  predicate SomeError(steps: seq<Step>) {
    exists k :: 0 <= k < |steps| && SendsError(steps[k])
  }

  predicate SomeWhole(steps: seq<Step>) {
    exists k :: 0 <= k < |steps| && SendsWhole(steps[k])
  }

  predicate SomeStream(steps: seq<Step>) {
    exists k :: 0 <= k < |steps| && SendsStream(steps[k])
  }

  predicate SomeAnswer(steps: seq<Step>) {
    exists k :: 0 <= k < |steps| && (steps[k].Fulfilled? || steps[k].Rejected?)
  }

  /** A handler that is called calls `respondWith`: no earlier one responds or throws. */
  predicate SomeResponds(handlers: seq<Handler>) {
    exists i :: 0 <= i < |handlers| && Responds(handlers, i)
  }

  predicate Responds(handlers: seq<Handler>, i: nat)
    requires i < |handlers|
  {
    CallRespondWith in handlers[i].calls && forall k :: 0 <= k < i ==> !handlers[k].throws
  }

  /** The state that the steps taken lead to. */
  function StateAfter(responds: bool, steps: seq<Step>): Phase {
    if SomeError(steps) then RespondedWithError
    else if SomeWhole(steps) || (SomeStream(steps) && BodyEnds in steps) then ResponseDone
    else if SomeStream(steps) then ResponseStreaming
    else if responds then WaitToRespond
    else Unhandled
  }

  lemma SomeSnoc(steps: seq<Step>, last: Step)
    ensures SomeError(steps + [last]) <==> SomeError(steps) || SendsError(last)
    ensures SomeWhole(steps + [last]) <==> SomeWhole(steps) || SendsWhole(last)
    ensures SomeStream(steps + [last]) <==> SomeStream(steps) || SendsStream(last)
    ensures SomeAnswer(steps + [last]) <==> SomeAnswer(steps) || last.Fulfilled? || last.Rejected?
    ensures BodyEnds in steps + [last] <==> BodyEnds in steps || last == BodyEnds
  {
    var all := steps + [last];
    assert all[|steps|] == last && forall k :: 0 <= k < |steps| ==> all[k] == steps[k];
  }

  lemma {:induction false} DoneByCalls(e: Event, calls: seq<Call>)
    requires Inv(e)
    ensures var f := DoCalls(e, calls);
            && f.reader == e.reader
            && f.state == (if e.dispatching && e.state.Unhandled? && CallRespondWith in calls then WaitToRespond else e.state)
            && f.answer == (if e.dispatching && e.state.Unhandled? && CallRespondWith in calls then Awaited else e.answer)
    decreases |calls|
  {
    if calls != [] {
      DoneByCalls(e, calls[..|calls| - 1]);
      CallsKeepInv(e, calls[..|calls| - 1]);
      assert calls == calls[..|calls| - 1] + [calls[|calls| - 1]];
    }
  }

  lemma {:induction false} DoneByHandlers(e: Event, handlers: seq<Handler>, i: nat)
    requires Inv(e) && e.dispatching && e.state.Unhandled? && i <= |handlers|
    ensures var f, responds := CallHandlers(e, handlers, i), SomeResponds(handlers[i..]);
            && f.reader == e.reader && f.state == (if responds then WaitToRespond else Unhandled)
            && f.answer == (if responds then Awaited else NotAsked)
    decreases |handlers| - i
  {
    if i < |handlers| {
      DoneByCalls(e, handlers[i].calls);
      CallsKeepInv(e, handlers[i].calls);
      RespondsCons(handlers[i], handlers[i + 1..]);
      assert handlers[i..] == [handlers[i]] + handlers[i + 1..];
      if !handlers[i].throws && CallRespondWith !in handlers[i].calls {
        DoneByHandlers(DoCalls(e, handlers[i].calls), handlers, i + 1);
      }
    }
  }

  lemma RespondsCons(first: Handler, rest: seq<Handler>)
    ensures SomeResponds([first] + rest) <==> CallRespondWith in first.calls || (!first.throws && SomeResponds(rest))
  {
    var all := [first] + rest;
    assert forall k :: 0 <= k < |rest| ==> all[k + 1] == rest[k];
    if CallRespondWith in first.calls {
      assert Responds(all, 0);
    } else if SomeResponds(all) {
      var i :| 0 <= i < |all| && Responds(all, i);
      assert !all[0].throws;
      assert Responds(rest, i - 1) by {
        assert forall k :: 0 <= k < i - 1 ==> rest[k] == all[k + 1];
      }
    } else if !first.throws && SomeResponds(rest) {
      var i :| 0 <= i < |rest| && Responds(rest, i);
      assert Responds(all, i + 1);
    }
  }

  lemma LastStep(e: Event, before: seq<Step>, last: Step)
    ensures ApplyAll(e, before + [last]) == Apply(ApplyAll(e, before), last)
    ensures AllEnabled(e, before + [last]) <==> AllEnabled(e, before) && Enabled(ApplyAll(e, before), last)
  {
    hide Apply, Enabled;
    assert (before + [last])[..|before|] == before;
  }

  /** What the steps so far say of the event, besides its state. */
  predicate Told(e: Event, responds: bool, steps: seq<Step>) {
    && e.state == StateAfter(responds, steps)
    && (e.answer.Answered? <==> SomeAnswer(steps))
    && (e.answer.NotAsked? <==> !responds)
    && (e.reader ==> SomeStream(steps) && BodyEnds !in steps)
    && (SomeError(steps) || SomeWhole(steps) || SomeStream(steps) ==> SomeAnswer(steps))
    && (BodyEnds in steps ==> SomeStream(steps))
  }

  lemma StepTells(e: Event, responds: bool, steps: seq<Step>, step: Step)
    requires Inv(e) && !e.dispatching && Enabled(e, step) && Told(e, responds, steps)
    ensures Told(Apply(e, step), responds, steps + [step])
  {
    SomeSnoc(steps, step);
    hide SomeError, SomeWhole, SomeStream, SomeAnswer;
    match step
    case UserCode(calls) => DoneByCalls(e, calls);
    case _ =>
  }

  lemma {:induction false} StepsTell(e: Event, responds: bool, steps: seq<Step>)
    requires Inv(e) && !e.dispatching && AllEnabled(e, steps) && Told(e, responds, [])
    ensures Told(ApplyAll(e, steps), responds, steps)
    decreases |steps|
  {
    if steps != [] {
      hide Inv, Told, Apply, Enabled, ApplyAll, AllEnabled;
      var before, last := steps[..|steps| - 1], steps[|steps| - 1];
      assert steps == before + [last];
      LastStep(e, before, last);
      StepsTell(e, responds, before);
      StepsKeepInv(e, before);
      StepTells(ApplyAll(e, before), responds, before, last);
    }
  }

  /**
    On every run the state tells which response was sent, by the steps taken: an error response; a
    whole response, or a streamed one whose body has ended; a streamed one; or none, with or without
    a handler having called `respondWith`.
  */
  lemma StateTellsResponse(handlers: seq<Handler>, steps: seq<Step>)
    requires AllEnabled(DispatchFetchEvent(FRESH, handlers), steps)
    ensures var e := ApplyAll(DispatchFetchEvent(FRESH, handlers), steps);
            && (e.state.RespondedWithError? <==> SomeError(steps))
            && (e.state.ResponseStreaming? <==> SomeStream(steps) && BodyEnds !in steps)
            && (e.state.ResponseDone? <==> SomeWhole(steps) || (SomeStream(steps) && BodyEnds in steps))
            && (ResponseStarted(e) ==> SomeResponds(handlers))
            && (e.state.Unhandled? <==> !SomeResponds(handlers))
            && e.sends == if SomeError(steps) || SomeWhole(steps) || SomeStream(steps) then 1 else 0
  {
    var start := DispatchFetchEvent(FRESH, handlers);
    Dispatched(handlers);
    StepsTell(start, SomeResponds(handlers), steps);
    StepsKeepInv(start, steps);
    OneAnswer(start, steps);
    hide SomeError, SomeWhole, SomeStream, SomeAnswer, SomeResponds;
  }

  lemma Dispatched(handlers: seq<Handler>)
    ensures var e := DispatchFetchEvent(FRESH, handlers);
            Inv(e) && !e.dispatching && Told(e, SomeResponds(handlers), [])
  {
    DispatchKeepsInv(FRESH, handlers);
    DoneByHandlers(StartDispatching(FRESH), handlers, 0);
    assert handlers[0..] == handlers;
  }

  lemma StepAnswers(e: Event, step: Step)
    requires Inv(e) && !e.dispatching && Enabled(e, step)
    ensures Apply(e, step).answer.Answered? <==> e.answer.Answered? || step.Fulfilled? || step.Rejected?
    ensures e.answer.Answered? ==> !step.Fulfilled? && !step.Rejected?
  {
    if step.UserCode? {
      DoneByCalls(e, step.calls);
    }
  }

  predicate OneKind(steps: seq<Step>) {
    && !(SomeError(steps) && SomeWhole(steps))
    && !(SomeError(steps) && SomeStream(steps))
    && !(SomeWhole(steps) && SomeStream(steps))
    && (SomeError(steps) || SomeWhole(steps) || SomeStream(steps) ==> SomeAnswer(steps))
  }

  lemma OneKindSnoc(steps: seq<Step>, last: Step)
    requires OneKind(steps) && (SomeAnswer(steps) ==> !last.Fulfilled? && !last.Rejected?)
    ensures OneKind(steps + [last])
  {
    SomeSnoc(steps, last);
    hide SomeError, SomeWhole, SomeStream, SomeAnswer;
  }

  predicate Answers(e: Event, steps: seq<Step>) {
    (e.answer.Answered? <==> SomeAnswer(steps)) && OneKind(steps)
  }

  lemma AnswersSnoc(e: Event, steps: seq<Step>, last: Step)
    requires Inv(e) && !e.dispatching && Enabled(e, last) && Answers(e, steps)
    ensures Answers(Apply(e, last), steps + [last])
  {
    hide OneKind, SomeAnswer, Apply, Inv, Enabled;
    StepAnswers(e, last);
    OneKindSnoc(steps, last);
    SomeSnoc(steps, last);
  }

  /** There is one answer at most, so there is one kind of response at most. */
  lemma {:induction false} OneAnswer(e: Event, steps: seq<Step>)
    requires Inv(e) && !e.dispatching && AllEnabled(e, steps) && !e.answer.Answered?
    ensures Answers(ApplyAll(e, steps), steps)
    decreases |steps|
  {
    if steps != [] {
      hide Answers, Apply, Inv, Enabled, ApplyAll, AllEnabled;
      var before, last := steps[..|steps| - 1], steps[|steps| - 1];
      assert steps == before + [last];
      LastStep(e, before, last);
      OneAnswer(e, before);
      StepsKeepInv(e, before);
      AnswersSnoc(ApplyAll(e, before), before, last);
    }
  }

  /** The end of a request: an error response goes out if and only if nothing else did and it can. */
  lemma RequestTellsResponse(request: Request)
    requires request.initOk && AllEnabled(DispatchFetchEvent(FRESH, request.handlers), request.steps)
    ensures var e, steps := HandleRequest(FRESH, request), request.steps;
            var sent := SomeError(steps) || SomeWhole(steps) || SomeStream(steps);
            && (e.state.RespondedWithError? <==> SomeError(steps) || (!sent && request.loopOk && request.errorBodyOk))
            && (e.state.ResponseStreaming? <==> SomeStream(steps) && BodyEnds !in steps)
            && (e.state.ResponseDone? <==> SomeWhole(steps) || (SomeStream(steps) && BodyEnds in steps))
            && e.sends == if sent || (request.loopOk && request.errorBodyOk) then 1 else 0
  {
    StateTellsResponse(request.handlers, request.steps);
    DispatchKeepsInv(FRESH, request.handlers);
    StepsKeepInv(DispatchFetchEvent(FRESH, request.handlers), request.steps);
    hide SomeError, SomeWhole, SomeStream, SomeResponds, AllEnabled;
  }

  /** A late `waitUntil` is taken while a counted promise is outstanding or a response is streamed; a late `respondWith` never is. */
  lemma LateCalls(handlers: seq<Handler>, steps: seq<Step>)
    requires AllEnabled(DispatchFetchEvent(FRESH, handlers), steps)
    ensures var e := ApplyAll(DispatchFetchEvent(FRESH, handlers), steps);
            var f := Apply(e, UserCode([CallWaitUntil]));
            && f.counted == (if e.counted != {} || (SomeStream(steps) && BodyEnds !in steps) then e.counted + {e.promises} else e.counted)
            && Apply(e, UserCode([CallRespondWith])) == e
  {
    StateTellsResponse(handlers, steps);
    DispatchKeepsInv(FRESH, handlers);
    StepsKeepInv(DispatchFetchEvent(FRESH, handlers), steps);
    var e := ApplyAll(DispatchFetchEvent(FRESH, handlers), steps);
    OneCall(e, CallWaitUntil);
    OneCall(e, CallRespondWith);
    hide SomeStream, DoCalls, ApplyAll;
  }

  lemma OneCall(e: Event, call: Call)
    ensures DoCalls(e, [call]) == if call.CallRespondWith? then RespondWith(e) else WaitUntil(e)
  {
    assert [call][..0] == [];
    assert DoCalls(e, []) == e;
  }

  // ---------- what is counted while the handlers run ----------

  /** The calls of the handlers that are called, in order: those up to the first that responds or throws. */
  function Performed(handlers: seq<Handler>): seq<Call> {
    if handlers == [] then []
    else if CallRespondWith in handlers[0].calls || handlers[0].throws then handlers[0].calls
    else handlers[0].calls + Performed(handlers[1..])
  }

  function Waits(calls: seq<Call>): nat {
    if calls == [] then 0 else Waits(calls[..|calls| - 1]) + if calls[|calls| - 1].CallWaitUntil? then 1 else 0
  }

  lemma {:induction false} WaitsJoin(a: seq<Call>, b: seq<Call>)
    ensures Waits(a + b) == Waits(a) + Waits(b)
  {
    if b == [] {
      assert a + b == a;
    } else {
      assert (a + b)[..|a + b| - 1] == a + b[..|b| - 1];
      WaitsJoin(a, b[..|b| - 1]);
    }
  }

  lemma {:induction false} CallsCount(e: Event, calls: seq<Call>)
    requires Inv(e) && e.dispatching
    ensures DoCalls(e, calls).promises == e.promises + Waits(calls) + if e.state.Unhandled? && CallRespondWith in calls then 1 else 0
    decreases |calls|
  {
    if calls != [] {
      var before := calls[..|calls| - 1];
      CallsCount(e, before);
      CallsKeepInv(e, before);
      DoneByCalls(e, before);
      assert calls == before + [calls[|calls| - 1]];
    }
  }

  lemma {:induction false} HandlersCount(e: Event, handlers: seq<Handler>, i: nat)
    requires Inv(e) && e.dispatching && e.state.Unhandled? && i <= |handlers|
    ensures CallHandlers(e, handlers, i).promises ==
      e.promises + Waits(Performed(handlers[i..])) + if SomeResponds(handlers[i..]) then 1 else 0
    decreases |handlers| - i
  {
    if i < |handlers| {
      var first, rest := handlers[i], handlers[i + 1..];
      CallsCount(e, first.calls);
      CallsKeepInv(e, first.calls);
      DoneByCalls(e, first.calls);
      RespondsCons(first, rest);
      assert handlers[i..] == [first] + rest && handlers[i..][1..] == rest;
      WaitsJoin(first.calls, Performed(rest));
      if !first.throws && CallRespondWith !in first.calls {
        HandlersCount(DoCalls(e, first.calls), handlers, i + 1);
      }
      hide Inv, DoCalls, SomeResponds, Waits;
    }
  }

  /** Dispatching counts one promise for every `waitUntil` that is reached, and one for the first `respondWith`. */
  lemma DispatchCounts(handlers: seq<Handler>)
    ensures DispatchFetchEvent(FRESH, handlers).pending == Waits(Performed(handlers)) + if SomeResponds(handlers) then 1 else 0
  {
    HandlersKeepInv(StartDispatching(FRESH), handlers, 0);
    HandlersCount(StartDispatching(FRESH), handlers, 0);
    AllCounted(StartDispatching(FRESH), handlers, 0);
    assert handlers[0..] == handlers;
  }

  /** Nothing is decremented before the handlers are done. */
  lemma {:induction false} AllCounted(e: Event, handlers: seq<Handler>, i: nat)
    requires e.pending == e.promises && i <= |handlers|
    ensures CallHandlers(e, handlers, i).pending == CallHandlers(e, handlers, i).promises
    decreases |handlers| - i
  {
    if i < |handlers| {
      CallsCounted(e, handlers[i].calls);
      var after := DoCalls(e, handlers[i].calls);
      if !handlers[i].throws && after.state.Unhandled? {
        AllCounted(after, handlers, i + 1);
      }
    }
  }

  lemma {:induction false} CallsCounted(e: Event, calls: seq<Call>)
    requires e.pending == e.promises
    ensures DoCalls(e, calls).pending == DoCalls(e, calls).promises
    decreases |calls|
  {
    if calls != [] {
      CallsCounted(e, calls[..|calls| - 1]);
    }
  }

  function Decrements(steps: seq<Step>): nat {
    if steps == [] then 0 else Decrements(steps[..|steps| - 1]) + if steps[|steps| - 1].Decrement? then 1 else 0
  }

  lemma {:induction false} CallsKeepBalance(e: Event, calls: seq<Call>)
    ensures DoCalls(e, calls).promises - DoCalls(e, calls).pending == e.promises - e.pending
    decreases |calls|
  {
    if calls != [] {
      CallsKeepBalance(e, calls[..|calls| - 1]);
    }
  }

  lemma {:induction false} StepsKeepBalance(e: Event, steps: seq<Step>)
    ensures ApplyAll(e, steps).promises - ApplyAll(e, steps).pending == e.promises - e.pending + Decrements(steps)
    decreases |steps|
  {
    if steps != [] {
      var before := ApplyAll(e, steps[..|steps| - 1]);
      StepsKeepBalance(e, steps[..|steps| - 1]);
      if steps[|steps| - 1].UserCode? {
        CallsKeepBalance(before, steps[|steps| - 1].calls);
      }
    }
  }

  /** On every run the promises that were ever counted are those still pending and those whose reaction has run. */
  lemma PromisesBalance(handlers: seq<Handler>, steps: seq<Step>)
    ensures var e := ApplyAll(DispatchFetchEvent(FRESH, handlers), steps); e.promises == e.pending + Decrements(steps)
  {
    AllCounted(StartDispatching(FRESH), handlers, 0);
    StepsKeepBalance(DispatchFetchEvent(FRESH, handlers), steps);
  }

  // ---------- the object ----------

  /** The event and the globals beside it. */
  class FetchEvent {
    var state: Phase
    var dispatching: bool
    var pending: int
    ghost var counted: set<nat>
    ghost var promises: nat
    ghost var answer: Answer
    ghost var reader: bool
    ghost var sends: nat
    ghost var faults: set<Fault>

    ghost function View(): Event
      reads this
    {
      Event(state, dispatching, pending, counted, promises, answer, reader, sends, faults)
    }

    constructor ()
      ensures View() == FRESH
    {
      state, dispatching, pending := Unhandled, false, 0;
      counted, promises, answer, reader, sends, faults := {}, 0, NotAsked, false, 0, {};
    }

    method AddPendingPromise() returns (ghost promise: nat)
      modifies this
      ensures View() == FetchEventState.AddPendingPromise(old(View())) && promise == old(promises)
    {
      promise := promises;
      counted := counted + {promises};
      promises := promises + 1;
      pending := pending + 1;
      if pending <= 0 {
        faults := faults + {CountNotPositive};
      }
    }

    method DecPendingPromiseCount(ghost promise: nat)
      modifies this
      ensures View() == FetchEventState.DecPendingPromiseCount(old(View()), promise)
    {
      if pending <= 0 {
        faults := faults + {CountNotPositive};
      }
      pending := pending - 1;
      counted := counted - {promise};
    }

    method SetState(next: Phase)
      modifies this
      ensures View() == FetchEventState.SetState(old(View()), next)
    {
      if Rank(next) <= Rank(state) {
        faults := faults + {StateNotRaised};
      }
      state := next;
    }

    /** The state is set whether or not the host accepted the response. */
    method SendResponse(next: Phase, accepted: bool) returns (ok: bool)
      modifies this
      ensures View() == FetchEventState.SendResponse(old(View()), next) && ok == accepted
    {
      if state != Unhandled && state != WaitToRespond {
        faults := faults + {SentTooLate};
      }
      sends := sends + 1;
      SetState(next);
      ok := accepted;
    }

    method RespondWithError(bodyOk: bool, accepted: bool) returns (ok: bool)
      modifies this
      ensures View() == FetchEventState.RespondWithError(old(View()), bodyOk) && ok == (bodyOk && accepted)
    {
      if state != Unhandled && state != WaitToRespond {
        faults := faults + {ErrorTooLate};
      }
      if !bodyOk {
        return false;
      }
      ok := SendResponse(RespondedWithError, accepted);
    }

    method RespondWith() returns (ok: bool)
      modifies this
      ensures View() == FetchEventState.RespondWith(old(View()))
      ensures ok <==> old(dispatching) && old(state).Unhandled?
    {
      if !dispatching {
        return false;
      }
      if state != Unhandled {
        return false;
      }
      var _ := AddPendingPromise();
      SetState(WaitToRespond);
      answer := Awaited;
      ok := true;
    }

    method WaitUntil() returns (ok: bool)
      modifies this
      ensures View() == FetchEventState.WaitUntil(old(View())) && ok == IsActive(old(View()))
    {
      var active := dispatching || state == ResponseStreaming || pending > 0;
      if !active {
        return false;
      }
      var _ := AddPendingPromise();
      ok := true;
    }

    method ResponsePromiseThen(held: Held, accepted: bool) returns (ok: bool)
      modifies this
      ensures View() == FetchEventState.ResponsePromiseThen(old(View()), held)
    {
      answer := Answered;
      match held
      case NoResponse(errorBodyOk) =>
        ok := RespondWithError(errorBodyOk, accepted);
      case Unusable =>
        ok := false;
      case Usable(appendOk, streaming, hasReader) =>
        reader := hasReader;
        if !appendOk {
          return false;
        }
        ok := SendResponse(if streaming then ResponseStreaming else ResponseDone, accepted);
    }

    method BodyDone(closed: bool) returns (ok: bool)
      modifies this
      ensures View() == FetchEventState.BodyDone(old(View())) && ok == closed
    {
      SetState(ResponseDone);
      reader := false;
      ok := closed;
    }

    method DoCalls(calls: seq<Call>)
      modifies this
      ensures View() == FetchEventState.DoCalls(old(View()), calls)
    {
      for k := 0 to |calls|
        invariant View() == FetchEventState.DoCalls(old(View()), calls[..k])
      {
        assert calls[..k + 1][..k] == calls[..k];
        match calls[k]
        case CallRespondWith => var _ := RespondWith();
        case CallWaitUntil => var _ := WaitUntil();
      }
      assert calls[..|calls|] == calls;
    }

    method DispatchFetchEvent(handlers: seq<Handler>)
      modifies this
      ensures View() == FetchEventState.DispatchFetchEvent(old(View()), handlers)
    {
      if dispatching {
        faults := faults + {AlreadyDispatching};
      }
      dispatching := true;
      ghost var start := View();
      var i := 0;
      while i < |handlers|
        invariant i <= |handlers|
        invariant CallHandlers(View(), handlers, i) == CallHandlers(start, handlers, 0)
      {
        DoCalls(handlers[i].calls);
        if handlers[i].throws {
          break;
        }
        if state != Unhandled {
          break;
        }
        i := i + 1;
      }
      assert View() == CallHandlers(start, handlers, 0);
      if !dispatching {
        faults := faults + {NotDispatching};
      }
      dispatching := false;
    }

    method Step(step: FetchEventState.Step, accepted: bool)
      modifies this
      ensures View() == Apply(old(View()), step)
    {
      match step
      case Decrement(promise) => DecPendingPromiseCount(promise);
      case Fulfilled(held) => var _ := ResponsePromiseThen(held, accepted);
      case Rejected(errorBodyOk) =>
        answer := Answered;
        var _ := RespondWithError(errorBodyOk, accepted);
      case BodyEnds => var _ := BodyDone(accepted);
      case BodyBreaks => reader := false;
      case UserCode(calls) => DoCalls(calls);
    }

    /** The incoming-request entry point, from a fresh event to the end of the request. */
    method HandleRequest(request: Request, accepted: bool)
      requires View() == FRESH
      requires request.initOk ==> AllEnabled(FetchEventState.DispatchFetchEvent(FRESH, request.handlers), request.steps)
      modifies this
      ensures View() == FetchEventState.HandleRequest(FRESH, request)
      ensures faults == {} && sends <= 1
      ensures request.initOk && request.loopOk && request.errorBodyOk ==> sends == 1
    {
      SentOnce(request);
      if !request.initOk {
        return;
      }
      DispatchFetchEvent(request.handlers);
      ghost var start := View();
      for k := 0 to |request.steps|
        invariant View() == ApplyAll(start, request.steps[..k])
      {
        assert request.steps[..k + 1][..k] == request.steps[..k];
        Step(request.steps[k], accepted);
      }
      assert request.steps[..|request.steps|] == request.steps;
      if !request.loopOk {
        return;
      }
      if state == Unhandled || state == WaitToRespond {
        var _ := RespondWithError(request.errorBodyOk, accepted);
      }
    }
  }
}
