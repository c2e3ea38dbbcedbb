/**
  Timers that repeat: what `setTimeout` and `setInterval` queue, what a round leaves behind, and that
  no interval is lost over a run. The id that `setInterval` returned is good for the first round only.
*/
module EventLoopIntervals {
  import opened BodyAppend
  import opened EventLoopState
  import opened EventLoopTheorems

  // ---------- one round ----------

  /** A timer that is set stands last in the queue, with its handle and with the flag it was set with. */
  lemma TimerIsQueued(s: Loop, handle: int, repeat: bool)
    requires Allocated(s)
    ensures var after := Act(s, SetTimer(handle, repeat));
            && |after.queue| == |s.queue| + 1 && after.queue[..|s.queue|] == s.queue
            && after.tasks == s.tasks + [Timer(handle, repeat)] && after.queue[|s.queue|].task == |s.tasks|
            && after.live == s.live + {handle}
  {
  }

  /**
    What a timer's turn leaves in the queue: what its callback left, without the timer itself, and,
    for an interval only, a new timer that repeats and holds the new handle.
  */
  lemma RoundLeaves(s: Loop, index: nat, actions: seq<Action>, nextHandle: int)
    requires Inv(s) && !s.failed && index < |s.queue| && TimerAllowed(s, s.queue[index].task, actions, nextHandle)
    requires NoEarlyCancel(s, actions, index) && FindsTimers(s, actions)
    ensures var after, left, timer := RunSelected(s, index, TimerReturns(actions, nextHandle)), Acts(s, actions), s.tasks[s.queue[index].task];
            && index < |left.queue| && left.queue[index] == s.queue[index]
            && (!timer.repeat ==> after.queue == Without(left.queue, index) && |after.tasks| == |left.tasks|)
            && (timer.repeat ==>
                  && after.queue == Without(left.queue, index) + [Entry(|left.tasks|, |left.queued|)]
                  && |after.tasks| == |left.tasks| + 1 && after.tasks[|left.tasks|] == Timer(nextHandle, true))
            && after.ran == left.ran + [s.queue[index]] && after.cancelled == left.cancelled && !after.failed
  {
    var entry := s.queue[index];
    TimerRunIs(s, index, actions, nextHandle);
    ActsKeepEntry(s, actions, index);
    ActsKeepTasks(s, actions);
    CalledOk(s, index, actions, nextHandle);
    hide Acts, Act, Inv, NoEarlyCancel, FindsTimers, RunSelected, Erase, CancelTask, TimerAllowed;
    EraseLeaves(Acts(s, actions), s.tasks[entry.task].repeat, nextHandle, index, entry);
  }

  lemma EraseLeaves(left: Loop, repeat: bool, nextHandle: int, index: nat, entry: Entry)
    requires Allocated(left) && index < |left.queue| && entry.task < |left.tasks|
    ensures var called := if repeat then Act(left, SetTimer(nextHandle, true)) else left;
            var after := Erase(CancelTask(called, entry.task).(ran := called.ran + [entry]), index);
            && after.queue == Without(left.queue, index) + (if repeat then [Entry(|left.tasks|, |left.queued|)] else [])
            && |after.tasks| == |left.tasks| + (if repeat then 1 else 0)
            && (repeat ==> after.tasks[|left.tasks|] == Timer(nextHandle, true))
            && after.ran == left.ran + [entry] && after.cancelled == left.cancelled && after.failed == left.failed
  {
    if repeat {
      var next := Entry(|left.tasks|, |left.queued|);
      assert (left.queue + [next])[..index] + (left.queue + [next])[index + 1..] == Without(left.queue, index) + [next];
    }
  }

  // ---------- how many intervals there are ----------

  predicate Repeats(tasks: seq<Task>, t: nat) {
    t < |tasks| && tasks[t].Timer? && tasks[t].repeat
  }

  function Intervals(entries: seq<Entry>, tasks: seq<Task>): nat {
    if entries == [] then 0
    else Intervals(entries[..|entries| - 1], tasks) + if Repeats(tasks, entries[|entries| - 1].task) then 1 else 0
  }

  predicate Known(entries: seq<Entry>, tasks: seq<Task>) {
    forall i :: 0 <= i < |entries| ==> entries[i].task < |tasks|
  }

  /** A task never changes its flag. */
  predicate SameFlags(before: seq<Task>, after: seq<Task>) {
    |before| <= |after| && forall t :: 0 <= t < |before| ==> (Repeats(after, t) <==> Repeats(before, t))
  }

  lemma {:induction false} IntervalsStay(entries: seq<Entry>, before: seq<Task>, after: seq<Task>)
    requires Known(entries, before) && SameFlags(before, after)
    ensures Intervals(entries, after) == Intervals(entries, before) && Known(entries, after)
  {
    if entries != [] {
      IntervalsStay(entries[..|entries| - 1], before, after);
      assert entries[|entries| - 1].task < |before|;
    }
  }

  lemma {:induction false} IntervalsJoin(a: seq<Entry>, b: seq<Entry>, tasks: seq<Task>)
    ensures Intervals(a + b, tasks) == Intervals(a, tasks) + Intervals(b, tasks)
  {
    if b == [] {
      assert a + b == a;
    } else {
      IntervalsJoin(a, b[..|b| - 1], tasks);
      assert (a + b)[..|a + b| - 1] == a + b[..|b| - 1];
    }
  }

  lemma OneInterval(e: Entry, tasks: seq<Task>)
    ensures Intervals([e], tasks) == if Repeats(tasks, e.task) then 1 else 0
  {
    assert [e][..0] == [];
  }

  lemma IntervalsWithout(entries: seq<Entry>, k: nat, tasks: seq<Task>)
    requires k < |entries|
    ensures Intervals(entries, tasks) == Intervals(Without(entries, k), tasks) + if Repeats(tasks, entries[k].task) then 1 else 0
  {
    assert entries == entries[..k] + [entries[k]] + entries[k + 1..];
    IntervalsJoin(entries[..k] + [entries[k]], entries[k + 1..], tasks);
    IntervalsJoin(entries[..k], [entries[k]], tasks);
    IntervalsJoin(entries[..k], entries[k + 1..], tasks);
    OneInterval(entries[k], tasks);
  }

  /** The intervals that still go on, and those that were cleared. */
  function Counted(s: Loop): nat {
    Intervals(s.queue, s.tasks) + Intervals(s.cancelled, s.tasks)
  }

  predicate AllKnown(s: Loop) {
    Known(s.queue, s.tasks) && Known(s.cancelled, s.tasks)
  }

  function SetIntervals(actions: seq<Action>): nat {
    if actions == [] then 0
    else
      var last := actions[|actions| - 1];
      SetIntervals(actions[..|actions| - 1]) + if last.SetTimer? && last.repeat then 1 else 0
  }

  lemma CountedAfter(s: Loop, tasks: seq<Task>, queue: seq<Entry>, cancelled: seq<Entry>)
    requires AllKnown(s) && SameFlags(s.tasks, tasks)
    requires queue == s.queue && cancelled == s.cancelled
    ensures Intervals(queue, tasks) == Intervals(s.queue, s.tasks) && Intervals(cancelled, tasks) == Intervals(s.cancelled, s.tasks)
    ensures Known(queue, tasks) && Known(cancelled, tasks)
  {
    IntervalsStay(s.queue, s.tasks, tasks);
    IntervalsStay(s.cancelled, s.tasks, tasks);
  }

  lemma QueuedCounts(s: Loop, task: Task)
    requires AllKnown(s)
    ensures var tasks, entry := s.tasks + [task], Entry(|s.tasks|, |s.queued|);
            && SameFlags(s.tasks, tasks) && Known(s.queue + [entry], tasks) && Known(s.cancelled, tasks)
            && Intervals(s.queue + [entry], tasks) + Intervals(s.cancelled, tasks) ==
               Counted(s) + if task.Timer? && task.repeat then 1 else 0
  {
    var tasks, entry := s.tasks + [task], Entry(|s.tasks|, |s.queued|);
    CountedAfter(s, tasks, s.queue, s.cancelled);
    IntervalsJoin(s.queue, [entry], tasks);
    OneInterval(entry, tasks);
  }

  lemma ClearedCounts(s: Loop, k: nat, tasks: seq<Task>)
    requires AllKnown(s) && k < |s.queue| && SameFlags(s.tasks, tasks)
    ensures Known(Without(s.queue, k), tasks) && Known(s.cancelled + [s.queue[k]], tasks)
    ensures Intervals(Without(s.queue, k), tasks) + Intervals(s.cancelled + [s.queue[k]], tasks) == Counted(s)
  {
    CountedAfter(s, tasks, s.queue, s.cancelled);
    IntervalsWithout(s.queue, k, tasks);
    IntervalsJoin(s.cancelled, [s.queue[k]], tasks);
    OneInterval(s.queue[k], tasks);
  }

  lemma CancelledTask(s: Loop, task: nat)
    requires task < |s.tasks|
    ensures SameFlags(s.tasks, CancelTask(s, task).tasks)
    ensures CancelTask(s, task).queue == s.queue && CancelTask(s, task).cancelled == s.cancelled
  {
  }

  lemma ActCounts(s: Loop, action: Action)
    requires AllKnown(s) && Allocated(s)
    ensures var after := Act(s, action);
            && AllKnown(after) && SameFlags(s.tasks, after.tasks)
            && Counted(after) == Counted(s) + if action.SetTimer? && action.repeat then 1 else 0
  {
    hide Intervals, Find, Asked;
    match action
    case SetTimer(handle, repeat) => QueuedCounts(s, Timer(handle, repeat));
    case AppendBody(incoming, outgoing) => QueuedCounts(s, Append(BlockedOnBoth, incoming, outgoing));
    case ClearTimer(id) =>
      var k := Find(s, id, 0);
      if k < |s.queue| {
        var asked := s.(faults := s.faults + Asked(s, k + 1));
        CancelledTask(asked, s.queue[k].task);
        ClearedCounts(s, k, CancelTask(asked, s.queue[k].task).tasks);
        assert Act(s, action).queue == Without(s.queue, k);
      }
    case QueueJob =>
  }

  /** User code adds as many intervals as it sets; those it clears are counted as cleared. */
  lemma {:induction false} ActsCount(s: Loop, actions: seq<Action>)
    requires AllKnown(s) && Allocated(s)
    ensures var after := Acts(s, actions);
            AllKnown(after) && SameFlags(s.tasks, after.tasks) && Counted(after) == Counted(s) + SetIntervals(actions)
    decreases |actions|
  {
    if actions != [] {
      ActsCount(s, actions[..|actions| - 1]);
      ActCounts(Acts(s, actions[..|actions| - 1]), actions[|actions| - 1]);
      hide Act, Counted, AllKnown, Repeats;
    }
  }

  // ---------- over runs ----------

  /** The intervals set in a turn. */
  function TurnIntervals(s: Loop, turn: Turn): nat
    requires Allocated(s)
  {
    (if s.jobs > 0 then SetIntervals(turn.jobActions) else 0)
    + (if turn.index < |Drained(s, turn).queue| && (turn.outcome.TimerReturns? || turn.outcome.Fails?) then SetIntervals(turn.outcome.actions) else 0)
  }

  function RunIntervals(s: Loop, turns: seq<Turn>): nat
    requires Allocated(s)
  {
    if turns == [] then 0
    else
      var before := RunEventLoop(s, turns[..|turns| - 1]);
      RunIntervals(s, turns[..|turns| - 1]) + if |turns| > 1 && Over(before) then 0 else TurnIntervals(before, turns[|turns| - 1])
  }

  lemma RoundCounts(s: Loop, index: nat, actions: seq<Action>, nextHandle: int)
    requires Inv(s) && !s.failed && AllKnown(s) && index < |s.queue| && TimerAllowed(s, s.queue[index].task, actions, nextHandle)
    requires NoEarlyCancel(s, actions, index) && FindsTimers(s, actions)
    ensures var after := RunSelected(s, index, TimerReturns(actions, nextHandle));
            AllKnown(after) && Counted(after) == Counted(s) + SetIntervals(actions)
  {
    var task := s.queue[index].task;
    ActsCount(s, actions);
    ActsKeepTasks(s, actions);
    RoundLeaves(s, index, actions, nextHandle);
    TimerRunIs(s, index, actions, nextHandle);
    var left, called := Acts(s, actions), Called(s, task, actions, nextHandle);
    var after := RunSelected(s, index, TimerReturns(actions, nextHandle));
    if s.tasks[task].repeat {
      ActCounts(left, SetTimer(nextHandle, true));
    }
    CancelledTask(called, task);
    assert after.tasks == CancelTask(called, task).tasks;
    RoundFlags(s, left, called, after, task);
    hide Acts, Act, Inv, NoEarlyCancel, FindsTimers, RunSelected, Called, TimerAllowed, CancelTask;
    RoundSums(s, left, after, index);
  }

  lemma RoundFlags(s: Loop, left: Loop, called: Loop, after: Loop, task: nat)
    requires SameFlags(s.tasks, left.tasks) && SameFlags(left.tasks, called.tasks) && SameFlags(called.tasks, after.tasks)
    ensures SameFlags(left.tasks, after.tasks)
    ensures task < |s.tasks| ==> (Repeats(after.tasks, task) <==> Repeats(s.tasks, task))
  {
    hide Repeats;
  }

  lemma RoundSums(s: Loop, left: Loop, after: Loop, index: nat)
    requires AllKnown(left) && index < |left.queue| && left.queue[index].task < |s.tasks| && SameFlags(left.tasks, after.tasks)
    requires var task := left.queue[index].task; Repeats(after.tasks, task) <==> Repeats(s.tasks, task)
    requires after.cancelled == left.cancelled
    requires if Repeats(s.tasks, left.queue[index].task)
             then after.queue == Without(left.queue, index) + [Entry(|left.tasks|, |left.queued|)] && Repeats(after.tasks, |left.tasks|)
             else after.queue == Without(left.queue, index)
    ensures AllKnown(after) && Counted(after) == Counted(left)
  {
    CountedAfter(left, after.tasks, left.queue, left.cancelled);
    IntervalsWithout(left.queue, index, after.tasks);
    var next := Entry(|left.tasks|, |left.queued|);
    IntervalsJoin(Without(left.queue, index), [next], after.tasks);
    OneInterval(next, after.tasks);
    hide Intervals;
  }

  lemma AppendEndsIs(s: Loop, index: nat)
    requires Inv(s) && !s.failed && index < |s.queue| && s.tasks[s.queue[index].task].Append?
    ensures var task := s.queue[index].task;
            RunSelected(s, index, AppendEnds) ==
              s.(queue := Without(s.queue, index), tasks := s.tasks[task := s.tasks[task].(state := Done)], ran := s.ran + [s.queue[index]])
  {
    PollingIsSafe(s);
    hide Inv, Asked;
  }

  lemma AppendFailsIs(s: Loop, index: nat, left: AppendState)
    requires Inv(s) && !s.failed && index < |s.queue| && s.tasks[s.queue[index].task].Append?
    ensures var task := s.queue[index].task;
            RunSelected(s, index, AppendFails(left)) == s.(tasks := s.tasks[task := s.tasks[task].(state := left)], failed := true)
  {
    PollingIsSafe(s);
    hide Inv, Asked;
  }

  lemma AppendCounts(s: Loop, index: nat, outcome: Outcome)
    requires Inv(s) && !s.failed && AllKnown(s) && index < |s.queue| && OutcomeAllowed(s, index, outcome)
    requires outcome.AppendEnds? || outcome.AppendBlocks? || outcome.AppendFails?
    ensures var after := RunSelected(s, index, outcome); AllKnown(after) && Counted(after) == Counted(s)
  {
    hide Inv, RunSelected, Intervals, Without;
    var task := s.queue[index].task;
    match outcome
    case AppendBlocks(next) =>
      AppendBlocksIs(s, index, next);
      MovedCounts(s, index, s.tasks[task := s.tasks[task].(state := next)], [Entry(task, |s.queued|)]);
    case AppendEnds =>
      AppendEndsIs(s, index);
      MovedCounts(s, index, s.tasks[task := s.tasks[task].(state := Done)], []);
      assert Without(s.queue, index) + [] == Without(s.queue, index);
    case AppendFails(left) =>
      AppendFailsIs(s, index, left);
      CountedAfter(s, s.tasks[task := s.tasks[task].(state := left)], s.queue, s.cancelled);
  }

  lemma MovedCounts(s: Loop, index: nat, tasks: seq<Task>, more: seq<Entry>)
    requires AllKnown(s) && index < |s.queue| && SameFlags(s.tasks, tasks) && !Repeats(s.tasks, s.queue[index].task)
    requires more == [] || (|more| == 1 && more[0].task == s.queue[index].task)
    ensures Known(Without(s.queue, index) + more, tasks) && Known(s.cancelled, tasks)
    ensures Intervals(Without(s.queue, index) + more, tasks) + Intervals(s.cancelled, tasks) == Counted(s)
  {
    CountedAfter(s, tasks, s.queue, s.cancelled);
    IntervalsWithout(s.queue, index, tasks);
    IntervalsJoin(Without(s.queue, index), more, tasks);
    if more != [] {
      assert more == [more[0]];
      OneInterval(more[0], tasks);
    }
  }

  lemma TurnCounts(s: Loop, turn: Turn)
    requires Inv(s) && !s.failed && AllKnown(s) && TurnAllowed(s, turn) && CancelsLater(s, turn) && SparesAppends(s, turn)
    ensures var after := TakeTurn(s, turn); AllKnown(after) && Counted(after) == Counted(s) + TurnIntervals(s, turn)
  {
    DrainedOk(s, turn);
    if s.jobs > 0 {
      ActsCount(s, turn.jobActions);
    }
    var drained := Drained(s, turn);
    hide Inv, RunSelected, Acts, NoEarlyCancel, FindsTimers, Intervals;
    if turn.index < |drained.queue| {
      match turn.outcome
      case TimerReturns(actions, nextHandle) => RoundCounts(drained, turn.index, actions, nextHandle);
      case Fails(actions) => FailCounts(drained, turn.index, actions);
      case _ => AppendCounts(drained, turn.index, turn.outcome);
    }
  }

  lemma FailCounts(s: Loop, index: nat, actions: seq<Action>)
    requires Inv(s) && !s.failed && AllKnown(s) && index < |s.queue|
    ensures var after := RunSelected(s, index, Fails(actions)); AllKnown(after) && Counted(after) == Counted(s) + SetIntervals(actions)
  {
    PollingIsSafe(s);
    ActsCount(s, actions);
    hide Acts, Intervals, Asked;
  }

  lemma {:induction false} RunCounts(s: Loop, turns: seq<Turn>)
    requires Inv(s) && !s.failed && AllKnown(s) && RunAllowed(s, turns) && InBounds(s, turns)
    ensures var after := RunEventLoop(s, turns); AllKnown(after) && Counted(after) == Counted(s) + RunIntervals(s, turns)
    decreases |turns|
  {
    if turns != [] {
      var first := turns[..|turns| - 1];
      RunCounts(s, first);
      RunKeepsInv(s, first);
      hide Inv, TakeTurn, Counted, AllKnown, TurnAllowed, CancelsLater, SparesAppends, TurnIntervals;
      if !(|turns| > 1 && Over(RunEventLoop(s, first))) {
        TurnCounts(RunEventLoop(s, first), turns[|turns| - 1]);
      }
    }
  }

  /**
    No interval stops by itself: at every head of the loop those that were ever set, by the main
    script or by callbacks, either stand in the queue as timers that repeat or were cleared.
  */
  lemma IntervalsGoOn(script: seq<Action>, turns: seq<Turn>)
    requires AllAllowed(START, script) && RunAllowed(Acts(START, script), turns)
    requires FindsTimers(START, script) && InBounds(Acts(START, script), turns)
    ensures var after := RunEventLoop(Acts(START, script), turns);
            Intervals(after.queue, after.tasks) + Intervals(after.cancelled, after.tasks)
            == SetIntervals(script) + RunIntervals(Acts(START, script), turns)
  {
    assert Counted(START) == 0 && AllKnown(START);
    ActsCount(START, script);
    ActsKeepInv(START, script);
    ActsKeepTasks(START, script);
    hide Acts, Inv, Intervals;
    RunCounts(Acts(START, script), turns);
  }

  // ---------- the id of an interval ----------

  /** After a round no timer holds the id any more, so clearing it leaves the interval running. */
  lemma ClearIntervalMisses(s: Loop, index: nat, nextHandle: int)
    requires Inv(s) && !s.failed && index < |s.queue| && TimerAllowed(s, s.queue[index].task, [], nextHandle)
    requires s.tasks[s.queue[index].task].repeat
    ensures var id, after := s.tasks[s.queue[index].task].handle, RunSelected(s, index, TimerReturns([], nextHandle));
            var cleared := Act(after, ClearTimer(id));
            && id !in after.live && after.queue != []
            && after.tasks[after.queue[|after.queue| - 1].task] == Timer(nextHandle, true)
            && (FindsTimer(after, ClearTimer(id)) ==> cleared.queue == after.queue && cleared.tasks == after.tasks)
  {
    var task := s.queue[index].task;
    var id, after := s.tasks[task].handle, RunSelected(s, index, TimerReturns([], nextHandle));
    assert Acts(s, []) == s;
    assert NoEarlyCancel(s, [], index) && FindsTimers(s, []);
    assert task in Waiting(s.queue);
    RoundLeaves(s, index, [], nextHandle);
    TimerRunIs(s, index, [], nextHandle);
    TimerTurn(s, index, [], nextHandle);
    assert after.live == s.live + {nextHandle} - {id} && nextHandle != id;
    NotLive(after, id);
  }

  lemma NotLive(s: Loop, id: int)
    requires Inv(s) && !s.failed && id !in s.live
    ensures FindsTimer(s, ClearTimer(id)) ==> Act(s, ClearTimer(id)).queue == s.queue && Act(s, ClearTimer(id)).tasks == s.tasks
  {
    var k := Find(s, id, 0);
    if k < |s.queue| {
      assert s.queue[k].task in Waiting(s.queue);
    }
  }
}
