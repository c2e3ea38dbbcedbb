/** What holds at every head of the event loop, and exactly when erasing by the captured index is right. */
module EventLoopTheorems {
  import opened BodyAppend
  import opened EventLoopState

  // ---------- the invariant ----------

  function Waiting(queue: seq<Entry>): set<nat> {
    set e | e in queue :: e.task
  }

  /** Every entry is as it was queued, entries stand in the order of queueing, and no task stands twice. */
  predicate QueueOk(queue: seq<Entry>, tasks: seq<Task>, queued: seq<Entry>) {
    && (forall i :: 0 <= i < |queue| ==> queue[i].task < |tasks| && queue[i].serial < |queued| && queued[queue[i].serial] == queue[i])
    && (forall i, j :: 0 <= i < j < |queue| ==> queue[i].serial < queue[j].serial && queue[i].task != queue[j].task)
  }

  /** The timers in the queue hold the live handles, one each; the others hold none. */
  predicate HandlesOk(tasks: seq<Task>, waiting: set<nat>, live: set<int>) {
    && (forall t :: 0 <= t < |tasks| && tasks[t].Timer? ==>
          if t in waiting then tasks[t].handle in live && tasks[t].handle >= 0 else tasks[t].handle == INVALID_HANDLE)
    && (forall t, u :: 0 <= t < u < |tasks| && tasks[t].Timer? && tasks[u].Timer? && t in waiting && u in waiting ==>
          tasks[t].handle != tasks[u].handle)
    && (forall h :: h in live ==> Owned(tasks, waiting, h))
  }

  predicate Holds(tasks: seq<Task>, waiting: set<nat>, t: nat, handle: int) {
    t < |tasks| && tasks[t].Timer? && t in waiting && tasks[t].handle == handle
  }

  predicate Owned(tasks: seq<Task>, waiting: set<nat>, handle: int) {
    exists t :: 0 <= t < |tasks| && Holds(tasks, waiting, t, handle)
  }

  /** While the loop goes on, an append task in the queue is blocked, and one out of it is done. */
  predicate AppendsOk(tasks: seq<Task>, waiting: set<nat>) {
    forall t :: 0 <= t < |tasks| && tasks[t].Append? ==> if t in waiting then Blocked(tasks[t].state) else tasks[t].state.Done?
  }

  /** Every call to `queue_async_task` is accounted for once: its task ran, was cancelled, or waits. */
  predicate Conserved(s: Loop) {
    multiset(s.queued) == multiset(s.ran) + multiset(s.cancelled) + multiset(s.queue)
  }

  predicate Inv(s: Loop) {
    && QueueOk(s.queue, s.tasks, s.queued)
    && HandlesOk(s.tasks, Waiting(s.queue), s.live)
    && (s.failed || AppendsOk(s.tasks, Waiting(s.queue)))
    && Conserved(s)
    && s.faults == {}
  }

  // ---------- changes of the queue ----------

  lemma WaitingSnoc(queue: seq<Entry>, e: Entry)
    ensures Waiting(queue + [e]) == Waiting(queue) + {e.task}
  {
  }

  function Without(queue: seq<Entry>, k: nat): seq<Entry>
    requires k < |queue|
  {
    queue[..k] + queue[k + 1..]
  }

  lemma WithoutAt(queue: seq<Entry>, k: nat)
    requires k < |queue|
    ensures |Without(queue, k)| == |queue| - 1
    ensures forall i :: 0 <= i < |queue| - 1 ==> Without(queue, k)[i] == queue[if i < k then i else i + 1]
    ensures multiset(queue) == multiset(Without(queue, k)) + multiset{queue[k]}
  {
    assert queue == queue[..k] + [queue[k]] + queue[k + 1..];
  }

  lemma WithoutWaiting(queue: seq<Entry>, k: nat)
    requires k < |queue| && forall i, j :: 0 <= i < j < |queue| ==> queue[i].task != queue[j].task
    ensures Waiting(Without(queue, k)) == Waiting(queue) - {queue[k].task}
  {
    WithoutAt(queue, k);
    hide Without;
    var rest := Without(queue, k);
    forall t | t in Waiting(queue) && t != queue[k].task
      ensures t in Waiting(rest)
    {
      var e :| e in queue && e.task == t;
      var i :| 0 <= i < |queue| && queue[i] == e;
      assert rest[if i < k then i else i - 1] == e;
    }
  }

  lemma WithoutOk(queue: seq<Entry>, k: nat, tasks: seq<Task>, queued: seq<Entry>)
    requires k < |queue| && QueueOk(queue, tasks, queued)
    ensures QueueOk(Without(queue, k), tasks, queued)
    ensures Waiting(Without(queue, k)) == Waiting(queue) - {queue[k].task}
    ensures multiset(queue) == multiset(Without(queue, k)) + multiset{queue[k]}
  {
    WithoutAt(queue, k);
    WithoutWaiting(queue, k);
    hide Without, Waiting;
  }

  // ---------- asking for ids ----------

  lemma {:induction false} NothingWrongAsked(s: Loop, n: nat)
    requires Inv(s) && !s.failed && n <= |s.queue|
    ensures Asked(s, n) == {}
  {
    if n > 0 {
      NothingWrongAsked(s, n - 1);
      assert s.queue[n - 1].task in Waiting(s.queue);
    }
  }

  // ---------- changes of the tasks ----------

  /** A timer that loses its place and its handle. */
  lemma HandleGone(tasks: seq<Task>, waiting: set<nat>, live: set<int>, t: nat)
    requires HandlesOk(tasks, waiting, live) && t < |tasks| && tasks[t].Timer? && t in waiting
    ensures HandlesOk(tasks[t := tasks[t].(handle := INVALID_HANDLE)], waiting - {t}, live - {tasks[t].handle})
  {
    var after := tasks[t := tasks[t].(handle := INVALID_HANDLE)];
    forall h | h in live - {tasks[t].handle}
      ensures Owned(after, waiting - {t}, h)
    {
      var u :| 0 <= u < |tasks| && Holds(tasks, waiting, u, h);
      assert Holds(after, waiting - {t}, u, h);
    }
  }

  /** An append task that changes its state, in the queue or on leaving it. */
  lemma HandlesOfAppend(tasks: seq<Task>, waiting: set<nat>, live: set<int>, t: nat, task: Task)
    requires HandlesOk(tasks, waiting, live) && t < |tasks| && tasks[t].Append? && task.Append?
    ensures HandlesOk(tasks[t := task], waiting, live) && HandlesOk(tasks[t := task], waiting - {t}, live)
  {
    forall h | h in live
      ensures Owned(tasks[t := task], waiting, h)
      ensures Owned(tasks[t := task], waiting - {t}, h)
    {
      var u :| 0 <= u < |tasks| && Holds(tasks, waiting, u, h);
      assert Holds(tasks[t := task], waiting, u, h) && Holds(tasks[t := task], waiting - {t}, u, h);
    }
  }

  /** A new task, which holds a fresh handle if it is a timer. */
  lemma HandleNew(tasks: seq<Task>, waiting: set<nat>, live: set<int>, task: Task)
    requires HandlesOk(tasks, waiting, live) && forall t :: t in waiting ==> t < |tasks|
    requires task.Timer? ==> task.handle >= 0 && task.handle !in live
    ensures HandlesOk(tasks + [task], waiting + {|tasks|}, if task.Timer? then live + {task.handle} else live)
  {
    var after, n := tasks + [task], |tasks|;
    assert after[n] == task && forall t :: 0 <= t < n ==> after[t] == tasks[t];
    forall h | h in if task.Timer? then live + {task.handle} else live
      ensures Owned(after, waiting + {n}, h)
    {
      if h in live {
        var t :| 0 <= t < n && Holds(tasks, waiting, t, h);
        assert Holds(after, waiting + {n}, t, h);
      } else {
        assert Holds(after, waiting + {n}, n, h);
      }
    }
  }

  // ---------- taking a task out of the queue ----------

  /** A queued timer that is cancelled and whose entry goes leaves the rest of the invariant as it was. */
  lemma RetireTimer(s: Loop, k: nat)
    requires Inv(s) && !s.failed && k < |s.queue| && s.tasks[s.queue[k].task].Timer?
    ensures var after := CancelTask(s, s.queue[k].task);
            && QueueOk(Without(s.queue, k), after.tasks, s.queued)
            && HandlesOk(after.tasks, Waiting(Without(s.queue, k)), after.live)
            && AppendsOk(after.tasks, Waiting(Without(s.queue, k)))
            && after.faults == {}
  {
    WithoutOk(s.queue, k, s.tasks, s.queued);
    assert s.queue[k].task in Waiting(s.queue);
    HandleGone(s.tasks, Waiting(s.queue), s.live, s.queue[k].task);
    hide Without, Waiting;
  }

  /** The same for an append task that ended. */
  lemma RetireAppend(s: Loop, k: nat)
    requires Inv(s) && !s.failed && k < |s.queue| && s.tasks[s.queue[k].task].Append?
    ensures var after := SetAppendState(s, s.queue[k].task, Done);
            && QueueOk(Without(s.queue, k), after.tasks, s.queued)
            && HandlesOk(after.tasks, Waiting(Without(s.queue, k)), after.live)
            && AppendsOk(after.tasks, Waiting(Without(s.queue, k)))
  {
    WithoutOk(s.queue, k, s.tasks, s.queued);
    HandlesOfAppend(s.tasks, Waiting(s.queue), s.live, s.queue[k].task, s.tasks[s.queue[k].task].(state := Done));
    hide Without, Waiting, HandlesOk;
  }

  // ---------- user code ----------

  /** The host answers a subscription with a handle that is not in use. */
  predicate Allowed(s: Loop, action: Action)
    requires Allocated(s)
  {
    action.SetTimer? ==> action.handle >= 0 && action.handle !in s.live
  }

  predicate AllAllowed(s: Loop, actions: seq<Action>)
    requires Allocated(s)
    decreases |actions|
  {
    actions != [] ==>
      var before := actions[..|actions| - 1];
      AllAllowed(s, before) && Allowed(Acts(s, before), actions[|actions| - 1])
  }

  /** The task that a `clearTimeout` finds first, if any, is a timer. */
  predicate FindsTimer(s: Loop, action: Action)
    requires Allocated(s)
  {
    action.ClearTimer? ==> var k := Find(s, action.id, 0); k == |s.queue| || s.tasks[s.queue[k].task].Timer?
  }

  predicate FindsTimers(s: Loop, actions: seq<Action>)
    requires Allocated(s)
    decreases |actions|
  {
    actions != [] ==>
      var before := actions[..|actions| - 1];
      FindsTimers(s, before) && FindsTimer(Acts(s, before), actions[|actions| - 1])
  }

  lemma QueueNew(s: Loop, task: Task)
    requires Inv(s) && !s.failed
    requires if task.Timer? then task.handle >= 0 && task.handle !in s.live else Blocked(task.state)
    ensures Inv(QueueAsyncTask(s.(tasks := s.tasks + [task], live := if task.Timer? then s.live + {task.handle} else s.live), |s.tasks|))
  {
    var entry := Entry(|s.tasks|, |s.queued|);
    WaitingSnoc(s.queue, entry);
    NewQueueOk(s, task);
    HandleNew(s.tasks, Waiting(s.queue), s.live, task);
    NewAppendsOk(s.tasks, Waiting(s.queue), task);
    hide HandlesOk, QueueOk, AppendsOk, Waiting;
  }

  lemma NewQueueOk(s: Loop, task: Task)
    requires QueueOk(s.queue, s.tasks, s.queued)
    ensures var entry := Entry(|s.tasks|, |s.queued|); QueueOk(s.queue + [entry], s.tasks + [task], s.queued + [entry])
    ensures forall t :: t in Waiting(s.queue) ==> t < |s.tasks|
  {
  }

  lemma NewAppendsOk(tasks: seq<Task>, waiting: set<nat>, task: Task)
    requires AppendsOk(tasks, waiting) && (task.Append? ==> Blocked(task.state))
    ensures AppendsOk(tasks + [task], waiting + {|tasks|})
  {
  }

  lemma CancelIs(s: Loop, id: int, k: nat)
    requires Inv(s) && !s.failed && k == Find(s, id, 0)
    ensures CancelAsyncTask(s, id) ==
      if k == |s.queue| then s
      else CancelTask(s, s.queue[k].task).(queue := Without(s.queue, k), cancelled := s.cancelled + [s.queue[k]])
  {
    if k < |s.queue| {
      NothingWrongAsked(s, k + 1);
      assert s.(faults := s.faults + {}) == s;
    } else {
      NothingWrongAsked(s, k);
    }
    hide Asked, CancelTask, Find;
  }

  lemma CancelTimerKeepsInv(s: Loop, k: nat)
    requires Inv(s) && !s.failed && k < |s.queue| && s.tasks[s.queue[k].task].Timer?
    ensures Inv(CancelTask(s, s.queue[k].task).(queue := Without(s.queue, k), cancelled := s.cancelled + [s.queue[k]]))
  {
    RetireTimer(s, k);
    WithoutOk(s.queue, k, s.tasks, s.queued);
    hide QueueOk, HandlesOk, AppendsOk, Waiting, Without;
  }

  /** Cancelling by id keeps the invariant if and only if the id is not first found at an append task. */
  lemma {:induction false} CancelKeepsInv(s: Loop, id: int)
    requires Inv(s) && !s.failed
    ensures Inv(CancelAsyncTask(s, id)) <==> FindsTimer(s, ClearTimer(id))
  {
    var k := Find(s, id, 0);
    CancelIs(s, id, k);
    if k < |s.queue| {
      if s.tasks[s.queue[k].task].Timer? {
        CancelTimerKeepsInv(s, k);
      } else {
        ActKeepsFaults(s, ClearTimer(id));
      }
    }
    hide QueueOk, HandlesOk, AppendsOk, Conserved, CancelAsyncTask, Without, Find;
  }

  lemma ActKeepsInv(s: Loop, action: Action)
    requires Inv(s) && !s.failed && Allowed(s, action)
    ensures Inv(Act(s, action)) <==> FindsTimer(s, action)
  {
    match action
    case SetTimer(handle, repeat) => QueueNew(s, Timer(handle, repeat));
    case AppendBody(incoming, outgoing) => QueueNew(s, Append(BlockedOnBoth, incoming, outgoing));
    case ClearTimer(id) => CancelKeepsInv(s, id);
    case QueueJob =>
  }

  /** A recorded fault stays, whatever user code does. */
  lemma ActKeepsFaults(s: Loop, action: Action)
    requires Allocated(s)
    ensures s.faults <= Act(s, action).faults
    ensures !FindsTimer(s, action) ==> AppendCancelled in Act(s, action).faults
  {
    hide Asked, Find;
  }

  lemma {:induction false} ActsKeepFaults(s: Loop, actions: seq<Action>)
    requires Allocated(s)
    ensures s.faults <= Acts(s, actions).faults
    ensures !FindsTimers(s, actions) ==> AppendCancelled in Acts(s, actions).faults
    decreases |actions|
  {
    if actions != [] {
      ActsKeepFaults(s, actions[..|actions| - 1]);
      ActKeepsFaults(Acts(s, actions[..|actions| - 1]), actions[|actions| - 1]);
      hide Act, FindsTimer;
    }
  }

  lemma {:induction false} ActsKeepInv(s: Loop, actions: seq<Action>)
    requires Inv(s) && !s.failed && AllAllowed(s, actions)
    ensures Inv(Acts(s, actions)) <==> FindsTimers(s, actions)
    decreases |actions|
  {
    ActsKeepFaults(s, actions);
    if actions != [] && FindsTimers(s, actions) {
      ActsKeepInv(s, actions[..|actions| - 1]);
      ActsKeepTasks(s, actions[..|actions| - 1]);
      ActKeepsInv(Acts(s, actions[..|actions| - 1]), actions[|actions| - 1]);
    }
  }

  // ---------- jobs ----------

  function QueuedJobs(actions: seq<Action>): nat {
    if actions == [] then 0 else QueuedJobs(actions[..|actions| - 1]) + if actions[|actions| - 1].QueueJob? then 1 else 0
  }

  /** Every promise reaction that user code queues is pending until the jobs are run, and the loop waits for it. */
  lemma {:induction false} JobsWait(s: Loop, actions: seq<Action>)
    requires Allocated(s)
    ensures Acts(s, actions).jobs == s.jobs + QueuedJobs(actions)
    ensures !s.failed && QueuedJobs(actions) > 0 ==> !Over(Acts(s, actions))
    decreases |actions|
  {
    if actions != [] {
      JobsWait(s, actions[..|actions| - 1]);
      ActKeepsJobs(Acts(s, actions[..|actions| - 1]), actions[|actions| - 1]);
      ActsKeepTasks(s, actions);
      hide Act;
    }
  }

  lemma ActKeepsJobs(s: Loop, action: Action)
    requires Allocated(s)
    ensures Act(s, action).jobs == s.jobs + if action.QueueJob? then 1 else 0
  {
    hide Asked, Find;
  }

  // ---------- the captured index ----------

  /** The entry at `index` and all before it survive this action. */
  predicate Spares(s: Loop, action: Action, index: nat)
    requires Allocated(s)
  {
    action.ClearTimer? ==> var k := Find(s, action.id, 0); k == |s.queue| || k > index
  }

  /** No entry at a position up to `index` is cancelled. */
  predicate NoEarlyCancel(s: Loop, actions: seq<Action>, index: nat)
    requires Allocated(s)
    decreases |actions|
  {
    actions != [] ==>
      var before := actions[..|actions| - 1];
      NoEarlyCancel(s, before, index) && Spares(Acts(s, before), actions[|actions| - 1], index)
  }

  predicate At(queue: seq<Entry>, p: nat, task: nat) {
    p < |queue| && queue[p].task == task
  }

  /** The task is not queued any more, or stands before `index`. */
  predicate Displaced(queue: seq<Entry>, task: nat, index: nat) {
    forall p :: 0 <= p < |queue| && At(queue, p, task) ==> p < index
  }

  lemma RemovalMoves(queue: seq<Entry>, k: nat, index: nat, task: nat)
    requires k < |queue| && forall i, j :: 0 <= i < j < |queue| ==> queue[i].task != queue[j].task
    ensures At(queue, index, task) && k > index ==> At(Without(queue, k), index, task)
    ensures At(queue, index, task) && k <= index ==> Displaced(Without(queue, k), task, index)
    ensures Displaced(queue, task, index) ==> Displaced(Without(queue, k), task, index)
  {
    var after := Without(queue, k);
    forall p | 0 <= p < |after| && At(after, p, task)
      ensures At(queue, if p < k then p else p + 1, task)
    {
    }
  }

  lemma SnocMoves(queue: seq<Entry>, x: Entry, index: nat, task: nat)
    requires x.task != task
    ensures At(queue, index, task) ==> At(queue + [x], index, task)
    ensures Displaced(queue, task, index) ==> Displaced(queue + [x], task, index)
  {
    forall p | 0 <= p < |queue + [x]| && At(queue + [x], p, task)
      ensures At(queue, p, task)
    {
    }
  }

  lemma QueueOkAllocated(s: Loop, tasks: seq<Task>)
    requires QueueOk(s.queue, s.tasks, s.queued)
    ensures Allocated(s) && (|tasks| == |s.tasks| ==> QueueOk(s.queue, tasks, s.queued))
  {
  }

  lemma ActKeepsQueueOk(s: Loop, action: Action)
    requires QueueOk(s.queue, s.tasks, s.queued)
    ensures var after := Act(s, action); QueueOk(after.queue, after.tasks, after.queued)
  {
    hide QueueOk;
    QueueOkAllocated(s, s.tasks);
    match action
    case SetTimer(handle, repeat) => NewQueueOk(s, Timer(handle, repeat));
    case AppendBody(incoming, outgoing) => NewQueueOk(s, Append(BlockedOnBoth, incoming, outgoing));
    case ClearTimer(id) =>
      var k := Find(s, id, 0);
      if k < |s.queue| {
        var tasks := Act(s, action).tasks;
        QueueOkAllocated(s, tasks);
        WithoutOk(s.queue, k, tasks, s.queued);
      }
    case QueueJob =>
  }

  lemma {:induction false} ActsKeepQueueOk(s: Loop, actions: seq<Action>)
    requires QueueOk(s.queue, s.tasks, s.queued)
    ensures var after := Acts(s, actions); QueueOk(after.queue, after.tasks, after.queued)
    decreases |actions|
  {
    if actions != [] {
      ActsKeepQueueOk(s, actions[..|actions| - 1]);
      ActKeepsQueueOk(Acts(s, actions[..|actions| - 1]), actions[|actions| - 1]);
      hide Act, QueueOk;
    }
  }

  /** One action leaves the task where it is, unless it cancels that task or one before it. */
  lemma ActMovesTask(s: Loop, action: Action, index: nat, task: nat)
    requires QueueOk(s.queue, s.tasks, s.queued) && task < |s.tasks|
    ensures At(s.queue, index, task) && Spares(s, action, index) ==> At(Act(s, action).queue, index, task)
    ensures At(s.queue, index, task) && !Spares(s, action, index) ==> Displaced(Act(s, action).queue, task, index)
    ensures Displaced(s.queue, task, index) ==> Displaced(Act(s, action).queue, task, index)
  {
    TasksDiffer(s);
    hide At, Displaced, QueueOk;
    match action
    case ClearTimer(id) =>
      var k := Find(s, id, 0);
      if k < |s.queue| {
        RemovalMoves(s.queue, k, index, task);
        assert Act(s, action).queue == Without(s.queue, k);
      }
    case QueueJob =>
    case _ => SnocMoves(s.queue, Entry(|s.tasks|, |s.queued|), index, task);
  }

  lemma ActKeepsEntry(s: Loop, action: Action, index: nat)
    requires Allocated(s) && index < |s.queue| && Spares(s, action, index)
    ensures index < |Act(s, action).queue| && Act(s, action).queue[index] == s.queue[index]
  {
  }

  lemma {:induction false} ActsKeepEntry(s: Loop, actions: seq<Action>, index: nat)
    requires Allocated(s) && index < |s.queue| && NoEarlyCancel(s, actions, index)
    ensures index < |Acts(s, actions).queue| && Acts(s, actions).queue[index] == s.queue[index]
    decreases |actions|
  {
    if actions != [] {
      var before := actions[..|actions| - 1];
      ActsKeepEntry(s, before, index);
      ActKeepsEntry(Acts(s, before), actions[|actions| - 1], index);
      hide Act;
    }
  }

  lemma TasksDiffer(s: Loop)
    requires QueueOk(s.queue, s.tasks, s.queued)
    ensures Allocated(s) && forall i, j :: 0 <= i < j < |s.queue| ==> s.queue[i].task != s.queue[j].task
  {
  }

  /** After any user code the task is still at `index` if and only if nothing up to it was cancelled. */
  lemma {:induction false} ActsMoveTask(s: Loop, actions: seq<Action>, index: nat)
    requires QueueOk(s.queue, s.tasks, s.queued) && index < |s.queue|
    ensures At(Acts(s, actions).queue, index, s.queue[index].task) <==> NoEarlyCancel(s, actions, index)
    ensures NoEarlyCancel(s, actions, index) || Displaced(Acts(s, actions).queue, s.queue[index].task, index)
    decreases |actions|
  {
    if actions != [] {
      var before := actions[..|actions| - 1];
      ActsMoveTask(s, before, index);
      ActsKeepQueueOk(s, before);
      ActsKeepTasks(s, before);
      hide Acts, Act, QueueOk;
      ActMovesTask(Acts(s, before), actions[|actions| - 1], index, s.queue[index].task);
    }
  }

  // ---------- a turn ----------

  lemma PollingIsSafe(s: Loop)
    requires Inv(s) && !s.failed
    ensures s.(faults := s.faults + Asked(s, |s.queue|)) == s
  {
    NothingWrongAsked(s, |s.queue|);
  }

  /** The state when a timer's callback has returned and the next round of an interval is queued. */
  function Called(s: Loop, task: nat, actions: seq<Action>, nextHandle: int): Loop
    requires Allocated(s) && task < |s.tasks|
  {
    if s.tasks[task].Timer? && s.tasks[task].repeat then Act(Acts(s, actions), SetTimer(nextHandle, true)) else Acts(s, actions)
  }

  predicate TimerAllowed(s: Loop, task: nat, actions: seq<Action>, nextHandle: int)
    requires Allocated(s) && task < |s.tasks|
  {
    && s.tasks[task].Timer?
    && AllAllowed(s, actions)
    && (s.tasks[task].repeat ==> Allowed(Acts(s, actions), SetTimer(nextHandle, true)))
  }

  lemma CalledOk(s: Loop, index: nat, actions: seq<Action>, nextHandle: int)
    requires Inv(s) && !s.failed && index < |s.queue| && TimerAllowed(s, s.queue[index].task, actions, nextHandle) && FindsTimers(s, actions)
    ensures var task, called := s.queue[index].task, Called(s, s.queue[index].task, actions, nextHandle);
            && Inv(called) && !called.failed && task < |called.tasks| && called.tasks[task].Timer?
            && (if NoEarlyCancel(s, actions, index) then index < |called.queue| && called.queue[index] == s.queue[index]
                else Displaced(called.queue, task, index))
  {
    var task := s.queue[index].task;
    ActsKeepInv(s, actions);
    ActsKeepTasks(s, actions);
    ActsMoveTask(s, actions, index);
    if NoEarlyCancel(s, actions, index) {
      ActsKeepEntry(s, actions, index);
    }
    if s.tasks[task].repeat {
      ActKeepsInv(Acts(s, actions), SetTimer(nextHandle, true));
      ActMovesTask(Acts(s, actions), SetTimer(nextHandle, true), index, task);
    }
  }

  /** Erasing the timer that ran keeps the invariant. */
  lemma EraseTheRightOne(s: Loop, index: nat, entry: Entry)
    requires Inv(s) && !s.failed && index < |s.queue| && s.queue[index] == entry && s.tasks[entry.task].Timer?
    ensures Inv(Erase(CancelTask(s, entry.task).(ran := s.ran + [entry]), index))
  {
    RetireTimer(s, index);
    WithoutOk(s.queue, index, s.tasks, s.queued);
    hide QueueOk, HandlesOk, AppendsOk, Waiting;
  }

  predicate Dead(task: Task) {
    task.Timer? && task.handle == INVALID_HANDLE
  }

  /** An assertion has failed, or is bound to fail: a timer without a handle stands in the queue. */
  predicate Broken(s: Loop)
    requires Allocated(s)
  {
    s.faults != {} || exists i :: 0 <= i < |s.queue| && Dead(s.tasks[s.queue[i].task])
  }

  lemma InvIsNotBroken(s: Loop)
    requires Inv(s)
    ensures Allocated(s) && !Broken(s)
  {
    forall i | 0 <= i < |s.queue|
      ensures !Dead(s.tasks[s.queue[i].task])
    {
      assert s.queue[i].task in Waiting(s.queue);
    }
  }

  /** Erasing anything else, or past the end, leaves a timer without a handle, or a fault. */
  lemma EraseTheWrongOne(s: Loop, index: nat, task: nat, entry: Entry)
    requires Inv(s) && !s.failed && task < |s.tasks| && s.tasks[task].Timer? && Displaced(s.queue, task, index)
    ensures var after := Erase(CancelTask(s, task).(ran := s.ran + [entry]), index); Allocated(after) && Broken(after)
  {
    var after := Erase(CancelTask(s, task).(ran := s.ran + [entry]), index);
    if task in Waiting(s.queue) {
      var e :| e in s.queue && e.task == task;
      var p :| 0 <= p < |s.queue| && s.queue[p] == e;
      assert At(s.queue, p, task);
      if index < |s.queue| {
        assert after.queue[p] == e && Dead(after.tasks[after.queue[p].task]);
      } else {
        assert EraseOutOfRange in after.faults;
      }
    } else {
      assert NoHandle in after.faults;
    }
  }

  lemma TimerRunIs(s: Loop, index: nat, actions: seq<Action>, nextHandle: int)
    requires Inv(s) && !s.failed && index < |s.queue| && TimerAllowed(s, s.queue[index].task, actions, nextHandle)
    ensures var entry := s.queue[index];
            var called := Called(s, entry.task, actions, nextHandle);
            && entry.task < |called.tasks|
            && RunSelected(s, index, TimerReturns(actions, nextHandle)) == Erase(CancelTask(called, entry.task).(ran := called.ran + [entry]), index)
  {
    PollingIsSafe(s);
    ActsKeepTasks(s, actions);
    hide Acts, Inv, Erase, TimerAllowed, Asked;
  }

  lemma CalledKeepsFaults(s: Loop, task: nat, actions: seq<Action>, nextHandle: int)
    requires Allocated(s) && task < |s.tasks|
    ensures var called := Called(s, task, actions, nextHandle);
            Acts(s, actions).faults <= called.faults && task < |called.tasks| && called.faults <= CancelTask(called, task).faults
  {
    ActsKeepTasks(s, actions);
    hide Acts;
  }

  lemma RunTaskKeepsFaults(s: Loop, task: nat, outcome: Outcome)
    requires Allocated(s) && task < |s.tasks|
    ensures s.faults <= RunTask(s, task, outcome).faults
    ensures outcome.TimerReturns? || outcome.Fails? ==> Acts(s, outcome.actions).faults <= RunTask(s, task, outcome).faults
  {
    if outcome.TimerReturns? || outcome.Fails? {
      ActsKeepFaults(s, outcome.actions);
    }
    if outcome.TimerReturns? {
      CalledKeepsFaults(s, task, outcome.actions, outcome.nextHandle);
    }
    hide Acts, Act, CancelTask;
  }

  lemma RunKeepsFaults(s: Loop, index: nat, outcome: Outcome)
    requires Allocated(s) && index < |s.queue|
    ensures s.faults + Asked(s, |s.queue|) <= RunSelected(s, index, outcome).faults
    ensures outcome.TimerReturns? || outcome.Fails? ==>
      Acts(s.(faults := s.faults + Asked(s, |s.queue|)), outcome.actions).faults <= RunSelected(s, index, outcome).faults
  {
    RunTaskKeepsFaults(s.(faults := s.faults + Asked(s, |s.queue|)), s.queue[index].task, outcome);
    hide Acts, Asked, RunTask;
  }

  /**
    A timer's turn keeps the invariant if and only if its callback cancelled nothing at or before the
    index at which the timer stood when it was selected, and no append task.
  */
  lemma {:induction false} TimerTurn(s: Loop, index: nat, actions: seq<Action>, nextHandle: int)
    requires Inv(s) && !s.failed && index < |s.queue| && TimerAllowed(s, s.queue[index].task, actions, nextHandle)
    ensures var after := RunSelected(s, index, TimerReturns(actions, nextHandle));
            if NoEarlyCancel(s, actions, index) && FindsTimers(s, actions) then Inv(after) else Broken(after)
  {
    var entry := s.queue[index];
    if FindsTimers(s, actions) {
      CalledOk(s, index, actions, nextHandle);
      TimerRunIs(s, index, actions, nextHandle);
      var called := Called(s, entry.task, actions, nextHandle);
      hide Acts, Act, Inv, Erase, NoEarlyCancel, RunSelected, Called, TimerAllowed, CancelTask, Displaced, Broken;
      if NoEarlyCancel(s, actions, index) {
        EraseTheRightOne(called, index, entry);
      } else {
        EraseTheWrongOne(called, index, entry.task, entry);
      }
    } else {
      HarmStays(s, index, TimerReturns(actions, nextHandle));
    }
  }

  /** Clearing an append task leaves its fault. */
  lemma HarmStays(s: Loop, index: nat, outcome: Outcome)
    requires Inv(s) && !s.failed && index < |s.queue| && (outcome.TimerReturns? || outcome.Fails?) && !FindsTimers(s, outcome.actions)
    ensures Broken(RunSelected(s, index, outcome))
  {
    PollingIsSafe(s);
    RunKeepsFaults(s, index, outcome);
    ActsKeepFaults(s, outcome.actions);
    hide Acts, Asked, RunSelected, Inv;
  }

  /** An append task that ends leaves the queue for good. */
  lemma {:induction false} AppendEndsTurn(s: Loop, index: nat)
    requires Inv(s) && !s.failed && index < |s.queue| && s.tasks[s.queue[index].task].Append?
    ensures Inv(RunSelected(s, index, AppendEnds))
  {
    PollingIsSafe(s);
    RetireAppend(s, index);
    WithoutOk(s.queue, index, s.tasks, s.queued);
    hide QueueOk, HandlesOk, AppendsOk, Waiting, Asked;
  }

  lemma RequeuedOk(queue: seq<Entry>, k: nat, tasks: seq<Task>, queued: seq<Entry>)
    requires k < |queue| && QueueOk(queue, tasks, queued)
    ensures var entry := Entry(queue[k].task, |queued|);
            && QueueOk(Without(queue, k) + [entry], tasks, queued + [entry])
            && Waiting(Without(queue, k) + [entry]) == Waiting(queue)
  {
    var entry := Entry(queue[k].task, |queued|);
    WithoutOk(queue, k, tasks, queued);
    WaitingSnoc(Without(queue, k), entry);
    assert queue[k].task in Waiting(queue);
  }

  /** What the queue becomes: the old entry goes, a new one comes last. */
  lemma AppendBlocksIs(s: Loop, index: nat, next: AppendState)
    requires Inv(s) && !s.failed && index < |s.queue| && s.tasks[s.queue[index].task].Append?
    ensures var task, entry := s.queue[index].task, Entry(s.queue[index].task, |s.queued|);
            RunSelected(s, index, AppendBlocks(next)) ==
              s.(queue := Without(s.queue, index) + [entry], tasks := s.tasks[task := s.tasks[task].(state := next)],
                 queued := s.queued + [entry], ran := s.ran + [s.queue[index]])
  {
    var entry := Entry(s.queue[index].task, |s.queued|);
    PollingIsSafe(s);
    assert (s.queue + [entry])[..index] + (s.queue + [entry])[index + 1..] == Without(s.queue, index) + [entry];
    hide Inv, Asked;
  }

  /** An append task that blocks again stands in the queue once, at its end. */
  lemma {:induction false} AppendBlocksTurn(s: Loop, index: nat, next: AppendState)
    requires Inv(s) && !s.failed && index < |s.queue| && s.tasks[s.queue[index].task].Append? && Blocked(next)
    ensures Inv(RunSelected(s, index, AppendBlocks(next)))
  {
    var task, blocked := s.queue[index].task, s.tasks[s.queue[index].task].(state := next);
    AppendBlocksIs(s, index, next);
    assert QueueOk(s.queue, s.tasks[task := blocked], s.queued);
    RequeuedOk(s.queue, index, s.tasks[task := blocked], s.queued);
    WithoutOk(s.queue, index, s.tasks, s.queued);
    HandlesOfAppend(s.tasks, Waiting(s.queue), s.live, task, blocked);
    assert AppendsOk(s.tasks[task := blocked], Waiting(s.queue)) by {
      assert task in Waiting(s.queue);
    }
    hide QueueOk, HandlesOk, AppendsOk, Waiting, RunSelected, Without;
  }

  lemma FailingTurn(s: Loop, index: nat, actions: seq<Action>)
    requires Inv(s) && !s.failed && index < |s.queue| && AllAllowed(s, actions)
    ensures var after := RunSelected(s, index, Fails(actions)); if FindsTimers(s, actions) then Inv(after) else Broken(after)
  {
    PollingIsSafe(s);
    ActsKeepInv(s, actions);
    ActsKeepFaults(s, actions);
    hide Acts, Asked, QueueOk, HandlesOk, AppendsOk, FindsTimers;
  }

  /** A body call that fails ends the loop; the task is left in the queue as it is. */
  lemma AppendFailsTurn(s: Loop, index: nat, left: AppendState)
    requires Inv(s) && !s.failed && index < |s.queue| && s.tasks[s.queue[index].task].Append?
    ensures Inv(RunSelected(s, index, AppendFails(left)))
  {
    var task := s.queue[index].task;
    PollingIsSafe(s);
    HandlesOfAppend(s.tasks, Waiting(s.queue), s.live, task, s.tasks[task].(state := left));
    QueueOkAllocated(s, s.tasks[task := s.tasks[task].(state := left)]);
    hide HandlesOk, AppendsOk, QueueOk, Waiting, Asked;
  }

  // ---------- whole runs ----------

  function Drained(s: Loop, turn: Turn): (r: Loop)
    requires Allocated(s)
    ensures Allocated(r)
  {
    if s.jobs > 0 then RunJobs(s, turn.jobActions) else s
  }

  /** How the run of the selected task can go. */
  predicate OutcomeAllowed(s: Loop, index: nat, outcome: Outcome)
    requires Allocated(s) && index < |s.queue|
  {
    var task := s.queue[index].task;
    match outcome
    case Fails(actions) => s.tasks[task].Timer? && AllAllowed(s, actions)
    case TimerReturns(actions, nextHandle) => TimerAllowed(s, task, actions, nextHandle)
    case AppendEnds => s.tasks[task].Append?
    case AppendBlocks(next) => s.tasks[task].Append? && Blocked(next)
    case AppendFails(_) => s.tasks[task].Append?
  }

  /** The host selects one of the tasks it is asked about. */
  predicate TurnAllowed(s: Loop, turn: Turn)
    requires Allocated(s)
  {
    && (s.jobs > 0 ==> AllAllowed(s, turn.jobActions))
    && var drained := Drained(s, turn);
       drained.queue != [] ==> turn.index < |drained.queue| && OutcomeAllowed(drained, turn.index, turn.outcome)
  }

  /** The callback of the selected timer cancels nothing up to the selected index. */
  predicate CancelsLater(s: Loop, turn: Turn)
    requires Allocated(s)
  {
    var drained := Drained(s, turn);
    turn.index < |drained.queue| && turn.outcome.TimerReturns? ==> NoEarlyCancel(drained, turn.outcome.actions, turn.index)
  }

  /** No `clearTimeout` of the turn first finds an append task. */
  predicate SparesAppends(s: Loop, turn: Turn)
    requires Allocated(s)
  {
    && (s.jobs > 0 ==> FindsTimers(s, turn.jobActions))
    && var drained := Drained(s, turn);
       turn.index < |drained.queue| && (turn.outcome.TimerReturns? || turn.outcome.Fails?) ==> FindsTimers(drained, turn.outcome.actions)
  }

  /** The jobs' user code keeps the invariant if and only if it clears no append task. */
  lemma DrainedOk(s: Loop, turn: Turn)
    requires Inv(s) && !s.failed && (s.jobs > 0 ==> AllAllowed(s, turn.jobActions))
    ensures Inv(Drained(s, turn)) <==> (s.jobs > 0 ==> FindsTimers(s, turn.jobActions))
    ensures (s.jobs > 0 && !FindsTimers(s, turn.jobActions) ==> AppendCancelled in Drained(s, turn).faults) && Drained(s, turn).failed == s.failed
    ensures Drained(s, turn).jobs == 0
  {
    if s.jobs > 0 {
      ActsKeepInv(s, turn.jobActions);
      ActsKeepFaults(s, turn.jobActions);
      ActsKeepTasks(s, turn.jobActions);
    }
  }

  /** A turn that meets both conditions keeps the invariant, and one that does not breaks it. */
  lemma {:induction false} TurnOutcome(s: Loop, turn: Turn)
    requires Inv(s) && !s.failed && TurnAllowed(s, turn)
    ensures if CancelsLater(s, turn) && SparesAppends(s, turn) then Inv(TakeTurn(s, turn)) else Broken(TakeTurn(s, turn))
  {
    DrainedOk(s, turn);
    var drained := Drained(s, turn);
    if turn.index < |drained.queue| {
      if Inv(drained) {
        hide Inv, RunSelected, NoEarlyCancel, FindsTimers, Broken;
        match turn.outcome
        case Fails(actions) => FailingTurn(drained, turn.index, actions);
        case TimerReturns(actions, nextHandle) => TimerTurn(drained, turn.index, actions, nextHandle);
        case AppendEnds => AppendEndsTurn(drained, turn.index);
        case AppendBlocks(next) => AppendBlocksTurn(drained, turn.index, next);
        case AppendFails(left) => AppendFailsTurn(drained, turn.index, left);
      } else {
        RunKeepsFaults(drained, turn.index, turn.outcome);
        hide Inv, RunSelected, NoEarlyCancel, FindsTimers;
      }
    }
  }

  /**
    A turn keeps the invariant if and only if the callback cancels nothing up to the selected index
    and no `clearTimeout` finds an append task.
  */
  lemma {:induction false} TurnKeepsInv(s: Loop, turn: Turn)
    requires Inv(s) && !s.failed && TurnAllowed(s, turn)
    ensures Inv(TakeTurn(s, turn)) <==> CancelsLater(s, turn) && SparesAppends(s, turn)
  {
    TurnOutcome(s, turn);
    hide TakeTurn, Broken;
    if Inv(TakeTurn(s, turn)) {
      InvIsNotBroken(TakeTurn(s, turn));
    }
  }

  // ---------- nothing mends a broken loop ----------

  lemma {:induction false} DeadIsAsked(s: Loop, n: nat, i: nat)
    requires Allocated(s) && i < n <= |s.queue| && Dead(s.tasks[s.queue[i].task])
    ensures NoHandle in Asked(s, n)
  {
    if i < n - 1 {
      DeadIsAsked(s, n - 1, i);
    }
  }

  lemma ActKeepsBroken(s: Loop, action: Action)
    requires Allocated(s) && Broken(s)
    ensures Broken(Act(s, action))
  {
    ActKeepsFaults(s, action);
    if s.faults == {} {
      var i :| 0 <= i < |s.queue| && Dead(s.tasks[s.queue[i].task]);
      var after := Act(s, action);
      if action.ClearTimer? {
        var k := Find(s, action.id, 0);
        if i <= k {
          DeadIsAsked(s, if k < |s.queue| then k + 1 else k, i);
        } else {
          assert after.queue[i - 1] == s.queue[i] && Dead(after.tasks[after.queue[i - 1].task]);
        }
      } else {
        assert after.queue[i] == s.queue[i] && Dead(after.tasks[after.queue[i].task]);
      }
    }
  }

  lemma {:induction false} ActsKeepBroken(s: Loop, actions: seq<Action>)
    requires Allocated(s) && Broken(s)
    ensures Broken(Acts(s, actions))
    decreases |actions|
  {
    if actions != [] {
      ActsKeepBroken(s, actions[..|actions| - 1]);
      ActKeepsBroken(Acts(s, actions[..|actions| - 1]), actions[|actions| - 1]);
      hide Act, Broken;
    }
  }

  lemma TurnKeepsBroken(s: Loop, turn: Turn)
    requires Allocated(s) && Broken(s)
    ensures Broken(TakeTurn(s, turn))
  {
    ActsKeepBroken(s, turn.jobActions);
    var drained := Drained(s, turn);
    assert Broken(drained);
    if turn.index < |drained.queue| {
      if drained.faults == {} {
        var i :| 0 <= i < |drained.queue| && Dead(drained.tasks[drained.queue[i].task]);
        DeadIsAsked(drained, |drained.queue|, i);
      }
      RunKeepsFaults(drained, turn.index, turn.outcome);
      hide RunSelected, Asked, Acts;
    }
  }

  // ---------- runs of turns ----------

  /** The host keeps its rules in every turn that is taken. */
  predicate RunAllowed(s: Loop, turns: seq<Turn>)
    requires Allocated(s)
    decreases |turns|
  {
    turns != [] ==>
      var before := RunEventLoop(s, turns[..|turns| - 1]);
      && RunAllowed(s, turns[..|turns| - 1])
      && ((|turns| > 1 && Over(before)) || TurnAllowed(before, turns[|turns| - 1]))
  }

  /** Every turn that is taken meets both conditions. */
  predicate InBounds(s: Loop, turns: seq<Turn>)
    requires Allocated(s)
    decreases |turns|
  {
    turns != [] ==>
      var before, turn := RunEventLoop(s, turns[..|turns| - 1]), turns[|turns| - 1];
      && InBounds(s, turns[..|turns| - 1])
      && ((|turns| > 1 && Over(before)) || (CancelsLater(before, turn) && SparesAppends(before, turn)))
  }

  lemma {:induction false} RunOutcome(s: Loop, turns: seq<Turn>)
    requires Inv(s) && !s.failed && RunAllowed(s, turns)
    ensures var after := RunEventLoop(s, turns); if InBounds(s, turns) then Inv(after) else Broken(after)
    decreases |turns|
  {
    if turns != [] {
      RunOutcome(s, turns[..|turns| - 1]);
      var before := RunEventLoop(s, turns[..|turns| - 1]);
      hide Inv, TakeTurn, Broken, TurnAllowed, CancelsLater, SparesAppends;
      if !(|turns| > 1 && Over(before)) {
        if InBounds(s, turns[..|turns| - 1]) {
          TurnOutcome(before, turns[|turns| - 1]);
        } else {
          TurnKeepsBroken(before, turns[|turns| - 1]);
        }
      }
    }
  }

  /** From any state that meets the invariant, a run keeps it if and only if every turn meets both conditions. */
  lemma {:induction false} RunKeepsInv(s: Loop, turns: seq<Turn>)
    requires Inv(s) && !s.failed && RunAllowed(s, turns)
    ensures Inv(RunEventLoop(s, turns)) <==> InBounds(s, turns)
  {
    RunOutcome(s, turns);
    hide RunEventLoop, Broken;
    if Inv(RunEventLoop(s, turns)) {
      InvIsNotBroken(RunEventLoop(s, turns));
    }
  }

  /**
    Whatever the main script and the callbacks do, the invariant holds at every loop head if and only
    if no `clearTimeout` finds an append task and no callback cancels anything up to its own index.
  */
  lemma {:induction false} InvariantOverRun(script: seq<Action>, turns: seq<Turn>)
    requires AllAllowed(START, script) && RunAllowed(Acts(START, script), turns)
    ensures Inv(RunEventLoop(Acts(START, script), turns)) <==> FindsTimers(START, script) && InBounds(Acts(START, script), turns)
  {
    ActsKeepInv(START, script);
    ActsKeepTasks(START, script);
    ActsKeepFaults(START, script);
    hide Inv, Acts, RunEventLoop;
    if FindsTimers(START, script) {
      RunKeepsInv(Acts(START, script), turns);
    } else {
      BrokenOverRun(Acts(START, script), turns);
      if Inv(RunEventLoop(Acts(START, script), turns)) {
        InvIsNotBroken(RunEventLoop(Acts(START, script), turns));
      }
    }
  }

  lemma {:induction false} BrokenOverRun(s: Loop, turns: seq<Turn>)
    requires Allocated(s) && Broken(s)
    ensures Broken(RunEventLoop(s, turns))
    decreases |turns|
  {
    if turns != [] {
      BrokenOverRun(s, turns[..|turns| - 1]);
      hide TakeTurn, Broken;
      TurnKeepsBroken(RunEventLoop(s, turns[..|turns| - 1]), turns[|turns| - 1]);
    }
  }

  /** When the loop returns true every task that was ever queued has run or was cancelled, and no handle is left. */
  lemma NothingLeft(s: Loop)
    requires Inv(s) && Over(s) && !s.failed
    ensures multiset(s.queued) == multiset(s.ran) + multiset(s.cancelled) && s.live == {}
    ensures forall t :: 0 <= t < |s.tasks| && s.tasks[t].Append? ==> s.tasks[t].state.Done?
  {
    assert Waiting(s.queue) == {};
    LiveHandles(s);
  }

  /** The live handles are those of the queued timers. */
  lemma LiveHandles(s: Loop)
    requires Inv(s)
    ensures s.live == set e | e in s.queue && s.tasks[e.task].Timer? :: s.tasks[e.task].handle
  {
    forall h | h in s.live
      ensures exists e :: e in s.queue && s.tasks[e.task].Timer? && s.tasks[e.task].handle == h
    {
      assert Owned(s.tasks, Waiting(s.queue), h);
      var t :| 0 <= t < |s.tasks| && Holds(s.tasks, Waiting(s.queue), t, h);
      var e :| e in s.queue && e.task == t;
    }
    forall e | e in s.queue && s.tasks[e.task].Timer?
      ensures s.tasks[e.task].handle in s.live
    {
      assert e.task in Waiting(s.queue);
    }
  }

  /** Entries keep their relative order: the queue is a subsequence of all that was queued. */
  lemma OrderKept(s: Loop, i: nat, j: nat)
    requires Inv(s) && i < j < |s.queue|
    ensures s.queue[i].serial < s.queue[j].serial < |s.queued|
    ensures s.queued[s.queue[i].serial] == s.queue[i] && s.queued[s.queue[j].serial] == s.queue[j]
  {
  }

  // ---------- runs outside the two conditions ----------

  /** A body append waits on the handles 7 and 8. */
  const APPENDING := Loop([Entry(0, 0)], [Append(BlockedOnBoth, 7, 8)], {}, 0, [Entry(0, 0)], [], [], {}, false)

  /** Clearing a timeout with the number of a body's handle drops the append, whose body is never sent. */
  lemma ClearTimeoutDropsAppend()
    ensures AllAllowed(START, [AppendBody(7, 8), ClearTimer(7)]) && !FindsTimers(START, [AppendBody(7, 8), ClearTimer(7)])
    ensures Acts(START, [AppendBody(7, 8), ClearTimer(7)]) == APPENDING.(queue := [], cancelled := [Entry(0, 0)], faults := {AppendCancelled})
  {
    DropSteps();
    hide Act, Acts, Allowed, AllAllowed, FindsTimer, FindsTimers;
    var append, clear := AppendBody(7, 8), ClearTimer(7);
    NoActs(START);
    ActsSnoc(START, [], append);
    assert [] + [append] == [append];
    ActsSnoc(START, [append], clear);
    assert [append] + [clear] == [append, clear];
  }

  /** Only the handle an append task waits on finds it. */
  lemma FoundByItsHandle(state: AppendState, incoming: int, outgoing: int, id: int)
    requires Blocked(state)
    ensures var s := APPENDING.(tasks := [Append(state, incoming, outgoing)]);
            && Allocated(s)
            && (Find(s, id, 0) == 0 <==> id == if state.BlockedOnOutgoing? then outgoing else incoming)
            && (Find(s, id, 0) == 0 ==> Act(s, ClearTimer(id)).queue == [])
  {
  }

  lemma DropSteps()
    ensures Allocated(APPENDING) && Act(START, AppendBody(7, 8)) == APPENDING
    ensures Act(APPENDING, ClearTimer(7)) == APPENDING.(queue := [], cancelled := [Entry(0, 0)], faults := {AppendCancelled})
    ensures !FindsTimer(APPENDING, ClearTimer(7)) && Allowed(START, AppendBody(7, 8)) && Allowed(APPENDING, ClearTimer(7))
  {
    assert Find(APPENDING, 7, 0) == 0;
    assert Asked(APPENDING, 0) == {} && Asked(APPENDING, 1) == {};
    hide Find, Asked;
  }

  /** Three timers with handles 1, 2 and 3 wait. */
  const THREE := Loop([Entry(0, 0), Entry(1, 1), Entry(2, 2)], [Timer(1, false), Timer(2, false), Timer(3, false)], {1, 2, 3}, 0,
                      [Entry(0, 0), Entry(1, 1), Entry(2, 2)], [], [], {}, false)

  lemma ActsSnoc(s: Loop, actions: seq<Action>, last: Action)
    requires Allocated(s)
    ensures Acts(s, actions + [last]) == Act(Acts(s, actions), last)
    ensures AllAllowed(s, actions + [last]) <==> AllAllowed(s, actions) && Allowed(Acts(s, actions), last)
    ensures FindsTimers(s, actions + [last]) <==> FindsTimers(s, actions) && FindsTimer(Acts(s, actions), last)
  {
    assert (actions + [last])[..|actions|] == actions;
  }

  const ONE := Loop([Entry(0, 0)], [Timer(1, false)], {1}, 0, [Entry(0, 0)], [], [], {}, false)

  const TWO := Loop([Entry(0, 0), Entry(1, 1)], [Timer(1, false), Timer(2, false)], {1, 2}, 0, [Entry(0, 0), Entry(1, 1)], [], [], {}, false)

  lemma ThreeSteps()
    ensures Allocated(ONE) && Allocated(TWO) && Allocated(THREE)
    ensures Act(START, SetTimer(1, false)) == ONE && Allowed(START, SetTimer(1, false))
    ensures Act(ONE, SetTimer(2, false)) == TWO && Allowed(ONE, SetTimer(2, false))
    ensures Act(TWO, SetTimer(3, false)) == THREE && Allowed(TWO, SetTimer(3, false))
  {
  }

  lemma ThreeReachable()
    ensures AllAllowed(START, [SetTimer(1, false), SetTimer(2, false), SetTimer(3, false)])
    ensures Acts(START, [SetTimer(1, false), SetTimer(2, false), SetTimer(3, false)]) == THREE
  {
    var a, b, c := SetTimer(1, false), SetTimer(2, false), SetTimer(3, false);
    ThreeSteps();
    hide Act, Acts, Allowed, AllAllowed;
    NoActs(START);
    ActsSnoc(START, [], a);
    assert [] + [a] == [a];
    ActsSnoc(START, [a], b);
    assert [a] + [b] == [a, b];
    ActsSnoc(START, [a, b], c);
    assert [a, b] + [c] == [a, b, c];
  }

  lemma NoActs(s: Loop)
    requires Allocated(s)
    ensures Acts(s, []) == s && AllAllowed(s, [])
  {
  }

  /** `THREE` once the timer with handle 1 has been cancelled. */
  const CLEARED := Loop([Entry(1, 1), Entry(2, 2)], [Timer(-1, false), Timer(2, false), Timer(3, false)], {2, 3}, 0,
                        [Entry(0, 0), Entry(1, 1), Entry(2, 2)], [], [Entry(0, 0)], {}, false)

  lemma ClearFirst()
    ensures Allocated(THREE) && Act(THREE, ClearTimer(1)) == CLEARED
  {
    assert Find(THREE, 1, 0) == 0;
    assert Asked(THREE, 0) == {};
    assert Asked(THREE, 1) == {};
    hide Find, Asked;
  }

  lemma FirstCleared()
    ensures Allocated(THREE) && Acts(THREE, [ClearTimer(1)]) == CLEARED
  {
    ClearFirst();
    hide Act, Acts, Allowed, AllAllowed;
    NoActs(THREE);
    ActsSnoc(THREE, [], ClearTimer(1));
    assert [] + [ClearTimer(1)] == [ClearTimer(1)];
  }

  /**
    The second of three timers fires and its callback clears the first: the third is erased in its
    place, neither run nor cancelled, and the second stays queued without a handle.
  */
  lemma EarlyCancelLosesTask()
    ensures var after := RunSelected(THREE, 1, TimerReturns([ClearTimer(1)], 0));
            && after.queued == [Entry(0, 0), Entry(1, 1), Entry(2, 2)]
            && after.ran == [Entry(1, 1)] && after.cancelled == [Entry(0, 0)]
            && after.queue == [Entry(1, 1)] && after.tasks[1] == Timer(INVALID_HANDLE, false)
  {
    assert Asked(THREE, 0) == Asked(THREE, 1) == Asked(THREE, 2) == Asked(THREE, 3) == {};
    assert THREE.(faults := THREE.faults + Asked(THREE, 3)) == THREE;
    FirstCleared();
    hide Acts, Asked;
    assert CancelTask(CLEARED, 1) == CLEARED.(tasks := [Timer(-1, false), Timer(-1, false), Timer(3, false)], live := {3});
    assert RunTask(THREE, 1, TimerReturns([ClearTimer(1)], 0)) == CancelTask(CLEARED, 1);
  }
}
