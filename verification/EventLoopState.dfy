/**
  The task queue of runtime/event_loop.cpp with the timer tasks of builtins/web/timers.cpp and the
  append tasks of host-apis/wasi-0.2.0/host_api.cpp. Tasks are allocated once and named by their
  position in `tasks`, so that one task can stand in the queue more than once.
*/
module EventLoopState {
  import opened BodyAppend

  datatype Task =
    | Timer(handle: int, repeat: bool)
    | Append(state: AppendState, incoming: int, outgoing: int)

  const INVALID_HANDLE := -1

  /** An element of the vector; `serial` numbers the calls to `queue_async_task`. */
  datatype Entry = Entry(task: nat, serial: nat)

  datatype Fault =
    | NoHandle            // `id` of a task without a handle, extension-api.h:79
    | NotBlocked          // `id` of an append task that is not blocked, host_api.cpp:571
    | AppendCancelled     // `cancel` of an append task, host_api.cpp:557
    | EraseOutOfRange     // `erase` past the end of the vector

  datatype Loop = Loop(
    queue: seq<Entry>,
    tasks: seq<Task>,
    live: set<int>,         // the handles timers hold
    jobs: nat,              // promise reactions waiting to run
    queued: seq<Entry>,     // every call to `queue_async_task`
    ran: seq<Entry>,        // every task that ran to its end
    cancelled: seq<Entry>,
    faults: set<Fault>,
    failed: bool)           // a task's `run` returned false

  const START := Loop([], [], {}, 0, [], [], [], {}, false)

  predicate Allocated(s: Loop) {
    && (forall i :: 0 <= i < |s.queue| ==> s.queue[i].task < |s.tasks|)
  }

  // ---------- queueing and cancelling ----------

  function QueueAsyncTask(s: Loop, task: nat): Loop {
    var entry := Entry(task, |s.queued|);
    s.(queue := s.queue + [entry], queued := s.queued + [entry])
  }

  function Id(task: Task): int {
    match task
    case Timer(handle, _) => handle
    case Append(state, incoming, outgoing) => if state.BlockedOnBoth? || state.BlockedOnIncoming? then incoming else outgoing
  }

  function IdFaults(task: Task): set<Fault> {
    match task
    case Timer(handle, _) => if handle == INVALID_HANDLE then {NoHandle} else {}
    case Append(state, _, _) => if Blocked(state) then {} else {NotBlocked}
  }

  /** Where the search of `cancel_async_task` stops: at the first task with this id, or past the end. */
  function Find(s: Loop, id: int, from: nat): (k: nat)
    requires Allocated(s) && from <= |s.queue|
    ensures from <= k <= |s.queue|
    ensures forall j :: from <= j < k ==> Id(s.tasks[s.queue[j].task]) != id
    ensures k < |s.queue| ==> Id(s.tasks[s.queue[k].task]) == id
    decreases |s.queue| - from
  {
    if from == |s.queue| || Id(s.tasks[s.queue[from].task]) == id then from else Find(s, id, from + 1)
  }

  /** The faults of asking the first `n` tasks for their ids. */
  function Asked(s: Loop, n: nat): set<Fault>
    requires Allocated(s) && n <= |s.queue|
  {
    if n == 0 then {} else Asked(s, n - 1) + IdFaults(s.tasks[s.queue[n - 1].task])
  }

  function Unsubscribe(s: Loop, task: nat): Loop
    requires task < |s.tasks| && s.tasks[task].Timer?
  {
    var t := s.tasks[task];
    s.(live := s.live - {t.handle}, tasks := s.tasks[task := t.(handle := INVALID_HANDLE)], faults := s.faults + IdFaults(t))
  }

  /** The virtual `cancel` of a task. */
  function CancelTask(s: Loop, task: nat): Loop
    requires task < |s.tasks|
  {
    if s.tasks[task].Timer? then Unsubscribe(s, task) else s.(faults := s.faults + {AppendCancelled})
  }

  function CancelAsyncTask(s: Loop, id: int): Loop
    requires Allocated(s)
  {
    var k := Find(s, id, 0);
    if k == |s.queue| then s.(faults := s.faults + Asked(s, k))
    else
      var asked := s.(faults := s.faults + Asked(s, k + 1));
      var gone := CancelTask(asked, s.queue[k].task);
      gone.(queue := s.queue[..k] + s.queue[k + 1..], cancelled := s.cancelled + [s.queue[k]])
  }

  // ---------- what user code can do ----------

  datatype Action =
    | SetTimer(handle: int, repeat: bool)          // the host answers the subscription with `handle`
    | AppendBody(incoming: int, outgoing: int)
    | ClearTimer(id: int)
    | QueueJob

  function Act(s: Loop, action: Action): Loop
    requires Allocated(s)
    ensures Allocated(Act(s, action))
  {
    match action
    case SetTimer(handle, repeat) =>
      QueueAsyncTask(s.(tasks := s.tasks + [Timer(handle, repeat)], live := s.live + {handle}), |s.tasks|)
    case AppendBody(incoming, outgoing) =>
      QueueAsyncTask(s.(tasks := s.tasks + [Append(BlockedOnBoth, incoming, outgoing)]), |s.tasks|)
    case ClearTimer(id) => CancelAsyncTask(s, id)
    case QueueJob => s.(jobs := s.jobs + 1)
  }

  function Acts(s: Loop, actions: seq<Action>): (r: Loop)
    requires Allocated(s)
    ensures Allocated(r)
    decreases |actions|
  {
    if actions == [] then s else Act(Acts(s, actions[..|actions| - 1]), actions[|actions| - 1])
  }

  // ---------- running ----------

  /** `RunJobs` returns when no job is left; `actions` is all that the jobs did. */
  function RunJobs(s: Loop, actions: seq<Action>): Loop
    requires Allocated(s)
  {
    Acts(s, actions).(jobs := 0)
  }

  /** How the run of the selected task goes. */
  datatype Outcome =
    | Fails(actions: seq<Action>)                                  // the callback throws
    | TimerReturns(actions: seq<Action>, nextHandle: int)          // `nextHandle` is for the next round of an interval
    | AppendEnds
    | AppendBlocks(next: AppendState)
    | AppendFails(left: AppendState)                               // a call of a body fails

  /** `run` of task `task`. */
  function RunTask(s: Loop, task: nat, outcome: Outcome): (r: Loop)
    requires Allocated(s) && task < |s.tasks|
    ensures Allocated(r)
  {
    match outcome
    case Fails(actions) => Acts(s, actions).(failed := true)
    case TimerReturns(actions, nextHandle) =>
      ActsKeepTasks(s, actions);
      var called := Acts(s, actions);
      var again := if s.tasks[task].Timer? && s.tasks[task].repeat then Act(called, SetTimer(nextHandle, true)) else called;
      CancelTask(again, task)
    case AppendEnds => SetAppendState(s, task, Done)
    case AppendBlocks(next) => QueueAsyncTask(SetAppendState(s, task, next), task)
    case AppendFails(left) => SetAppendState(s, task, left).(failed := true)
  }

  function SetAppendState(s: Loop, task: nat, next: AppendState): Loop
    requires task < |s.tasks|
  {
    if s.tasks[task].Append? then s.(tasks := s.tasks[task := s.tasks[task].(state := next)]) else s
  }

  lemma {:induction false} ActsKeepTasks(s: Loop, actions: seq<Action>)
    requires Allocated(s)
    ensures |Acts(s, actions).tasks| >= |s.tasks|
    ensures forall t :: 0 <= t < |s.tasks| ==> Acts(s, actions).tasks[t].Timer? == s.tasks[t].Timer?
    ensures Acts(s, actions).failed == s.failed
    decreases |actions|
  {
    if actions != [] {
      ActsKeepTasks(s, actions[..|actions| - 1]);
    }
  }

  /** `erase` at the index captured before the task ran. */
  function Erase(s: Loop, index: nat): Loop {
    if index < |s.queue| then s.(queue := s.queue[..index] + s.queue[index + 1..])
    else s.(faults := s.faults + {EraseOutOfRange})
  }

  function RunSelected(s: Loop, index: nat, outcome: Outcome): (r: Loop)
    requires Allocated(s) && index < |s.queue|
    ensures Allocated(r)
  {
    var entry := s.queue[index];
    var polled := s.(faults := s.faults + Asked(s, |s.queue|));
    var after := RunTask(polled, entry.task, outcome);
    if after.failed then after else Erase(after.(ran := after.ran + [entry]), index)
  }

  /** One pass of the loop: drain the jobs, then run the task the host selects, if there is any. */
  datatype Turn = Turn(jobActions: seq<Action>, index: nat, outcome: Outcome)

  function TakeTurn(s: Loop, turn: Turn): (r: Loop)
    requires Allocated(s)
    ensures Allocated(r)
  {
    var drained := if s.jobs > 0 then RunJobs(s, turn.jobActions) else s;
    if turn.index < |drained.queue| then RunSelected(drained, turn.index, turn.outcome) else drained
  }

  /** The loop ends when a run fails, or at the end of a turn that leaves neither jobs nor tasks. */
  predicate Over(s: Loop) {
    s.failed || (s.jobs == 0 && s.queue == [])
  }

  function RunEventLoop(s: Loop, turns: seq<Turn>): (r: Loop)
    requires Allocated(s)
    ensures Allocated(r)
    decreases |turns|
  {
    if turns == [] then s
    else
      var before := RunEventLoop(s, turns[..|turns| - 1]);
      if |turns| > 1 && Over(before) then before else TakeTurn(before, turns[|turns| - 1])
  }
}
