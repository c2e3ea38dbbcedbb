/**
  The event loop as it runs: the vector of tasks is appended to, searched and erased from in place.
  What user code does and what the host answers is given to `RunEventLoop` as a list of turns.
*/
module EventLoop {
  import opened BodyAppend
  import opened EventLoopState
  import opened EventLoopTheorems

  class EventLoop {
    var queue: seq<Entry>
    var tasks: seq<Task>
    var live: set<int>
    var jobs: nat
    var failed: bool

    // The history of the loop.
    ghost var queued: seq<Entry>
    ghost var ran: seq<Entry>
    ghost var cancelled: seq<Entry>
    ghost var faults: set<Fault>
    var serial: nat

    ghost function View(): Loop
      reads this
    {
      Loop(queue, tasks, live, jobs, queued, ran, cancelled, faults, failed)
    }

    ghost predicate Valid()
      reads this
    {
      serial == |queued| && Allocated(View())
    }

    constructor ()
      ensures Valid() && View() == START
    {
      queue, tasks, live, jobs, failed, serial := [], [], {}, 0, false, 0;
      queued, ran, cancelled, faults := [], [], [], {};
    }

    method QueueAsyncTask(task: nat)
      requires Valid() && task < |tasks|
      modifies this
      ensures Valid() && View() == EventLoopState.QueueAsyncTask(old(View()), task)
    {
      var entry := Entry(task, serial);
      queue := queue + [entry];
      queued := queued + [entry];
      serial := serial + 1;
    }

    /** The constructor of a timer task, and the call that queues it; its handle is its id. */
    method SetTimeoutOrInterval(handle: int, repeat: bool) returns (id: int)
      requires Valid()
      modifies this
      ensures Valid() && View() == Act(old(View()), SetTimer(handle, repeat)) && id == handle
      ensures tasks == old(tasks) + [Timer(handle, repeat)] && live == old(live) + {handle}
      ensures queue == old(queue) + [Entry(old(|tasks|), old(serial))]
    {
      tasks := tasks + [Timer(handle, repeat)];
      live := live + {handle};
      QueueAsyncTask(|tasks| - 1);
      id := handle;
    }

    method AppendBody(incoming: int, outgoing: int)
      requires Valid()
      modifies this
      ensures Valid() && View() == Act(old(View()), Action.AppendBody(incoming, outgoing))
      ensures tasks == old(tasks) + [Append(BlockedOnBoth, incoming, outgoing)] && live == old(live)
      ensures queue == old(queue) + [Entry(old(|tasks|), old(serial))]
    {
      tasks := tasks + [Append(BlockedOnBoth, incoming, outgoing)];
      QueueAsyncTask(|tasks| - 1);
    }

    /** `cancel` of a task: a timer gives up its handle. */
    method CancelTask(task: nat)
      requires Valid() && task < |tasks|
      modifies this
      ensures Valid() && View() == EventLoopState.CancelTask(old(View()), task) && |tasks| == old(|tasks|)
    {
      match tasks[task]
      case Timer(handle, repeat) =>
        faults := faults + IdFaults(tasks[task]);
        live := live - {handle};
        tasks := tasks[task := Timer(INVALID_HANDLE, repeat)];
      case Append(_, _, _) =>
        faults := faults + {AppendCancelled};
    }

    method CancelAt(it: nat)
      requires Valid() && it < |queue|
      modifies this
      ensures Valid()
      ensures View() == EventLoopState.CancelTask(old(View()), old(queue)[it].task).(
                          queue := old(queue)[..it] + old(queue)[it + 1..], cancelled := old(cancelled) + [old(queue)[it]])
    {
      CancelTask(queue[it].task);
      cancelled := cancelled + [queue[it]];
      queue := queue[..it] + queue[it + 1..];
    }

    method CancelAsyncTask(id: int) returns (found: bool)
      requires Valid()
      modifies this
      ensures Valid() && View() == EventLoopState.CancelAsyncTask(old(View()), id)
      ensures found <==> Find(old(View()), id, 0) < |old(queue)|
    {
      hide Id, IdFaults, EventLoopState.CancelTask;
      ghost var start := View();
      var it: nat := 0;
      while it < |queue|
        invariant it <= |queue| && queue == start.queue && tasks == start.tasks && Valid()
        invariant View() == start.(faults := start.faults + Asked(start, it))
        invariant forall j :: 0 <= j < it ==> Id(tasks[queue[j].task]) != id
      {
        var task := tasks[queue[it].task];
        faults := faults + IdFaults(task);
        assert View() == start.(faults := start.faults + Asked(start, it + 1));
        if Id(task) == id {
          FindIs(start, id, 0, it);
          CancelAt(it);
          return true;
        }
        it := it + 1;
      }
      FindIs(start, id, 0, it);
      found := false;
    }

    /** User code: the callback of a timer, a promise reaction, or the main script. */
    method Perform(actions: seq<Action>)
      requires Valid()
      modifies this
      ensures Valid() && View() == Acts(old(View()), actions)
    {
      for k := 0 to |actions|
        invariant Valid() && View() == Acts(old(View()), actions[..k])
      {
        assert actions[..k + 1][..k] == actions[..k];
        match actions[k]
        case SetTimer(handle, repeat) => var _ := SetTimeoutOrInterval(handle, repeat);
        case AppendBody(incoming, outgoing) => AppendBody(incoming, outgoing);
        case ClearTimer(id) => var _ := CancelAsyncTask(id);
        case QueueJob => jobs := jobs + 1;
      }
      assert actions[..|actions|] == actions;
    }

    /** The virtual `run` of a task. */
    method RunTask(task: nat, outcome: Outcome) returns (ok: bool)
      requires Valid() && task < |tasks| && !failed
      modifies this
      ensures Valid() && View() == EventLoopState.RunTask(old(View()), task, outcome) && ok == !failed
      ensures outcome.TimerReturns? && old(tasks)[task].Timer? && old(tasks)[task].repeat ==>
        queue != [] && tasks[queue[|queue| - 1].task] == Timer(outcome.nextHandle, true)
    {
      var repeat := tasks[task].Timer? && tasks[task].repeat;
      match outcome
      case Fails(actions) =>
        ActsKeepTasks(View(), actions);
        Perform(actions);
        failed := true;
        ok := false;
      case TimerReturns(actions, nextHandle) =>
        ActsKeepTasks(View(), actions);
        Perform(actions);
        if repeat {
          var _ := SetTimeoutOrInterval(nextHandle, true);
        }
        CancelTask(task);
        ok := true;
      case AppendEnds =>
        if tasks[task].Append? {
          tasks := tasks[task := tasks[task].(state := Done)];
        }
        ok := true;
      case AppendBlocks(next) =>
        if tasks[task].Append? {
          tasks := tasks[task := tasks[task].(state := next)];
        }
        QueueAsyncTask(task);
        ok := true;
      case AppendFails(left) =>
        if tasks[task].Append? {
          tasks := tasks[task := tasks[task].(state := left)];
        }
        failed := true;
        ok := false;
    }

    /** One pass of the `do` loop. */
    method Turn(turn: EventLoopState.Turn) returns (ok: bool)
      requires Valid() && !failed
      modifies this
      ensures Valid() && View() == TakeTurn(old(View()), turn) && ok == !failed
    {
      if jobs > 0 {
        ActsKeepTasks(View(), turn.jobActions);
        Perform(turn.jobActions);
        jobs := 0;
      }
      ok := true;
      var index := turn.index;
      if index < |queue| {
        faults := faults + Asked(View(), |queue|);
        var entry := queue[index];
        ok := RunTask(entry.task, turn.outcome);
        if !ok {
          return;
        }
        ran := ran + [entry];
        if index < |queue| {
          queue := queue[..index] + queue[index + 1..];
        } else {
          faults := faults + {EraseOutOfRange};
        }
      }
    }

    /**
      The loop, for as many turns as are given. The invariant is kept exactly when every turn meets
      both conditions; and when the loop then ends well, all that was ever queued has run or was cancelled.
    */
    method RunEventLoop(turns: seq<EventLoopState.Turn>) returns (ok: bool)
      requires Valid() && !failed && turns != []
      modifies this
      ensures Valid() && View() == EventLoopState.RunEventLoop(old(View()), turns) && ok == !failed
      ensures old(Inv(View()) && RunAllowed(View(), turns)) ==> (Inv(View()) <==> old(InBounds(View(), turns)))
      ensures old(Inv(View()) && RunAllowed(View(), turns) && InBounds(View(), turns)) && ok && Over(View()) ==>
        multiset(queued) == multiset(ran) + multiset(cancelled) && live == {}
    {
      hide Inv, TakeTurn;
      ok := true;
      var k: nat := 0;
      var again := true;
      while again && k < |turns|
        invariant k <= |turns| && Valid() && ok == !failed
        invariant View() == EventLoopState.RunEventLoop(old(View()), turns[..k])
        invariant k > 0 ==> again == !Over(View())
        invariant k == 0 ==> again && !failed
      {
        assert turns[..k + 1][..k] == turns[..k];
        ok := Turn(turns[k]);
        k := k + 1;
        again := ok && (jobs > 0 || |queue| > 0);
      }
      if k < |turns| {
        OverStays(old(View()), turns, k);
      } else {
        assert turns[..k] == turns;
      }
      if old(Inv(View()) && RunAllowed(View(), turns)) {
        RunKeepsInv(old(View()), turns);
        if Inv(View()) && ok && Over(View()) {
          NothingLeft(View());
        }
      }
    }
  }

  lemma {:induction false} FindIs(s: Loop, id: int, from: nat, k: nat)
    requires Allocated(s) && from <= k <= |s.queue|
    requires forall j :: from <= j < k ==> Id(s.tasks[s.queue[j].task]) != id
    requires k < |s.queue| ==> Id(s.tasks[s.queue[k].task]) == id
    ensures Find(s, id, from) == k
    decreases k - from
  {
    if from < k {
      FindIs(s, id, from + 1, k);
    }
  }

  lemma {:induction false} OverStays(s: Loop, turns: seq<EventLoopState.Turn>, k: nat)
    requires Allocated(s) && 0 < k <= |turns| && Over(RunEventLoop(s, turns[..k]))
    ensures RunEventLoop(s, turns) == RunEventLoop(s, turns[..k])
    decreases |turns|
  {
    hide TakeTurn;
    if k < |turns| {
      assert turns[..|turns| - 1][..k] == turns[..k];
      OverStays(s, turns[..|turns| - 1], k);
    } else {
      assert turns[..k] == turns;
    }
  }

  // ---------- where the outcomes of an append task come from ----------

  ghost function AsTask(b: BodyAppendTask): Task
    reads b
  {
    Append(b.state, b.incomingPollable, b.outgoingPollable)
  }

  /** The loop asks a queued append task for the handle it waits on. */
  lemma SameId(b: BodyAppendTask)
    requires Blocked(b.state)
    ensures Id(AsTask(b)) == b.Id()
  {
  }

  /**
    The run of the selected append task, seen from the loop: its outcome is one the loop's model
    allows, and leads the model to the task's new state and to as many new entries.
  */
  method RunAppend(b: BodyAppendTask, queue: TaskQueue, ghost s: Loop, ghost index: nat) returns (outcome: Outcome)
    requires b.Valid() && b.Conserved() && Blocked(b.state)
    requires Allocated(s) && index < |s.queue| && !s.failed && s.tasks[s.queue[index].task] == AsTask(b)
    modifies b`state, b.incomingBody, b.outgoingBody.stream, queue
    ensures OutcomeAllowed(s, index, outcome) && b.Valid()
    ensures var after := EventLoopState.RunTask(s, s.queue[index].task, outcome);
            && after.tasks[s.queue[index].task] == AsTask(b)
            && |after.queue| - |s.queue| == |queue.tasks| - |old(queue.tasks)|
            && (!after.failed ==> b.Conserved())
    ensures outcome.AppendEnds? ==> b.outgoingBody.stream.written == b.before + b.source
  {
    var ok := b.Run(queue);
    outcome :=
      if !ok then AppendFails(b.state)
      else if b.state.Done? then AppendEnds
      else AppendBlocks(b.state);
  }
}
