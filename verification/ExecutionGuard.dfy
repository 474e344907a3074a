/** The guard and its bridge as an object: each method is one stretch of code between awaits, written
    with the assignments the program makes, and does to the whole state what the transition system
    says. A spawn is told by its caller whether it raises. */
module ExecutionGuard {
  import opened Wrappers
  import opened ExecutionModel

  class GuardRuntime {
    // ExecutionModeGuard
    const mode: Mode
    const cap: int
    var currentTask: Option<TaskId>
    var pending: seq<CallId>
    var suppressed: nat
    var dropped: nat
    // asyncio.Lock
    var lock: Lock
    var waiters: seq<Waiter>
    // the event loop's tasks
    var tasks: seq<Task>
    // run_through_guard
    var calls: seq<Call>
    var pendingDone: set<CallId>
    // histories
    ghost var called: seq<CallId>
    ghost var verdicts: seq<Entry<Verdict>>
    ghost var exits: seq<Entry<Exit>>

    ghost function State(): World
      reads this
    {
      World(mode, cap, currentTask, pending, suppressed, dropped, lock, waiters, tasks, calls,
            pendingDone, called, verdicts, exits)
    }

    constructor (mode: Mode, cap: int := 10)
      ensures State() == Initial(mode, cap)
    {
      this.mode, this.cap := mode, cap;
      currentTask, pending, suppressed, dropped := None, [], 0, 0;
      lock, waiters, tasks, calls, pendingDone := Free, [], [], [], {};
      called, verdicts, exits := [], [], [];
    }

    /** Everything but the caller's side of a decision. */
    ghost function CallersApart(w: World, before: World): World {
      w.(calls := before.calls, pendingDone := before.pendingDone)
    }

    /** The phase a call enters when `guard.run` ends in this way; `None` means it raised. */
    ghost predicate PhaseFor(phase: Phase, outcome: Option<Outcome>) {
      match outcome
      case None => phase == Raised
      case Some(o) => phase == if o.Ran? || o.QueuedAccepted? then Parked(o) else Returned(o)
    }

    predicate Running()
      reads this
    {
      currentTask.Some? && currentTask.value < |tasks| && !tasks[currentTask.value].finished
    }

    /** `run_and_track`: spawns the invocation and attaches `resolve_done`, or raises. */
    method RunAndTrack(c: CallId, raises: bool) returns (task: Option<TaskId>)
      modifies this`tasks, this`called
      ensures called == old(called) + [c]
      ensures raises ==> task == None && tasks == old(tasks)
      ensures !raises ==> task == Some(|old(tasks)|) && tasks == old(tasks) + [Task(c, false, false, true, false)]
    {
      called := called + [c];
      if raises {
        task := None;
      } else {
        task := Some(|tasks|);
        tasks := tasks + [Task(c, false, false, true, false)];
      }
    }

    method RunSingle(c: CallId, raises: bool) returns (outcome: Option<Outcome>)
      requires mode.Single? && c < |calls|
      modifies this
      ensures State() == CallersApart(Decide(old(State()), c, raises), old(State()))
      ensures PhaseFor(Decide(old(State()), c, raises).calls[c].phase, outcome)
    {
      if Running() {
        suppressed := suppressed + 1;
        verdicts := verdicts + [Entry(c, Refused)];
        return Some(Suppressed);
      }
      var task := RunAndTrack(c, raises);
      if task == None {
        verdicts := verdicts + [Entry(c, SpawnRaised)];
        return None;
      }
      currentTask := task;
      verdicts := verdicts + [Entry(c, Started(task.value))];
      return Some(Ran);
    }

    /** Up to the gather, if there is something to cancel. */
    method BeginRestart(c: CallId, raises: bool) returns (waits: bool, outcome: Option<Outcome>)
      requires mode.Restart? && c < |calls|
      modifies this
      ensures State() == CallersApart(Decide(old(State()), c, raises), old(State()))
      ensures waits <==> old(Running())
      ensures waits ==> Decide(old(State()), c, raises).calls[c].phase == Replacing
      ensures !waits ==> PhaseFor(Decide(old(State()), c, raises).calls[c].phase, outcome)
    {
      if Running() {
        var t := currentTask.value;
        tasks := tasks[t := tasks[t].(cancelRequested := true)];
        lock := HeldByRestart(c, t);
        return true, None;
      }
      outcome := Replace(c, raises);
      waits := false;
    }

    /** The last line of `run_restart`, after the gather or without one. */
    method Replace(c: CallId, raises: bool) returns (outcome: Option<Outcome>)
      requires mode.Restart? && c < |calls|
      modifies this
      ensures State() == CallersApart(StartDirectly(old(State()), c, raises), old(State()))
      ensures PhaseFor(StartDirectly(old(State()), c, raises).calls[c].phase, outcome)
    {
      var task := RunAndTrack(c, raises);
      if task == None {
        verdicts := verdicts + [Entry(c, SpawnRaised)];
        return None;
      }
      currentTask := task;
      verdicts := verdicts + [Entry(c, Started(task.value))];
      return Some(Ran);
    }

    method RunQueued(c: CallId, raises: bool) returns (outcome: Option<Outcome>)
      requires mode.Queued? && c < |calls|
      modifies this
      ensures State() == CallersApart(Decide(old(State()), c, raises), old(State()))
      ensures PhaseFor(Decide(old(State()), c, raises).calls[c].phase, outcome)
    {
      if Running() {
        if |pending| >= cap {
          dropped := dropped + 1;
          verdicts := verdicts + [Entry(c, Refused)];
          return Some(Dropped);
        }
        pending := pending + [c];
        verdicts := verdicts + [Entry(c, Accepted)];
        return Some(QueuedAccepted);
      }
      outcome := StartQueued(c, raises);
    }

    method StartQueued(c: CallId, raises: bool) returns (outcome: Option<Outcome>)
      requires mode.Queued? && c < |calls|
      modifies this
      ensures State() == CallersApart(StartDirectly(old(State()), c, raises), old(State()))
      ensures PhaseFor(StartDirectly(old(State()), c, raises).calls[c].phase, outcome)
    {
      var task := RunAndTrack(c, raises);
      if task == None {
        verdicts := verdicts + [Entry(c, SpawnRaised)];
        return None;
      }
      currentTask := task;
      tasks := tasks[task.value := tasks[task.value].(drainDue := true)];
      verdicts := verdicts + [Entry(c, Started(task.value))];
      return Some(Ran);
    }

    /** One turn of the drain loop: the head of the queue is called. */
    method CallHead(failing: set<CallId>) returns (started: bool)
      requires pending != []
      modifies this
      ensures started <==> old(pending)[0] !in failing
      ensures State() == if started then StartHead(old(State())) else FailHead(old(State()))
    {
      var c := pending[0];
      pending := pending[1..];
      var task := RunAndTrack(c, c in failing);
      if task == None {
        exits := exits + [Entry(c, FailedToStart)];
        return false;
      }
      currentTask := task;
      tasks := tasks[task.value := tasks[task.value].(drainDue := true)];
      exits := exits + [Entry(c, StartedFromQueue(task.value))];
      return true;
    }

    /** `drain_next`, the done-callback of a queued task. */
    method DrainNext(done: TaskId, failing: set<CallId>)
      requires Enabled(State(), DeliverDrain(done, failing))
      modifies this
      ensures State() == Next(old(State()), DeliverDrain(done, failing))
    {
      tasks := tasks[done := tasks[done].(drainDue := false)];
      if currentTask != Some(done) {
        return;
      }
      currentTask := None;
      ghost var drained := StartFromQueue(State(), failing);
      while pending != []
        invariant StartFromQueue(State(), failing) == drained
        decreases |pending|
      {
        var started := CallHead(failing);
        if started {
          return;
        }
      }
    }

    /** `release`, from getting the lock to its gather or its end. */
    method BeginReleasing()
      modifies this
      ensures State() == BeginRelease(old(State()))
    {
      exits := exits + DiscardAll(pending);
      pending := [];
      var task := currentTask;
      var running := Running();
      currentTask := None;
      if !running {
        return;
      }
      tasks := tasks[task.value := tasks[task.value].(cancelRequested := true)];
      lock := HeldByRelease(task.value);
    }

    /** `run_through_guard` up to the lock. */
    method Enter() returns (c: CallId)
      modifies this
      ensures State() == Next(old(State()), Arrive) && c == |old(calls)|
    {
      c := |calls|;
      calls := calls + [Call(Waiting, Unresolved)];
      pendingDone := pendingDone + {c};
      waiters := waiters + [TriggerWaiter(c)];
    }

    /** `resolve_done` of call `c`. */
    method Resolve(c: CallId, resolution: Future)
      requires c < |calls|
      modifies this`pendingDone, this`calls
      ensures State() == ResolveDone(old(State()), c, resolution)
    {
      pendingDone := pendingDone - {c};
      if calls[c].future.Unresolved? {
        calls := calls[c := calls[c].(future := resolution)];
      }
    }

    /** `run_through_guard` after `guard.run`. */
    method Leave(c: CallId, outcome: Option<Outcome>)
      requires c < |calls|
      modifies this`pendingDone, this`calls
      ensures |calls| == |old(calls)| && PhaseFor(calls[c].phase, outcome)
      ensures forall i | 0 <= i < |calls| && i != c :: calls[i] == old(calls[i])
      ensures var refused := outcome == Some(Suppressed) || outcome == Some(Dropped);
              && pendingDone == (if refused then old(pendingDone) - {c} else old(pendingDone))
              && calls[c].future ==
                 (if refused then ResolvedBy(old(calls[c]), ByRefusal).future else old(calls[c].future))
    {
      if outcome == None {
        calls := calls[c := calls[c].(phase := Raised)];
      } else if outcome.value.Suppressed? || outcome.value.Dropped? {
        Resolve(c, ByRefusal);
        calls := calls[c := calls[c].(phase := Returned(outcome.value))];
      } else {
        calls := calls[c := calls[c].(phase := Parked(outcome.value))];
      }
    }

    /** `run` and what follows it, up to the first await. */
    method RunUnderLock(c: CallId, raises: bool)
      requires c < |calls|
      modifies this
      ensures State() == Decide(old(State()), c, raises)
    {
      ghost var goal := Decide(State(), c, raises);
      var outcome: Option<Outcome>;
      match mode {
        case Single => outcome := RunSingle(c, raises);
        case Restart =>
          var waits;
          waits, outcome := BeginRestart(c, raises);
          if waits {
            calls := calls[c := calls[c].(phase := Replacing)];
            return;
          }
        case Queued => outcome := RunQueued(c, raises);
      }
      Leave(c, outcome);
      assert calls == goal.calls;
    }

    /** The first waiter gets the lock and runs until its first await. */
    method GrantLock(raises: bool)
      requires Enabled(State(), Grant(raises))
      modifies this
      ensures State() == Next(old(State()), Grant(raises))
    {
      var head := waiters[0];
      waiters := waiters[1..];
      if head.ReleaseWaiter? {
        BeginReleasing();
      } else {
        RunUnderLock(head.call, raises);
      }
    }

    /** The gather of the lock's holder is over. */
    method ResumeHolder(raises: bool)
      requires Enabled(State(), Resume(raises))
      requires lock.HeldByRestart? ==> mode.Restart?
      modifies this
      ensures State() == Next(old(State()), Resume(raises))
    {
      var holder := lock;
      lock := Free;
      if holder.HeldByRestart? {
        ghost var goal := StartDirectly(State(), holder.call, raises);
        var outcome := Replace(holder.call, raises);
        Leave(holder.call, outcome);
        assert calls == goal.calls;
      }
    }

    method DrainPending()
      modifies this`pendingDone, this`calls
      ensures State() == Next(old(State()), DrainPendingDone)
    {
      var todo := pendingDone;
      while todo != {}
        invariant todo <= pendingDone <= old(pendingDone)
        invariant pendingDone == todo
        invariant |calls| == |old(calls)|
        invariant forall c | 0 <= c < |calls| ::
          calls[c] ==
          if c in old(pendingDone) - todo then ResolvedBy(old(calls[c]), ByDrainPendingDone) else old(calls[c])
        decreases todo
      {
        var c :| c in todo;
        todo := todo - {c};
        pendingDone := pendingDone - {c};
        if c < |calls| && calls[c].future.Unresolved? {
          calls := calls[c := calls[c].(future := ByDrainPendingDone)];
        }
      }
      assert calls == ResolveAll(old(State())).calls;
    }

    /** `release` queues on the lock. */
    method AskForRelease()
      modifies this`waiters
      ensures State() == Next(old(State()), CallRelease)
    {
      waiters := waiters + [ReleaseWaiter];
    }

    /** The event loop ends a task. */
    method FinishTask(t: TaskId)
      requires Enabled(State(), Finish(t))
      modifies this`tasks
      ensures State() == Next(old(State()), Finish(t))
    {
      tasks := tasks[t := tasks[t].(finished := true)];
    }

    /** The `resolve_done` callback of a task runs. */
    method TaskResolves(t: TaskId)
      requires Enabled(State(), DeliverResolve(t))
      modifies this
      ensures State() == Next(old(State()), DeliverResolve(t))
    {
      tasks := tasks[t := tasks[t].(resolveDue := false)];
      Resolve(tasks[t].call, ByCallback(t));
    }

    /** A parked caller goes on. */
    method Wake(c: CallId)
      requires Enabled(State(), WakeCaller(c))
      modifies this`calls
      ensures State() == Next(old(State()), WakeCaller(c))
    {
      calls := calls[c := calls[c].(phase := Returned(calls[c].phase.outcome))];
    }
  }
}
