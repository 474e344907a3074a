/** The overlap guard, its lock, the tasks it spawns and the completion bridge, as one
    transition system. An event is one stretch of code that asyncio runs without an await:
    a trigger arriving, the lock being handed over, a task ending, a done-callback being
    delivered. A task ending and each of its callbacks running are different events, because
    `call_soon` lets other code run in between.

    The fields `called`, `verdicts` and `exits` are histories. No step reads them.
 */
module ExecutionModel {
  import opened Wrappers

  /** The modes that go through the guard; `parallel` never reaches its lock. */
  datatype Mode = Single | Restart | Queued

  datatype Outcome = Ran | Suppressed | Dropped | QueuedAccepted

  /** Calls of `run_through_guard` are numbered in the order they arrive. The factory
      (`run_and_track`) and the completion future of a call go by the call's number. */
  type CallId = nat

  /** Tasks are numbered in the order they are spawned. */
  type TaskId = nat

  datatype Task = Task(
    call: CallId,
    finished: bool,
    cancelRequested: bool,
    resolveDue: bool,  // the `resolve_done` callback has not run yet
    drainDue: bool)    // a `drain_next` callback is attached and has not run yet

  /** Where a call of `run_through_guard` stands. */
  datatype Phase =
    | Waiting                    // queued on the lock
    | Replacing                  // holds the lock, awaits the task it cancelled
    | Parked(outcome: Outcome)   // awaits its completion future
    | Returned(outcome: Outcome)
    | Raised                     // its direct spawn raised

  /** A completion future, and who resolved it. */
  datatype Future =
    | Unresolved
    | ByCallback(task: TaskId)
    | ByRefusal
    | ByDrainPendingDone

  datatype Call = Call(phase: Phase, future: Future)

  datatype Waiter = TriggerWaiter(call: CallId) | ReleaseWaiter

  /** `asyncio.Lock`; it is held across an await only by the two cancelling waits. */
  datatype Lock =
    | Free
    | HeldByRestart(call: CallId, task: TaskId)
    | HeldByRelease(task: TaskId)

  /** A history line about one call. */
  datatype Entry<+K> = Entry(call: CallId, kind: K)

  /** What the guard decided about a call; `verdicts` is in the order of its decisions. */
  datatype Verdict = Started(task: TaskId) | SpawnRaised | Accepted | Refused

  /** How an accepted factory left the pending queue; `exits` is in the order of leaving. */
  datatype Exit = StartedFromQueue(task: TaskId) | FailedToStart | Discarded

  datatype World = World(
    mode: Mode,
    cap: int,
    current: Option<TaskId>,
    pending: seq<CallId>,
    suppressed: nat,
    dropped: nat,
    lock: Lock,
    waiters: seq<Waiter>,
    tasks: seq<Task>,
    calls: seq<Call>,
    pendingDone: set<CallId>,
    called: seq<CallId>,      // every factory invocation, also those that raised
    verdicts: seq<Entry<Verdict>>,
    exits: seq<Entry<Exit>>)

  function Initial(mode: Mode, cap: int): World {
    World(mode, cap, None, [], 0, 0, Free, [], [], [], {}, [], [], [])
  }

  datatype Event =
    | Arrive                                            // `run_through_guard` is called
    | CallRelease                                       // `release` is called
    | Grant(raises: bool)                               // the first waiter gets the free lock
    | Resume(raises: bool)                              // the holder's gather is over
    | Finish(task: TaskId)                              // a task ends, cancelled or not
    | DeliverResolve(task: TaskId)                      // its `resolve_done` callback runs
    | DeliverDrain(task: TaskId, failing: set<CallId>)  // its `drain_next` callback runs
    | WakeCaller(call: CallId)                          // `await done` returns
    | DrainPendingDone

  predicate IsRunning(w: World) {
    w.current.Some? && w.current.value < |w.tasks| && !w.tasks[w.current.value].finished
  }

  predicate Enabled(w: World, e: Event) {
    match e
    case Arrive => true
    case CallRelease => true
    case Grant(_) =>
      && w.lock.Free?
      && w.waiters != []
      && (w.waiters[0].TriggerWaiter? ==> w.waiters[0].call < |w.calls|)
    case Resume(_) =>
      && !w.lock.Free?
      && w.lock.task < |w.tasks|
      && w.tasks[w.lock.task].finished
      && (w.lock.HeldByRestart? ==> w.lock.call < |w.calls|)
    case Finish(t) => t < |w.tasks| && !w.tasks[t].finished
    case DeliverResolve(t) =>
      && t < |w.tasks|
      && w.tasks[t].finished
      && w.tasks[t].resolveDue
      && w.tasks[t].call < |w.calls|
    case DeliverDrain(t, _) => t < |w.tasks| && w.tasks[t].finished && w.tasks[t].drainDue
    case WakeCaller(c) => c < |w.calls| && w.calls[c].phase.Parked? && !w.calls[c].future.Unresolved?
    case DrainPendingDone => true
  }

  function Next(w: World, e: Event): World
    requires Enabled(w, e)
  {
    match e
    case Arrive => Arrival(w)
    case CallRelease => w.(waiters := w.waiters + [ReleaseWaiter])
    case Grant(raises) =>
      var head := w.waiters[0];
      var w' := w.(waiters := w.waiters[1..]);
      if head.TriggerWaiter? then Decide(w', head.call, raises) else BeginRelease(w')
    case Resume(raises) =>
      if w.lock.HeldByRestart?
      then StartDirectly(w.(lock := Free), w.lock.call, raises)
      else w.(lock := Free)
    case Finish(t) => w.(tasks := w.tasks[t := w.tasks[t].(finished := true)])
    case DeliverResolve(t) =>
      ResolveDone(w.(tasks := w.tasks[t := w.tasks[t].(resolveDue := false)]), w.tasks[t].call, ByCallback(t))
    case DeliverDrain(t, failing) =>
      DrainNext(w.(tasks := w.tasks[t := w.tasks[t].(drainDue := false)]), t, failing)
    case WakeCaller(c) =>
      w.(calls := w.calls[c := w.calls[c].(phase := Returned(w.calls[c].phase.outcome))])
    case DrainPendingDone => ResolveAll(w)
  }

  /** A call creates its future, registers it and queues on the lock. */
  function Arrival(w: World): World {
    w.(calls := w.calls + [Call(Waiting, Unresolved)],
       pendingDone := w.pendingDone + {|w.calls|},
       waiters := w.waiters + [TriggerWaiter(|w.calls|)])
  }

  /** The body of `run` under the lock, up to its first await or its end. */
  function Decide(w: World, c: CallId, raises: bool): World
    requires c < |w.calls|
  {
    match w.mode
    case Single =>
      if IsRunning(w)
      then Refuse(w, c, Suppressed)
      else StartDirectly(w, c, raises)
    case Restart =>
      if IsRunning(w)
      then
        var t := w.current.value;
        w.(tasks := w.tasks[t := w.tasks[t].(cancelRequested := true)],
           lock := HeldByRestart(c, t),
           calls := w.calls[c := w.calls[c].(phase := Replacing)])
      else StartDirectly(w, c, raises)
    case Queued =>
      if !IsRunning(w) then StartDirectly(w, c, raises)
      else if |w.pending| >= w.cap then Refuse(w, c, Dropped)
      else
        w.(pending := w.pending + [c],
           verdicts := w.verdicts + [Entry(c, Accepted)],
           calls := w.calls[c := w.calls[c].(phase := Parked(QueuedAccepted))])
  }

  /** `self.current_task = run_and_track()`. The drain callback is attached only in queued mode.
      A spawn that raises leaves the guard as it was and ends the call. */
  function StartDirectly(w: World, c: CallId, raises: bool): World
    requires c < |w.calls|
  {
    if raises then
      w.(called := w.called + [c],
         verdicts := w.verdicts + [Entry(c, SpawnRaised)],
         calls := w.calls[c := w.calls[c].(phase := Raised)])
    else
      w.(called := w.called + [c],
         tasks := w.tasks + [NewTask(w, c)],
         current := Some(|w.tasks|),
         verdicts := w.verdicts + [Entry(c, Started(|w.tasks|))],
         calls := w.calls[c := w.calls[c].(phase := Parked(Ran))])
  }

  function NewTask(w: World, c: CallId): Task {
    Task(c, false, false, true, w.mode.Queued?)
  }

  /** The guard said no and counts it: the bridge resolves the future itself and returns. */
  function Refuse(w: World, c: CallId, outcome: Outcome): World
    requires c < |w.calls|
  {
    w.(suppressed := if outcome.Suppressed? then w.suppressed + 1 else w.suppressed,
       dropped := if outcome.Dropped? then w.dropped + 1 else w.dropped,
       pendingDone := w.pendingDone - {c},
       calls := w.calls[c := ResolvedBy(w.calls[c], ByRefusal).(phase := Returned(outcome))],
       verdicts := w.verdicts + [Entry(c, Refused)])
  }

  /** `resolve_done`: the future leaves the set and is resolved unless something resolved it before. */
  function ResolveDone(w: World, c: CallId, resolution: Future): World
    requires c < |w.calls|
  {
    w.(pendingDone := w.pendingDone - {c},
       calls := w.calls[c := ResolvedBy(w.calls[c], resolution)])
  }

  function ResolvedBy(call: Call, resolution: Future): Call {
    if call.future.Unresolved? then call.(future := resolution) else call
  }

  function DrainNext(w: World, t: TaskId, failing: set<CallId>): World {
    if w.current != Some(t) then w else StartFromQueue(w.(current := None), failing)
  }

  /** The drain loop: factories whose spawn raises are dropped until one starts. */
  function StartFromQueue(w: World, failing: set<CallId>): World
    decreases |w.pending|
  {
    if w.pending == [] then w
    else if w.pending[0] in failing then StartFromQueue(FailHead(w), failing)
    else StartHead(w)
  }

  function FailHead(w: World): World
    requires w.pending != []
  {
    w.(pending := w.pending[1..],
       called := w.called + [w.pending[0]],
       exits := w.exits + [Entry(w.pending[0], FailedToStart)])
  }

  function StartHead(w: World): World
    requires w.pending != []
  {
    w.(pending := w.pending[1..],
       called := w.called + [w.pending[0]],
       tasks := w.tasks + [Task(w.pending[0], false, false, true, true)],
       current := Some(|w.tasks|),
       exits := w.exits + [Entry(w.pending[0], StartedFromQueue(|w.tasks|))])
  }

  /** `release` with the lock in hand: the queue is cleared and the task is let go of; a task that
      still runs is cancelled and awaited with the lock held. */
  function BeginRelease(w: World): World {
    var w' := w.(pending := [], exits := w.exits + DiscardAll(w.pending), current := None);
    if IsRunning(w)
    then
      var t := w.current.value;
      w'.(tasks := w.tasks[t := w.tasks[t].(cancelRequested := true)], lock := HeldByRelease(t))
    else w'
  }

  function DiscardAll(pending: seq<CallId>): seq<Entry<Exit>> {
    seq(|pending|, i requires 0 <= i < |pending| => Entry(pending[i], Discarded))
  }

  function ResolveAll(w: World): World {
    w.(pendingDone := {},
       calls := seq(|w.calls|, c requires 0 <= c < |w.calls| => 
         if c in w.pendingDone then ResolvedBy(w.calls[c], ByDrainPendingDone) else w.calls[c]))
  }

  /** A run is a list of events, each enabled where it happens. */
  predicate ValidRun(w: World, events: seq<Event>)
    decreases |events|
  {
    events != [] ==> Enabled(w, events[0]) && ValidRun(Next(w, events[0]), events[1..])
  }

  function After(w: World, events: seq<Event>): World
    requires ValidRun(w, events)
    decreases |events|
  {
    if events == [] then w else After(Next(w, events[0]), events[1..])
  }
}
