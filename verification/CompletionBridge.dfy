/** What `run_through_guard` promises its callers: no early return, no forgotten caller, and, once
    triggers stop coming, an end for everyone but the callers whose factory was discarded or failed
    to start. */
module CompletionBridge {
  import opened Wrappers
  import opened ExecutionModel
  import opened ExecutionInvariant
  import opened ExecutionTheorems

  // ----- No early return, no forgotten caller -----

  ghost predicate TaskFinished(w: World, c: CallId) {
    exists t :: 0 <= t < |w.tasks| && w.tasks[t].call == c && w.tasks[t].finished
  }

  ghost predicate ResolveStillDue(w: World, c: CallId) {
    exists t :: 0 <= t < |w.tasks| && w.tasks[t].call == c && w.tasks[t].resolveDue
  }

  ghost predicate NeverStarted(w: World, c: CallId) {
    exists i :: 0 <= i < |w.exits| && w.exits[i].call == c && !w.exits[i].kind.StartedFromQueue?
  }

  /** Why a future may still be unresolved. */
  ghost predicate Accounted(w: World, c: CallId) {
    || c >= |w.verdicts|                      // waits for the lock, or holds it and waits for a task
    || c in w.pending
    || ResolveStillDue(w, c)                  // its task runs, or the callback is still to come
    || NeverStarted(w, c)                     // discarded by `release`, or failed in the drain
    || w.verdicts[c].kind == SpawnRaised      // its own spawn raised and the call is over
  }

  ghost predicate BridgeOk(w: World, c: CallId)
    requires c < |w.calls|
  {
    var call := w.calls[c];
    && (call.future.Unresolved? <==> c in w.pendingDone)
    && (call.future.Unresolved? ==> Accounted(w, c))
    && (call.phase == Returned(Ran) || call.phase == Returned(QueuedAccepted) ==>
          TaskFinished(w, c) || call.future.ByDrainPendingDone?)
    && (call.phase == Returned(Suppressed) || call.phase == Returned(Dropped) <==>
          c < |w.verdicts| && w.verdicts[c].kind.Refused?)
  }

  lemma AcceptedIsPendingOrLeft(w: World, c: CallId)
    requires Inv(w) && c < |w.verdicts| && w.verdicts[c].kind.Accepted?
    ensures c in w.pending || exists i :: 0 <= i < |w.exits| && w.exits[i].call == c
  {
    SelectMember(w.verdicts, IsAccepted, c);
    assert c in Select(w.exits, AnyExit) + w.pending;
    SelectMember(w.exits, AnyExit, c);
  }

  lemma UnresolvedIsAccounted(w: World, c: CallId)
    requires Inv(w) && c < |w.calls| && w.calls[c].future.Unresolved?
    ensures Accounted(w, c)
  {
    assert CallOk(w, c);
    if c < |w.verdicts| {
      if w.verdicts[c].kind.Started? {
        assert TaskOk(w, w.verdicts[c].kind.task);
      } else if w.verdicts[c].kind.Accepted? && c !in w.pending {
        AcceptedIsPendingOrLeft(w, c);
        var i :| 0 <= i < |w.exits| && w.exits[i].call == c;
        if w.exits[i].kind.StartedFromQueue? {
          assert TaskOk(w, w.exits[i].kind.task);
        }
      }
    }
  }

  /** In every run: a call the guard ran or accepted returns only after its own task has finished or
      after `drain_pending_done` resolved its future; a future is registered exactly while it is
      unresolved; and an unresolved future has one of the known reasons. */
  lemma NoEarlyReturnNoLostCaller(mode: Mode, cap: int, events: seq<Event>, c: CallId)
    requires ValidRun(Initial(mode, cap), events)
    requires c < |After(Initial(mode, cap), events).calls|
    ensures BridgeOk(After(Initial(mode, cap), events), c)
  {
    InitialInv(mode, cap);
    RunInv(Initial(mode, cap), events);
    InvBridge(After(Initial(mode, cap), events), c);
  }

  lemma InvBridge(w: World, c: CallId)
    requires Inv(w) && c < |w.calls|
    ensures BridgeOk(w, c)
  {
    assert CallOk(w, c);
    if w.calls[c].future.Unresolved? {
      UnresolvedIsAccounted(w, c);
    }
  }

  /** After `drain_pending_done` every future created so far is resolved, and stays resolved. */
  lemma DrainResolvesEveryone(w: World, events: seq<Event>, c: CallId)
    requires Inv(w) && ValidRun(Next(w, DrainPendingDone), events)
    requires c < |w.calls|
    ensures var w' := After(Next(w, DrainPendingDone), events);
            c < |w'.calls| && !w'.calls[c].future.Unresolved?
  {
    assert CallOk(w, c);
    RunKeepsResolved(Next(w, DrainPendingDone), events, c);
  }

  ghost predicate IsResolved(w: World, c: CallId) {
    c < |w.calls| && !w.calls[c].future.Unresolved?
  }

  lemma {:induction false} StartFromQueueKeepsCalls(w: World, failing: set<CallId>)
    ensures StartFromQueue(w, failing).calls == w.calls
    decreases |w.pending|
  {
    if w.pending != [] && w.pending[0] in failing {
      StartFromQueueKeepsCalls(FailHead(w), failing);
    }
  }

  lemma DrainNextKeepsCalls(w: World, t: TaskId, failing: set<CallId>)
    ensures DrainNext(w, t, failing).calls == w.calls
  {
    StartFromQueueKeepsCalls(w.(current := None), failing);
  }

  lemma NextKeepsResolved(w: World, e: Event, c: CallId)
    requires Enabled(w, e) && IsResolved(w, c)
    ensures IsResolved(Next(w, e), c)
  {
    if e.DeliverDrain? {
      var w' := w.(tasks := w.tasks[e.task := w.tasks[e.task].(drainDue := false)]);
      DrainNextKeepsCalls(w', e.task, e.failing);
    }
  }

  lemma {:induction false} RunKeepsResolved(w: World, events: seq<Event>, c: CallId)
    requires ValidRun(w, events) && IsResolved(w, c)
    ensures IsResolved(After(w, events), c)
    decreases |events|
  {
    if events != [] {
      NextKeepsResolved(w, events[0], c);
      RunKeepsResolved(Next(w, events[0]), events[1..], c);
    }
  }

  // ----- Every task was started for its call -----

  ghost predicate OriginOf(w: World, t: TaskId)
    requires t < |w.tasks|
  {
    var c := w.tasks[t].call;
    || (c < |w.verdicts| && w.verdicts[c] == Entry(c, Started(t)))
    || (exists i :: 0 <= i < |w.exits| && w.exits[i] == Entry(c, StartedFromQueue(t)))
  }

  ghost predicate Origin(w: World) {
    forall t | 0 <= t < |w.tasks| :: OriginOf(w, t)
  }

  lemma OriginKept(w: World, w': World)
    requires Origin(w) && w.verdicts <= w'.verdicts && w.exits <= w'.exits && TasksGrow(w, w')
    requires forall t | |w.tasks| <= t < |w'.tasks| :: OriginOf(w', t)
    ensures Origin(w')
  {
    forall t | 0 <= t < |w'.tasks|
      ensures OriginOf(w', t)
    {
      if t < |w.tasks| {
        assert OriginOf(w, t);
      }
    }
  }

  lemma {:induction false} StartFromQueueOrigin(w: World, failing: set<CallId>)
    requires Origin(w)
    ensures Origin(StartFromQueue(w, failing))
    decreases |w.pending|
  {
    if w.pending != [] {
      if w.pending[0] in failing {
        OriginKept(w, FailHead(w));
        StartFromQueueOrigin(FailHead(w), failing);
      } else {
        var w' := StartHead(w);
        assert w'.exits[|w.exits|] == Entry(w.pending[0], StartedFromQueue(|w.tasks|));
        assert OriginOf(w', |w.tasks|);
        OriginKept(w, w');
      }
    }
  }

  lemma StartDirectlyOrigin(w: World, c: CallId, raises: bool)
    requires Origin(w) && c == |w.verdicts| < |w.calls|
    ensures Origin(StartDirectly(w, c, raises))
  {
    OriginKept(w, StartDirectly(w, c, raises));
  }

  lemma GrantOrigin(w: World, raises: bool)
    requires Inv(w) && Origin(w) && Enabled(w, Grant(raises))
    ensures Origin(Next(w, Grant(raises)))
  {
    var w' := w.(waiters := w.waiters[1..]);
    OriginKept(w, w');
    if w.waiters[0].TriggerWaiter? {
      var c := w.waiters[0].call;
      assert [c] + TriggerCalls(w'.waiters) == TriggerCalls(w.waiters);
      InHandIsNext(w', c);
      if IsRunning(w') {
        OriginKept(w', Decide(w', c, raises));
      } else {
        StartDirectlyOrigin(w', c, raises);
      }
    } else {
      OriginKept(w', BeginRelease(w'));
    }
  }

  lemma NextOrigin(w: World, e: Event)
    requires Inv(w) && Origin(w) && Enabled(w, e)
    ensures Origin(Next(w, e))
  {
    match e
    case Grant(raises) => GrantOrigin(w, raises);
    case Resume(raises) =>
      OriginKept(w, w.(lock := Free));
      if w.lock.HeldByRestart? {
        InHandIsNext(w, w.lock.call);
        StartDirectlyOrigin(w.(lock := Free), w.lock.call, raises);
      }
    case DeliverDrain(t, failing) =>
      var w' := w.(tasks := w.tasks[t := w.tasks[t].(drainDue := false)]);
      OriginKept(w, w');
      OriginKept(w, w'.(current := None));
      StartFromQueueOrigin(w'.(current := None), failing);
    case _ => OriginKept(w, Next(w, e));
  }

  lemma {:induction false} RunOrigin(w: World, events: seq<Event>)
    requires Inv(w) && Origin(w) && ValidRun(w, events)
    ensures Origin(After(w, events))
    decreases |events|
  {
    if events != [] {
      NextInv(w, events[0]);
      NextOrigin(w, events[0]);
      RunOrigin(Next(w, events[0]), events[1..]);
    }
  }

  /** A factory that left the queue without starting has no task. */
  lemma NeverStartedHasNoTask(w: World, c: CallId)
    requires Inv(w) && Origin(w) && NeverStarted(w, c)
    ensures !TaskFinished(w, c)
    ensures c < |w.verdicts| && w.verdicts[c].kind.Accepted?
  {
    var i :| 0 <= i < |w.exits| && w.exits[i].call == c && !w.exits[i].kind.StartedFromQueue?;
    InOrder(w);
    SelectMember(w.exits, AnyExit, c);
    assert c in Select(w.verdicts, IsAccepted);
    SelectMember(w.verdicts, IsAccepted, c);
    forall t | 0 <= t < |w.tasks|
      ensures w.tasks[t].call != c
    {
      assert OriginOf(w, t);
    }
  }

  // ----- Everything comes to rest -----

  /** Events the system performs by itself once nobody triggers, releases or drains. */
  predicate Internal(e: Event) {
    !e.Arrive? && !e.CallRelease? && !e.DrainPendingDone?
  }

  ghost function Total<T>(s: seq<T>, work: T -> nat): nat {
    if s == [] then 0 else Total(s[..|s| - 1], work) + work(s[|s| - 1])
  }

  lemma TotalAppend<T>(s: seq<T>, x: T, work: T -> nat)
    ensures Total(s + [x], work) == Total(s, work) + work(x)
  {
    assert (s + [x])[..|s|] == s;
  }

  lemma {:induction false} TotalUpdate<T>(s: seq<T>, i: nat, x: T, work: T -> nat)
    requires i < |s|
    ensures Total(s[i := x], work) + work(s[i]) == Total(s, work) + work(x)
  {
    var init := s[..|s| - 1];
    if i == |s| - 1 {
      assert s[i := x][..|s| - 1] == init;
    } else {
      TotalUpdate(init, i, x, work);
      assert s[i := x][..|s| - 1] == init[i := x];
    }
  }

  function TaskWork(t: Task): nat { Flag(!t.finished) + Flag(t.resolveDue) + Flag(t.drainDue) }
  function CallWork(c: Call): nat { Flag(c.phase.Parked?) }
  function LockWork(l: Lock): nat { if l.Free? then 0 else if l.HeldByRestart? then 5 else 1 }

  /** A bound on the number of internal events still to come. */
  ghost function Measure(w: World): nat {
    Total(w.tasks, TaskWork) + Total(w.calls, CallWork) + 5 * |w.pending| + 7 * |w.waiters| + LockWork(w.lock)
  }

  lemma StartDirectlyMeasure(w: World, c: CallId, raises: bool)
    requires c < |w.calls|
    ensures Measure(StartDirectly(w, c, raises)) <= Measure(w) + 4
    ensures w.mode.Restart? ==> Measure(StartDirectly(w, c, raises)) <= Measure(w) + 3
  {
    TotalUpdate(w.calls, c, StartDirectly(w, c, raises).calls[c], CallWork);
    TotalAppend(w.tasks, NewTask(w, c), TaskWork);
  }

  lemma DecideMeasure(w: World, c: CallId, raises: bool)
    requires c < |w.calls| && w.lock.Free?
    ensures Measure(Decide(w, c, raises)) < Measure(w) + 7
  {
    if !IsRunning(w) {
      StartDirectlyMeasure(w, c, raises);
    } else {
      var w' := Decide(w, c, raises);
      TotalUpdate(w.calls, c, w'.calls[c], CallWork);
      if w.mode.Restart? {
        var t := w.current.value;
        TotalUpdate(w.tasks, t, w'.tasks[t], TaskWork);
      }
    }
  }

  lemma BeginReleaseMeasure(w: World)
    requires w.lock.Free?
    ensures Measure(BeginRelease(w)) <= Measure(w) + 1
  {
    if IsRunning(w) {
      var t := w.current.value;
      TotalUpdate(w.tasks, t, BeginRelease(w).tasks[t], TaskWork);
    }
  }

  lemma {:induction false} StartFromQueueMeasure(w: World, failing: set<CallId>)
    ensures Measure(StartFromQueue(w, failing)) <= Measure(w)
    decreases |w.pending|
  {
    if w.pending != [] {
      if w.pending[0] in failing {
        StartFromQueueMeasure(FailHead(w), failing);
      } else {
        TotalAppend(w.tasks, Task(w.pending[0], false, false, true, true), TaskWork);
      }
    }
  }

  /** Every internal event makes the measure smaller. */
  lemma InternalEventsDecrease(w: World, e: Event)
    requires Internal(e) && Enabled(w, e)
    requires w.lock.HeldByRestart? ==> w.mode.Restart?
    ensures Measure(Next(w, e)) < Measure(w)
  {
    match e
    case Grant(raises) =>
      var w' := w.(waiters := w.waiters[1..]);
      if w.waiters[0].TriggerWaiter? {
        DecideMeasure(w', w.waiters[0].call, raises);
      } else {
        BeginReleaseMeasure(w');
      }
    case Resume(raises) =>
      if w.lock.HeldByRestart? {
        StartDirectlyMeasure(w.(lock := Free), w.lock.call, raises);
      }
    case Finish(t) => TotalUpdate(w.tasks, t, w.tasks[t].(finished := true), TaskWork);
    case DeliverResolve(t) =>
      var c := w.tasks[t].call;
      TotalUpdate(w.tasks, t, w.tasks[t].(resolveDue := false), TaskWork);
      TotalUpdate(w.calls, c, ResolvedBy(w.calls[c], ByCallback(t)), CallWork);
    case DeliverDrain(t, failing) =>
      var w' := w.(tasks := w.tasks[t := w.tasks[t].(drainDue := false)]);
      TotalUpdate(w.tasks, t, w.tasks[t].(drainDue := false), TaskWork);
      StartFromQueueMeasure(w'.(current := None), failing);
    case WakeCaller(c) => TotalUpdate(w.calls, c, Next(w, e).calls[c], CallWork);
  }

  /** Without new triggers every run is finite: it has no more events than the measure says. */
  lemma {:induction false} QuietRunsAreShort(w: World, events: seq<Event>)
    requires Inv(w) && ValidRun(w, events)
    requires forall e | e in events :: Internal(e)
    ensures |events| <= Measure(w)
    decreases |events|
  {
    if events != [] {
      NextInv(w, events[0]);
      InternalEventsDecrease(w, events[0]);
      QuietRunsAreShort(Next(w, events[0]), events[1..]);
    }
  }

  /** Nothing is left to happen by itself. */
  ghost predicate AtRest(w: World) {
    forall e | Internal(e) :: !Enabled(w, e)
  }

  /** At rest the queue is empty, the lock is free with nobody waiting, every task has ended with its
      callbacks delivered and every call has its verdict. A caller still hangs in `await done` if and
      only if its future is unresolved, and that is exactly the case of an accepted factory that never
      started and was not drained. */
  ghost predicate Settled(w: World) {
    && w.pending == []
    && w.lock.Free?
    && w.waiters == []
    && |w.verdicts| == |w.calls|
    && (forall t | 0 <= t < |w.tasks| :: w.tasks[t].finished && !w.tasks[t].resolveDue && !w.tasks[t].drainDue)
    && (forall c | 0 <= c < |w.calls| ::
          w.calls[c].phase.Parked? <==>
          w.calls[c].future.Unresolved? && w.verdicts[c].kind.Accepted?)
    && (forall c | 0 <= c < |w.calls| && w.calls[c].phase.Parked? :: NeverStarted(w, c))
  }

  lemma RestIsSettled(w: World)
    requires Inv(w) && AtRest(w)
    ensures Settled(w)
  {
    LockIsIdle(w);
    forall t | 0 <= t < |w.tasks|
      ensures w.tasks[t].finished && !w.tasks[t].resolveDue && !w.tasks[t].drainDue
    {
      assert TaskOk(w, t);
      assert !Enabled(w, Finish(t)) && !Enabled(w, DeliverResolve(t)) && !Enabled(w, DeliverDrain(t, {}));
    }
    forall c | 0 <= c < |w.calls|
      ensures w.calls[c].phase.Parked? <==> w.calls[c].future.Unresolved? && w.verdicts[c].kind.Accepted?
      ensures w.calls[c].phase.Parked? ==> NeverStarted(w, c)
    {
      assert CallOk(w, c);
      assert !Enabled(w, WakeCaller(c));
      if w.verdicts[c].kind.Started? {
        assert TaskOk(w, w.verdicts[c].kind.task);
      }
      if w.calls[c].future.Unresolved? {
        UnresolvedIsAccounted(w, c);
      }
    }
  }

  lemma LockIsIdle(w: World)
    requires Inv(w) && AtRest(w)
    ensures w.lock.Free? && w.waiters == [] && |w.verdicts| == |w.calls|
  {
    if !w.lock.Free? {
      var t := w.lock.task;
      assert TaskOk(w, t);
      assert !Enabled(w, Finish(t)) && !Enabled(w, Resume(false));
      HolderIsACall(w);
      assert false;
    }
    if w.waiters != [] {
      assert !Enabled(w, Grant(false));
      HeadIsACall(w);
      assert false;
    }
    assert |Range(|w.verdicts|, |w.calls|)| == |Holder(w.lock) + TriggerCalls(w.waiters)| == 0;
  }

  lemma HolderIsACall(w: World)
    requires Inv(w)
    ensures w.lock.HeldByRestart? ==> w.lock.call < |w.calls|
  {
    if w.lock.HeldByRestart? {
      InHandIsNext(w, w.lock.call);
    }
  }

  lemma HeadIsACall(w: World)
    requires Inv(w) && w.waiters != []
    ensures w.waiters[0].TriggerWaiter? ==> w.waiters[0].call < |w.calls|
  {
    if w.waiters[0].TriggerWaiter? {
      var all := Holder(w.lock) + TriggerCalls(w.waiters);
      assert all[|Holder(w.lock)|] == w.waiters[0].call;
      assert all == Range(|w.verdicts|, |w.calls|);
    }
  }

  /** From every reachable state the system comes to rest by itself, if tasks end. */
  lemma {:induction false} ComesToRest(w: World) returns (events: seq<Event>)
    requires Inv(w)
    ensures ValidRun(w, events) && (forall e | e in events :: Internal(e))
    ensures Settled(After(w, events))
    decreases Measure(w)
  {
    if AtRest(w) {
      RestIsSettled(w);
      events := [];
    } else {
      var e :| Internal(e) && Enabled(w, e);
      NextInv(w, e);
      InternalEventsDecrease(w, e);
      var rest := ComesToRest(Next(w, e));
      events := [e] + rest;
      assert events[1..] == rest;
    }
  }

  // ----- Who hangs -----

  /** In a run from a state with `n` calls, `drain_pending_done` happens when call `c` is there already. */
  predicate DrainedAfterArrival(n: nat, events: seq<Event>, c: CallId)
    decreases |events|
  {
    events != [] &&
    ((events[0].DrainPendingDone? && c < n) ||
     DrainedAfterArrival(if events[0].Arrive? then n + 1 else n, events[1..], c))
  }

  lemma DrainNextKeepsCount(w: World, e: Event)
    requires Enabled(w, e)
    ensures |Next(w, e).calls| == if e.Arrive? then |w.calls| + 1 else |w.calls|
  {
    if e.DeliverDrain? {
      var w' := w.(tasks := w.tasks[e.task := w.tasks[e.task].(drainDue := false)]);
      DrainNextKeepsCalls(w', e.task, e.failing);
    }
  }

  lemma {:induction false} DrainedIsResolved(w: World, events: seq<Event>, c: CallId)
    requires Inv(w) && ValidRun(w, events) && DrainedAfterArrival(|w.calls|, events, c)
    ensures IsResolved(After(w, events), c)
    decreases |events|
  {
    var e, w' := events[0], Next(w, events[0]);
    NextInv(w, e);
    DrainNextKeepsCount(w, e);
    if e.DrainPendingDone? && c < |w.calls| {
      DrainResolvesEveryone(w, events[1..], c);
    } else {
      DrainedIsResolved(w', events[1..], c);
    }
  }

  ghost predicate ResolvedByDrain(w: World, c: CallId) {
    c < |w.calls| && w.calls[c].future.ByDrainPendingDone?
  }

  /** Nothing else resolves a future in this way. */
  lemma OnlyDrainsDrain(w: World, e: Event, c: CallId)
    requires Enabled(w, e) && ResolvedByDrain(Next(w, e), c)
    ensures ResolvedByDrain(w, c) || (e.DrainPendingDone? && c < |w.calls|)
  {
    if e.DeliverDrain? {
      var w' := w.(tasks := w.tasks[e.task := w.tasks[e.task].(drainDue := false)]);
      DrainNextKeepsCalls(w', e.task, e.failing);
    }
  }

  lemma {:induction false} ResolvedByDrainWasDrained(w: World, events: seq<Event>, c: CallId)
    requires ValidRun(w, events) && ResolvedByDrain(After(w, events), c)
    ensures ResolvedByDrain(w, c) || DrainedAfterArrival(|w.calls|, events, c)
    decreases |events|
  {
    if events != [] {
      DrainNextKeepsCount(w, events[0]);
      ResolvedByDrainWasDrained(Next(w, events[0]), events[1..], c);
      if ResolvedByDrain(Next(w, events[0]), c) {
        OnlyDrainsDrain(w, events[0], c);
      }
    }
  }

  /** What is known of a call at rest whose factory left the queue without starting. */
  lemma NeverStartedAtRest(w: World, c: CallId)
    requires Inv(w) && Origin(w) && AtRest(w) && c < |w.calls| && NeverStarted(w, c)
    ensures w.calls[c].phase.Parked? <==> !IsResolved(w, c)
    ensures IsResolved(w, c) ==> ResolvedByDrain(w, c)
  {
    RestIsSettled(w);
    NeverStartedHasNoTask(w, c);
    assert CallOk(w, c);
  }

  /** At rest, after any run, a caller hangs exactly if its factory was accepted and then left the queue
      without starting, discarded by `release` or failed in a drain, and no `drain_pending_done` happened
      after the call arrived. */
  lemma WhoHangs(mode: Mode, cap: int, events: seq<Event>, c: CallId)
    requires ValidRun(Initial(mode, cap), events) && AtRest(After(Initial(mode, cap), events))
    requires c < |After(Initial(mode, cap), events).calls|
    ensures var w := After(Initial(mode, cap), events);
            w.calls[c].phase.Parked? <==> NeverStarted(w, c) && !DrainedAfterArrival(0, events, c)
  {
    var start, w := Initial(mode, cap), After(Initial(mode, cap), events);
    InitialInv(mode, cap);
    RunInv(start, events);
    RunOrigin(start, events);
    if NeverStarted(w, c) {
      NeverStartedAtRest(w, c);
      if DrainedAfterArrival(0, events, c) {
        DrainedIsResolved(start, events, c);
      } else if IsResolved(w, c) {
        ResolvedByDrainWasDrained(start, events, c);
      }
    } else {
      RestIsSettled(w);
    }
  }

  // ----- The documented use -----

  /** No spawn fails in a drain of the queue. */
  predicate DrainsStart(events: seq<Event>) { forall e | e in events && e.DeliverDrain? :: e.failing == {} }

  ghost predicate ReleaseBegins(w: World, e: Event) {
    Enabled(w, e) && e.Grant? && w.waiters[0].ReleaseWaiter?
  }

  /** Some `drain_pending_done` comes after each release took the lock. */
  ghost predicate ReleasesAreDrained(w: World, events: seq<Event>)
    requires ValidRun(w, events)
    decreases |events|
  {
    events != [] ==>
      && (ReleaseBegins(w, events[0]) ==> DrainPendingDone in events[1..])
      && ReleasesAreDrained(Next(w, events[0]), events[1..])
  }

  lemma {:induction false} DrainComes(n: nat, events: seq<Event>, c: CallId)
    requires DrainPendingDone in events && c < n
    ensures DrainedAfterArrival(n, events, c)
    decreases |events|
  {
    if !events[0].DrainPendingDone? {
      DrainComes(if events[0].Arrive? then n + 1 else n, events[1..], c);
    }
  }

  lemma {:induction false} DrainOnlyStarts(w: World)
    ensures StartFromQueue(w, {}).exits == w.exits ||
            (exists t :: StartFromQueue(w, {}).exits == w.exits + [Entry(w.pending[0], StartedFromQueue(t))])
  {
  }

  lemma DrainExits(w: World, e: Event)
    requires Enabled(w, e) && e.DeliverDrain? && e.failing == {}
    ensures Next(w, e).exits == w.exits ||
            (exists c, t :: Next(w, e).exits == w.exits + [Entry(c, StartedFromQueue(t))])
  {
    if w.current == Some(e.task) {
      DrainOnlyStarts(w.(tasks := w.tasks[e.task := w.tasks[e.task].(drainDue := false)], current := None));
    }
  }

  lemma OtherExits(w: World, e: Event)
    requires Enabled(w, e) && !e.DeliverDrain?
    ensures Next(w, e).exits == if ReleaseBegins(w, e) then w.exits + DiscardAll(w.pending) else w.exits
  {
  }

  lemma UnstartedSplit(w: World, w': World, more: seq<Entry<Exit>>, c: CallId)
    requires w'.exits == w.exits + more && NeverStarted(w', c)
    ensures NeverStarted(w, c) || exists j :: 0 <= j < |more| && more[j].call == c && !more[j].kind.StartedFromQueue?
  {
    var i :| 0 <= i < |w'.exits| && w'.exits[i].call == c && !w'.exits[i].kind.StartedFromQueue?;
    if i < |w.exits| {
      assert w.exits[i] == w'.exits[i];
    } else {
      assert more[i - |w.exits|] == w'.exits[i];
    }
  }

  lemma DrainKeepsUnstarted(w: World, e: Event, c: CallId)
    requires Enabled(w, e) && e.DeliverDrain? && e.failing == {} && NeverStarted(Next(w, e), c)
    ensures NeverStarted(w, c)
  {
    DrainExits(w, e);
    if Next(w, e).exits != w.exits {
      var d, t :| Next(w, e).exits == w.exits + [Entry(d, StartedFromQueue(t))];
      UnstartedSplit(w, Next(w, e), [Entry(d, StartedFromQueue(t))], c);
    }
  }

  /** A factory leaves the queue unstarted in a failed spawn, or in a release that finds it there. */
  lemma LeavesUnstarted(w: World, e: Event, c: CallId)
    requires Enabled(w, e) && (e.DeliverDrain? ==> e.failing == {})
    requires NeverStarted(Next(w, e), c) && !NeverStarted(w, c)
    ensures ReleaseBegins(w, e) && c in w.pending
  {
    if e.DeliverDrain? {
      DrainKeepsUnstarted(w, e, c);
    } else {
      OtherExits(w, e);
      if ReleaseBegins(w, e) {
        UnstartedSplit(w, Next(w, e), DiscardAll(w.pending), c);
      }
    }
  }

  lemma {:induction false} UnstartedIsDrained(w: World, events: seq<Event>, c: CallId)
    requires Inv(w) && ValidRun(w, events) && ReleasesAreDrained(w, events) && DrainsStart(events)
    requires NeverStarted(After(w, events), c) && !NeverStarted(w, c)
    ensures DrainedAfterArrival(|w.calls|, events, c)
    decreases |events|
  {
    if events != [] {
      var e, w' := events[0], Next(w, events[0]);
      assert e in events;
      NextInv(w, e);
      DrainNextKeepsCount(w, e);
      if NeverStarted(w', c) {
        LeavesUnstarted(w, e, c);
        PendingIsDecided(w);
        DrainComes(|w'.calls|, events[1..], c);
      } else {
        UnstartedIsDrained(w', events[1..], c);
      }
    }
  }

  /** If a `drain_pending_done` comes after every release, as callers are told, and no spawn fails in a
      drain of the queue, then nobody hangs: at rest no call is left parked. */
  lemma NobodyHangs(mode: Mode, cap: int, events: seq<Event>, c: CallId)
    requires ValidRun(Initial(mode, cap), events) && AtRest(After(Initial(mode, cap), events))
    requires ReleasesAreDrained(Initial(mode, cap), events) && DrainsStart(events)
    requires c < |After(Initial(mode, cap), events).calls|
    ensures var phase := After(Initial(mode, cap), events).calls[c].phase; phase.Returned? || phase.Raised?
  {
    var start, w := Initial(mode, cap), After(Initial(mode, cap), events);
    InitialInv(mode, cap);
    RunInv(start, events);
    WhoHangs(mode, cap, events, c);
    if NeverStarted(w, c) {
      UnstartedIsDrained(start, events, c);
    }
    RestIsOver(w, c);
  }

  lemma RestIsOver(w: World, c: CallId)
    requires Inv(w) && AtRest(w) && c < |w.calls| && !w.calls[c].phase.Parked?
    ensures w.calls[c].phase.Returned? || w.calls[c].phase.Raised?
  {
    RestIsSettled(w);
    assert CallOk(w, c);
  }

  // ----- A run that strands a caller without a release -----

  /** Task 0 runs and call 1 is accepted behind it. */
  function BusyWorld(): World {
    World(Queued, 10, Some(0), [1], 0, 0, Free, [],
          [Task(0, false, false, true, true)],
          [Call(Parked(Ran), Unresolved), Call(Parked(QueuedAccepted), Unresolved)], {0, 1},
          [0], [Entry(0, Started(0)), Entry(1, Accepted)], [])
  }

  /** Task 0 has ended, call 1 failed to start: nothing runs, nothing is pending, call 1 waits. */
  function StrandedWorld(): World {
    World(Queued, 10, None, [], 0, 0, Free, [],
          [Task(0, true, false, false, false)],
          [Call(Returned(Ran), ByCallback(0)), Call(Parked(QueuedAccepted), Unresolved)], {1},
          [0, 1], [Entry(0, Started(0)), Entry(1, Accepted)], [Entry(1, FailedToStart)])
  }

  lemma StepBack(w: World, e: Event, rest: seq<Event>)
    requires Enabled(w, e) && ValidRun(Next(w, e), rest)
    ensures ValidRun(w, [e] + rest) && After(w, [e] + rest) == After(Next(w, e), rest)
  {
    assert ([e] + rest)[1..] == rest;
  }

  lemma BecomesBusy(rest: seq<Event>)
    requires ValidRun(BusyWorld(), rest)
    ensures var events := [Arrive] + ([Grant(false)] + ([Arrive] + ([Grant(false)] + rest)));
            ValidRun(Initial(Queued, 10), events) && After(Initial(Queued, 10), events) == After(BusyWorld(), rest)
  {
    var w1 := Next(Initial(Queued, 10), Arrive);
    var w2 := Next(w1, Grant(false));
    var w3 := Next(w2, Arrive);
    assert Next(w3, Grant(false)) == BusyWorld();
    StepBack(w3, Grant(false), rest);
    StepBack(w2, Arrive, [Grant(false)] + rest);
    StepBack(w1, Grant(false), [Arrive] + ([Grant(false)] + rest));
    StepBack(Initial(Queued, 10), Arrive, [Grant(false)] + ([Arrive] + ([Grant(false)] + rest)));
  }

  lemma BecomesStranded()
    ensures var events := [Finish(0)] + ([DeliverResolve(0)] + ([WakeCaller(0)] + ([DeliverDrain(0, {1})] + [])));
            ValidRun(BusyWorld(), events) && After(BusyWorld(), events) == StrandedWorld()
  {
    var w1 := Next(BusyWorld(), Finish(0));
    var w2 := Next(w1, DeliverResolve(0));
    var w3 := Next(w2, WakeCaller(0));
    var drain := DeliverDrain(0, {1});
    var w4 := w3.(tasks := [Task(0, true, false, false, false)], current := None);
    assert w3.tasks[0 := w3.tasks[0].(drainDue := false)] == w4.tasks;
    assert Next(w3, drain) == StartFromQueue(w4, {1});
    assert FailHead(w4).pending == [];
    assert StartFromQueue(FailHead(w4), {1}) == FailHead(w4);
    assert w4.pending == [1] && w4.pending[0] in {1};
    assert Next(w3, drain) == StrandedWorld();
    StepBack(w3, drain, []);
    StepBack(w2, WakeCaller(0), [drain] + []);
    StepBack(w1, DeliverResolve(0), [WakeCaller(0)] + ([drain] + []));
    StepBack(BusyWorld(), Finish(0), [DeliverResolve(0)] + ([WakeCaller(0)] + ([drain] + [])));
  }

  lemma StrandedIsAtRest()
    ensures AtRest(StrandedWorld())
  {
  }

  /** Call 1 is accepted while task 0 runs, and raises when task 0's callback drains it. The guard is
      then idle, nothing was released or dropped, and call 1 hangs. */
  lemma FailedSpawnStrandsItsCaller()
    ensures var events := [Arrive] + ([Grant(false)] + ([Arrive] + ([Grant(false)] +
                          ([Finish(0)] + ([DeliverResolve(0)] + ([WakeCaller(0)] + ([DeliverDrain(0, {1})] + [])))))));
            ValidRun(Initial(Queued, 10), events) && After(Initial(Queued, 10), events) == StrandedWorld()
    ensures AtRest(StrandedWorld()) && StrandedWorld().calls[1].phase.Parked? && StrandedWorld().dropped == 0
  {
    BecomesStranded();
    BecomesBusy([Finish(0)] + ([DeliverResolve(0)] + ([WakeCaller(0)] + ([DeliverDrain(0, {1})] + []))));
    StrandedIsAtRest();
  }
}
