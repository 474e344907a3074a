/** What the guard decides, in terms of which tasks have ended. The statements are about reachable states
    and say what each decision does and, as much, when it is made. */
module ExecutionDecisions {
  import opened Wrappers
  import opened ExecutionModel
  import opened ExecutionInvariant
  import opened ExecutionTheorems

  /** Some task has not ended. */
  ghost predicate Busy(w: World) { exists t: TaskId :: Unfinished(w, t) }

  lemma BusyIsRunning(w: World)
    requires Inv(w) && w.lock.Free?
    ensures Busy(w) <==> IsRunning(w)
    ensures forall t: TaskId :: Unfinished(w, t) ==> w.current == Some(t)
  {
    forall t: TaskId | Unfinished(w, t)
      ensures w.current == Some(t)
    {
      assert TaskOk(w, t);
    }
    if IsRunning(w) {
      assert Unfinished(w, w.current.value);
    }
  }

  // ----- A trigger gets the lock -----

  /** The factory of `c` is called once more; nothing else of the guard or of its other calls changes but
      what the two predicates below say. */
  ghost predicate CalledFor(w: World, w': World, c: CallId) {
    && w'.called == w.called + [c]
    && w'.pending == w.pending
    && w'.exits == w.exits
    && w'.suppressed == w.suppressed
    && w'.dropped == w.dropped
    && w'.lock.Free?
    && |w'.calls| == |w.calls|
    && (forall d | 0 <= d < |w.calls| && d != c :: w'.calls[d] == w.calls[d])
  }

  /** A new task runs for `c` and is tracked. */
  ghost predicate Runs(w: World, w': World, c: CallId) {
    && CalledFor(w, w', c)
    && w'.tasks == w.tasks + [Task(c, false, false, true, w.mode == Queued)]
    && w'.current == Some(|w.tasks|)
    && w'.verdicts == w.verdicts + [Entry(c, Started(|w.tasks|))]
    && c < |w.calls| && w'.calls[c].phase == Parked(Ran)
  }

  /** The spawn raised: the call is over, the guard as it was. */
  ghost predicate Fails(w: World, w': World, c: CallId) {
    && CalledFor(w, w', c)
    && w'.tasks == w.tasks
    && w'.current == w.current
    && w'.verdicts == w.verdicts + [Entry(c, SpawnRaised)]
    && c < |w.calls| && w'.calls[c].phase == Raised
  }

  /** The trigger is not called now. */
  ghost predicate NotCalled(w: World, w': World, c: CallId) {
    && w'.called == w.called
    && w'.current == w.current
    && w'.exits == w.exits
    && |w'.tasks| == |w.tasks|
    && |w'.calls| == |w.calls|
    && (forall d | 0 <= d < |w.calls| && d != c :: w'.calls[d] == w.calls[d])
  }

  /** The trigger is refused, and counted as `suppressed` or as `dropped`. */
  ghost predicate Refuses(w: World, w': World, c: CallId, suppressed: nat, dropped: nat) {
    && NotCalled(w, w', c)
    && w'.tasks == w.tasks
    && w'.pending == w.pending
    && w'.lock.Free?
    && w'.suppressed == w.suppressed + suppressed
    && w'.dropped == w.dropped + dropped
    && w'.verdicts == w.verdicts + [Entry(c, Refused)]
    && c < |w.calls| && w'.calls[c].phase == Returned(if suppressed > 0 then Suppressed else Dropped)
  }

  /** The trigger joins the queue, behind all others. */
  ghost predicate Joins(w: World, w': World, c: CallId) {
    && NotCalled(w, w', c)
    && w'.tasks == w.tasks
    && w'.pending == w.pending + [c]
    && w'.lock.Free?
    && w'.suppressed == w.suppressed
    && w'.dropped == w.dropped
    && w'.verdicts == w.verdicts + [Entry(c, Accepted)]
    && c < |w.calls| && w'.calls[c].phase == Parked(QueuedAccepted)
  }

  /** The task that has not ended, and no other, is asked to cancel. */
  ghost predicate CancelsUnfinished(w: World, w': World) {
    && |w'.tasks| == |w.tasks|
    && forall t | 0 <= t < |w.tasks| ::
         w'.tasks[t] == if w.tasks[t].finished then w.tasks[t] else w.tasks[t].(cancelRequested := true)
  }

  /** The trigger keeps the lock until the cancelled task has ended. */
  ghost predicate Replaces(w: World, w': World, c: CallId) {
    && NotCalled(w, w', c)
    && CancelsUnfinished(w, w')
    && w'.pending == w.pending
    && w'.suppressed == w.suppressed
    && w'.dropped == w.dropped
    && w'.verdicts == w.verdicts
    && w'.lock.HeldByRestart? && w'.lock.call == c && Unfinished(w, w'.lock.task)
    && c < |w.calls| && w'.calls[c].phase == Replacing
  }

  /** A trigger that gets the lock when every task has ended is run at once, in every mode. Otherwise
      single mode suppresses it, restart mode cancels the task and waits, and queued mode queues it if
      fewer than `cap` are waiting and drops it if not. */
  lemma TriggerGetsItsDue(mode: Mode, cap: int, events: seq<Event>, raises: bool)
    requires ValidRun(Initial(mode, cap), events)
    requires var w := After(Initial(mode, cap), events);
             Enabled(w, Grant(raises)) && w.waiters[0].TriggerWaiter?
    ensures var w := After(Initial(mode, cap), events);
            var w', c := Next(w, Grant(raises)), w.waiters[0].call;
            && (!Busy(w) && !raises ==> Runs(w, w', c))
            && (!Busy(w) && raises ==> Fails(w, w', c))
            && (Busy(w) && mode == Single ==> Refuses(w, w', c, 1, 0))
            && (Busy(w) && mode == Restart ==> Replaces(w, w', c))
            && (Busy(w) && mode == Queued && |w.pending| < cap ==> Joins(w, w', c))
            && (Busy(w) && mode == Queued && |w.pending| >= cap ==> Refuses(w, w', c, 0, 1))
  {
    InitialInv(mode, cap);
    RunInv(Initial(mode, cap), events);
    RunKeepsConfiguration(Initial(mode, cap), events);
    GrantedTrigger(After(Initial(mode, cap), events), raises);
  }

  lemma GrantedTrigger(w: World, raises: bool)
    requires Inv(w) && Enabled(w, Grant(raises)) && w.waiters[0].TriggerWaiter?
    ensures var w', c := Next(w, Grant(raises)), w.waiters[0].call;
            && (!Busy(w) ==> if raises then Fails(w, w', c) else Runs(w, w', c))
            && (Busy(w) ==>
                  match w.mode
                  case Single => Refuses(w, w', c, 1, 0)
                  case Restart => Replaces(w, w', c)
                  case Queued => if |w.pending| < w.cap then Joins(w, w', c) else Refuses(w, w', c, 0, 1))
  {
    BusyIsRunning(w);
    if IsRunning(w) {
      OthersHaveEnded(w);
    }
  }

  lemma OthersHaveEnded(w: World)
    requires Inv(w) && IsRunning(w) && w.lock.Free?
    ensures forall t | 0 <= t < |w.tasks| && t != w.current.value :: w.tasks[t].finished
  {
    forall t | 0 <= t < |w.tasks| && t != w.current.value
      ensures w.tasks[t].finished
    {
      assert TaskOk(w, t);
    }
  }

  /** A trigger that waited for the task it cancelled is run once that has ended. */
  lemma ReplacementRuns(mode: Mode, cap: int, events: seq<Event>, raises: bool)
    requires ValidRun(Initial(mode, cap), events)
    requires var w := After(Initial(mode, cap), events); Enabled(w, Resume(raises)) && w.lock.HeldByRestart?
    ensures var w := After(Initial(mode, cap), events);
            var w', c := Next(w, Resume(raises)), w.lock.call;
            !Busy(w) && w.mode == Restart && if raises then Fails(w, w', c) else Runs(w, w', c)
  {
    InitialInv(mode, cap);
    RunInv(Initial(mode, cap), events);
    ResumedTrigger(After(Initial(mode, cap), events), raises);
  }

  lemma ResumedTrigger(w: World, raises: bool)
    requires Inv(w) && Enabled(w, Resume(raises)) && w.lock.HeldByRestart?
    ensures !Busy(w) && w.mode == Restart
    ensures var w', c := Next(w, Resume(raises)), w.lock.call; if raises then Fails(w, w', c) else Runs(w, w', c)
  {
    forall t: TaskId
      ensures !Unfinished(w, t)
    {
      assert t < |w.tasks| ==> TaskOk(w, t);
    }
  }

  // ----- Refusals over whole runs -----

  /** Whether the guard may say no now: single mode while a task runs, queued mode while one runs and `cap`
      factories wait. */
  ghost predicate MayRefuse(w: World) {
    Busy(w) && (w.mode == Single || (w.mode == Queued && |w.pending| >= w.cap))
  }

  /** The state in which verdict `i` was given allowed a refusal. */
  ghost predicate GivenWhereRefusable(w: World, events: seq<Event>, i: nat)
    requires ValidRun(w, events)
    decreases |events|
  {
    && events != []
    && if |w.verdicts| <= i < |Next(w, events[0]).verdicts| then MayRefuse(w)
       else GivenWhereRefusable(Next(w, events[0]), events[1..], i)
  }

  lemma RefusedNow(w: World, e: Event, i: nat)
    requires Inv(w) && Enabled(w, e)
    requires |w.verdicts| <= i < |Next(w, e).verdicts| && Next(w, e).verdicts[i].kind.Refused?
    ensures MayRefuse(w)
  {
    if e.Grant? && w.waiters[0].TriggerWaiter? {
      GrantedTrigger(w, e.raises);
    } else if e.DeliverDrain? {
      DrainGivesNoVerdict(w, e);
    }
  }

  lemma DrainGivesNoVerdict(w: World, e: Event)
    requires Enabled(w, e) && e.DeliverDrain?
    ensures Next(w, e).verdicts == w.verdicts
  {
    var w' := w.(tasks := w.tasks[e.task := w.tasks[e.task].(drainDue := false)]);
    if w.current == Some(e.task) {
      DrainTriesInTurn(w'.(current := None), e.failing);
    }
  }

  lemma {:induction false} RefusedInRun(w: World, events: seq<Event>, i: nat)
    requires Inv(w) && ValidRun(w, events)
    requires |w.verdicts| <= i < |After(w, events).verdicts| && After(w, events).verdicts[i].kind.Refused?
    ensures GivenWhereRefusable(w, events, i)
    decreases |events|
  {
    var w' := Next(w, events[0]);
    NextInv(w, events[0]);
    RunGrows(w', events[1..]);
    if i < |w'.verdicts| {
      assert w'.verdicts[i] == After(w', events[1..]).verdicts[i];
      RefusedNow(w, events[0], i);
    } else {
      RefusedInRun(w', events[1..], i);
    }
  }

  /** No trigger is ever refused without need: when it was, some task had not ended, and in queued mode the
      queue was full as well. */
  lemma RefusedOnlyWhileBusy(mode: Mode, cap: int, events: seq<Event>, i: nat)
    requires ValidRun(Initial(mode, cap), events)
    requires i < |After(Initial(mode, cap), events).verdicts|
    requires After(Initial(mode, cap), events).verdicts[i].kind.Refused?
    ensures GivenWhereRefusable(Initial(mode, cap), events, i)
  {
    InitialInv(mode, cap);
    RefusedInRun(Initial(mode, cap), events, i);
  }

  /** What a caller is told is what the guard decided about its trigger. */
  lemma OutcomeIsTheVerdict(mode: Mode, cap: int, events: seq<Event>, c: CallId)
    requires ValidRun(Initial(mode, cap), events)
    requires var w := After(Initial(mode, cap), events); c < |w.calls| && w.calls[c].phase.Returned?
    ensures OutcomeAsDecided(After(Initial(mode, cap), events), c)
  {
    InitialInv(mode, cap);
    RunInv(Initial(mode, cap), events);
    ReturnedAsDecided(After(Initial(mode, cap), events), c);
  }

  ghost predicate OutcomeAsDecided(w: World, c: CallId)
    requires c < |w.calls| && w.calls[c].phase.Returned?
  {
    && c < |w.verdicts|
    && w.calls[c].phase.outcome ==
       match w.verdicts[c].kind
       case Started(_) => Ran
       case Accepted => QueuedAccepted
       case _ => if w.mode == Queued then Dropped else Suppressed
  }

  lemma ReturnedAsDecided(w: World, c: CallId)
    requires Inv(w) && c < |w.calls| && w.calls[c].phase.Returned?
    ensures OutcomeAsDecided(w, c)
  {
    assert CallOk(w, c);
  }

  // ----- The drain -----

  ghost function Failures(pending: seq<CallId>): seq<Entry<Exit>> {
    seq(|pending|, i requires 0 <= i < |pending| => Entry(pending[i], FailedToStart))
  }

  /** The first `k` factories failed, each was called, and the next one, if any is left, runs. */
  ghost predicate Drained(w: World, w': World, failing: set<CallId>, k: nat) {
    && k <= |w.pending|
    && (forall i | 0 <= i < k :: w.pending[i] in failing)
    && w'.verdicts == w.verdicts
    && w'.calls == w.calls
    && if k == |w.pending| then
         && w'.pending == [] && w'.current == None && w'.tasks == w.tasks
         && w'.called == w.called + w.pending
         && w'.exits == w.exits + Failures(w.pending)
       else
         && w.pending[k] !in failing
         && w'.pending == w.pending[k + 1..]
         && w'.current == Some(|w.tasks|)
         && w'.tasks == w.tasks + [Task(w.pending[k], false, false, true, true)]
         && w'.called == w.called + w.pending[..k + 1]
         && w'.exits == w.exits + Failures(w.pending[..k]) + [Entry(w.pending[k], StartedFromQueue(|w.tasks|))]
  }

  lemma {:induction false} DrainTriesInTurn(w: World, failing: set<CallId>)
    requires w.current == None
    ensures exists k :: Drained(w, StartFromQueue(w, failing), failing, k)
    decreases |w.pending|
  {
    var w' := StartFromQueue(w, failing);
    if w.pending == [] {
      assert Drained(w, w', failing, 0);
    } else if w.pending[0] !in failing {
      assert Drained(w, w', failing, 0);
    } else {
      DrainTriesInTurn(FailHead(w), failing);
      var k: nat :| Drained(FailHead(w), w', failing, k);
      OneMoreFailed(w, w', failing, k);
    }
  }

  lemma OneMoreFailed(w: World, w': World, failing: set<CallId>, k: nat)
    requires w.pending != [] && w.pending[0] in failing && w.current == None
    requires Drained(FailHead(w), w', failing, k)
    ensures Drained(w, w', failing, k + 1)
  {
    var p, rest := w.pending, w.pending[1..];
    forall i | 0 <= i < k + 1
      ensures p[i] in failing
    {
      assert i > 0 ==> p[i] == rest[i - 1];
    }
    if k == |rest| {
      FirstAndRest(p, w.called, w.exits, |p|);
      assert p[..|p|] == p && rest[..|rest|] == rest;
    } else {
      FirstAndRest(p, w.called, w.exits, k + 1);
      assert w.called + [p[0]] + rest[..k + 1] == w.called + p[..k + 2];
    }
  }

  /** A failed call, and then `n - 1` of the rest, are `n` of all. */
  lemma FirstAndRest(p: seq<CallId>, called: seq<CallId>, exits: seq<Entry<Exit>>, n: nat)
    requires 0 < n <= |p|
    ensures called + [p[0]] + p[1..][..n - 1] == called + p[..n]
    ensures exits + [Entry(p[0], FailedToStart)] + Failures(p[1..][..n - 1]) == exits + Failures(p[..n])
  {
    assert [p[0]] + p[1..][..n - 1] == p[..n];
    assert [Entry(p[0], FailedToStart)] + Failures(p[1..][..n - 1]) == Failures(p[..n]);
  }

  /** The drain callback of the tracked task calls the waiting factories in turn until one starts; each
      whose spawn raises is called and dropped, and none is passed over. */
  lemma DrainTriesEach(w: World, t: TaskId, failing: set<CallId>)
    requires Enabled(w, DeliverDrain(t, failing)) && w.current == Some(t)
    ensures var delivered := w.(tasks := w.tasks[t := w.tasks[t].(drainDue := false)]);
            exists k :: Drained(delivered, Next(w, DeliverDrain(t, failing)), failing, k)
  {
    var delivered := w.(tasks := w.tasks[t := w.tasks[t].(drainDue := false)]);
    DrainTriesInTurn(delivered.(current := None), failing);
    var k: nat :| Drained(delivered.(current := None), Next(w, DeliverDrain(t, failing)), failing, k);
    assert Drained(delivered, Next(w, DeliverDrain(t, failing)), failing, k);
  }

  // ----- Release and cancelling -----

  /** The release has begun: the task that has not ended, if any, is to be cancelled and waited for. */
  ghost predicate Releases(w: World, w': World) {
    && CancelsUnfinished(w, w')
    && w'.pending == [] && w'.current == None && w'.called == w.called
    && (Busy(w) ==> w'.lock.HeldByRelease? && Unfinished(w, w'.lock.task))
    && (!Busy(w) ==> w'.lock.Free?)
  }

  /** A `release` that gets the lock asks the task that has not ended to cancel, and keeps the lock until it
      has; if all have ended it is over at once. */
  lemma ReleaseCancels(mode: Mode, cap: int, events: seq<Event>, raises: bool)
    requires ValidRun(Initial(mode, cap), events)
    requires var w := After(Initial(mode, cap), events);
             Enabled(w, Grant(raises)) && w.waiters[0].ReleaseWaiter?
    ensures Releases(After(Initial(mode, cap), events), Next(After(Initial(mode, cap), events), Grant(raises)))
  {
    InitialInv(mode, cap);
    RunInv(Initial(mode, cap), events);
    GrantedRelease(After(Initial(mode, cap), events), raises);
  }

  lemma GrantedRelease(w: World, raises: bool)
    requires Inv(w) && Enabled(w, Grant(raises)) && w.waiters[0].ReleaseWaiter?
    ensures Releases(w, Next(w, Grant(raises)))
  {
    BusyIsRunning(w);
    if IsRunning(w) {
      OthersHaveEnded(w);
    } else {
      NobodyRuns(w);
    }
  }

  lemma NobodyRuns(w: World)
    requires !Busy(w)
    ensures forall t | 0 <= t < |w.tasks| :: w.tasks[t].finished
  {
    forall t | 0 <= t < |w.tasks|
      ensures w.tasks[t].finished
    {
      assert !Unfinished(w, t);
    }
  }

  ghost predicate CancelHasAReason(w: World, e: Event, t: TaskId)
    requires Enabled(w, e) && t < |w.tasks|
  {
    && t < |Next(w, e).tasks|
    && (Next(w, e).tasks[t].cancelRequested != w.tasks[t].cancelRequested ==>
          && e.Grant? && Unfinished(w, t)
          && (w.waiters[0].ReleaseWaiter? || w.mode == Restart))
  }

  lemma StepCancels(w: World, e: Event, t: TaskId)
    requires Enabled(w, e) && t < |w.tasks|
    ensures CancelHasAReason(w, e, t)
  {
    if e.DeliverDrain? && w.current == Some(e.task) {
      DrainTriesEach(w, e.task, e.failing);
    }
  }

  /** No other step of any run asks a task to cancel. */
  lemma NobodyElseCancels(mode: Mode, cap: int, events: seq<Event>, e: Event, t: TaskId)
    requires ValidRun(Initial(mode, cap), events) && Enabled(After(Initial(mode, cap), events), e)
    requires t < |After(Initial(mode, cap), events).tasks|
    ensures CancelHasAReason(After(Initial(mode, cap), events), e, t)
  {
    StepCancels(After(Initial(mode, cap), events), e, t);
  }

  // ----- Futures -----

  /** A future is resolved once: whatever happens afterwards, who resolved it stays. */
  lemma {:induction false} ResolvedForGood(w: World, events: seq<Event>, c: CallId)
    requires ValidRun(w, events) && c < |w.calls| && !w.calls[c].future.Unresolved?
    ensures c < |After(w, events).calls| && After(w, events).calls[c].future == w.calls[c].future
    decreases |events|
  {
    if events != [] {
      StepKeepsResolution(w, events[0], c);
      ResolvedForGood(Next(w, events[0]), events[1..], c);
    }
  }

  lemma StepKeepsResolution(w: World, e: Event, c: CallId)
    requires Enabled(w, e) && c < |w.calls| && !w.calls[c].future.Unresolved?
    ensures c < |Next(w, e).calls| && Next(w, e).calls[c].future == w.calls[c].future
  {
    if e.DeliverDrain? && w.current == Some(e.task) {
      DrainTriesEach(w, e.task, e.failing);
    }
  }
}
