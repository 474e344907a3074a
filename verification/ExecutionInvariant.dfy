/** The invariant of the overlap guard and its bridge, kept by every event. */
module ExecutionInvariant {
  import opened Wrappers
  import opened ExecutionModel

  // ----- Reading the histories -----

  /** The calls of the entries whose kind satisfies `p`, in order. */
  ghost function Select<K>(entries: seq<Entry<K>>, p: K -> bool): seq<CallId> {
    if entries == [] then []
    else
      var last := entries[|entries| - 1];
      Select(entries[..|entries| - 1], p) + if p(last.kind) then [last.call] else []
  }

  predicate IsAccepted(v: Verdict) { v.Accepted? }
  predicate IsRefused(v: Verdict) { v.Refused? }
  predicate CalledDirectly(v: Verdict) { v.Started? || v.SpawnRaised? }
  predicate AnyExit(e: Exit) { true }
  predicate CalledFromQueue(e: Exit) { !e.Discarded? }

  lemma {:induction false} SelectConcat<K>(a: seq<Entry<K>>, b: seq<Entry<K>>, p: K -> bool)
    ensures Select(a + b, p) == Select(a, p) + Select(b, p)
  {
    if b == [] {
      assert a + b == a;
    } else {
      SelectConcat(a, b[..|b| - 1], p);
      assert (a + b)[..|a + b| - 1] == a + b[..|b| - 1];
    }
  }

  lemma SelectAppend<K>(a: seq<Entry<K>>, e: Entry<K>, p: K -> bool)
    ensures Select(a + [e], p) == Select(a, p) + if p(e.kind) then [e.call] else []
  {
    assert (a + [e])[..|a|] == a;
  }

  lemma {:induction false} SelectDiscards(pending: seq<CallId>)
    ensures Select(DiscardAll(pending), AnyExit) == pending
    ensures Select(DiscardAll(pending), CalledFromQueue) == []
  {
    if pending != [] {
      var init := pending[..|pending| - 1];
      SelectDiscards(init);
      assert DiscardAll(pending)[..|pending| - 1] == DiscardAll(init);
      assert pending == init + [pending[|pending| - 1]];
    }
  }

  /** How often `c` occurs. */
  ghost function Times(s: seq<CallId>, c: CallId): nat {
    if s == [] then 0 else Times(s[..|s| - 1], c) + if s[|s| - 1] == c then 1 else 0
  }

  lemma TimesAppend(s: seq<CallId>, x: CallId, c: CallId)
    ensures Times(s + [x], c) == Times(s, c) + if x == c then 1 else 0
  {
    assert (s + [x])[..|s|] == s;
  }

  /** The calls of the triggers that queue on the lock, in order. */
  ghost function TriggerCalls(waiters: seq<Waiter>): seq<CallId> {
    if waiters == [] then []
    else (if waiters[0].TriggerWaiter? then [waiters[0].call] else []) + TriggerCalls(waiters[1..])
  }

  lemma {:induction false} TriggerCallsAppend(ws: seq<Waiter>, x: Waiter)
    ensures TriggerCalls(ws + [x]) == TriggerCalls(ws) + if x.TriggerWaiter? then [x.call] else []
  {
    if ws == [] {
      assert ws + [x] == [x];
    } else {
      TriggerCallsAppend(ws[1..], x);
      assert (ws + [x])[1..] == ws[1..] + [x];
    }
  }

  ghost function Range(lo: nat, hi: nat): seq<CallId>
    requires lo <= hi
  {
    seq(hi - lo, i requires 0 <= i => lo + i)
  }

  // ----- The invariant -----

  /** The call that was handed the lock and has no verdict yet. */
  ghost function Holder(lock: Lock): seq<CallId> {
    if lock.HeldByRestart? then [lock.call] else []
  }

  /** The lock is first in, first out: verdicts, then the holder, then the queue, count the calls up. */
  ghost predicate ArrivalOrder(w: World, inHand: seq<CallId>) {
    && (forall i | 0 <= i < |w.verdicts| :: w.verdicts[i].call == i)
    && |w.verdicts| <= |w.calls|
    && inHand + TriggerCalls(w.waiters) == Range(|w.verdicts|, |w.calls|)
  }

  /** A call's phase and future, given what the guard said about it. */
  ghost predicate CallOk(w: World, c: CallId)
    requires c < |w.calls|
  {
    var call := w.calls[c];
    && (call.future.Unresolved? <==> c in w.pendingDone)
    && (call.phase.Returned? ==> !call.future.Unresolved?)
    && (call.future.ByCallback? ==>
          && call.future.task < |w.tasks|
          && w.tasks[call.future.task].finished
          && w.tasks[call.future.task].call == c)
    && if c >= |w.verdicts| then
         && (call.phase.Waiting? || call.phase.Replacing?)
         && !call.future.ByRefusal?
       else
         match w.verdicts[c].kind
         case Started(t) =>
           && (call.phase == Parked(Ran) || call.phase == Returned(Ran))
           && t < |w.tasks|
           && w.tasks[t].call == c
           && !call.future.ByRefusal?
         case SpawnRaised => call.phase == Raised && !call.future.ByRefusal?
         case Accepted =>
           && (call.phase == Parked(QueuedAccepted) || call.phase == Returned(QueuedAccepted))
           && !call.future.ByRefusal?
         case Refused => call.phase == Returned(if w.mode.Queued? then Dropped else Suppressed)
  }

  ghost predicate CallsOk(w: World) {
    && (forall c | 0 <= c < |w.calls| :: CallOk(w, c))
    && (forall c | c in w.pendingDone :: c < |w.calls|)
  }

  ghost predicate TaskOk(w: World, t: TaskId)
    requires t < |w.tasks|
  {
    var task := w.tasks[t];
    && task.call < |w.verdicts| <= |w.calls|
    && (!task.resolveDue ==> task.finished && !w.calls[task.call].future.Unresolved?)
    && (task.drainDue ==> w.mode.Queued?)
    && (!task.finished ==> t == |w.tasks| - 1 && (w.current == Some(t) || w.lock == HeldByRelease(t)))
  }

  /** Only the newest task can be unfinished, and then the guard or `release` has hold of it. */
  ghost predicate TasksOk(w: World) {
    && (forall t | 0 <= t < |w.tasks| :: TaskOk(w, t))
    && (w.current.Some? ==>
          && w.current.value + 1 == |w.tasks|
          && (w.mode.Queued? ==> w.tasks[w.current.value].drainDue))
    && match w.lock
       case Free => true
       case HeldByRestart(_, t) =>
         w.mode.Restart? && w.current == Some(t) && w.tasks[t].cancelRequested
       case HeldByRelease(t) =>
         t + 1 == |w.tasks| && w.current == None && w.pending == [] && w.tasks[t].cancelRequested
  }

  /** What was accepted is what left the queue followed by what is in it. */
  ghost predicate QueueOk(w: World) {
    && Select(w.verdicts, IsAccepted) == Select(w.exits, AnyExit) + w.pending
    && (w.pending != [] ==> |w.pending| <= w.cap)
    && (!w.mode.Queued? ==> w.pending == [] && w.exits == [])
    && (forall i | 0 <= i < |w.exits| && w.exits[i].kind.StartedFromQueue? ::
          w.exits[i].kind.task < |w.tasks| && w.tasks[w.exits[i].kind.task].call == w.exits[i].call)
  }

  /** Every invocation of a factory is accounted for by a verdict or by an exit, and conversely. */
  ghost predicate CalledOk(w: World) {
    forall c: CallId ::
      AddUp(w.called, Select(w.verdicts, CalledDirectly), Select(w.exits, CalledFromQueue), c)
  }

  ghost predicate AddUp(called: seq<CallId>, direct: seq<CallId>, queued: seq<CallId>, c: CallId) {
    Times(called, c) == Times(direct, c) + Times(queued, c)
  }

  ghost predicate CountersOk(w: World) {
    var refused := |Select(w.verdicts, IsRefused)|;
    match w.mode
    case Single => w.suppressed == refused && w.dropped == 0
    case Restart => w.suppressed == 0 && w.dropped == 0 && refused == 0
    case Queued => w.suppressed == 0 && w.dropped == refused
  }

  ghost predicate Core(w: World, inHand: seq<CallId>) {
    ArrivalOrder(w, inHand) && CallsOk(w) && TasksOk(w) && QueueOk(w) && CalledOk(w) && CountersOk(w)
  }

  /** A queue that is not empty hangs on a tracked task, whose drain callback is due by `TasksOk`. */
  ghost predicate NotStranded(w: World) {
    w.pending != [] ==> w.current.Some?
  }

  ghost predicate Inv(w: World) {
    Core(w, Holder(w.lock)) && NotStranded(w)
  }

  // ----- Every event keeps it -----

  lemma InitialInv(mode: Mode, cap: int)
    ensures Inv(Initial(mode, cap))
  {
  }

  /** A trigger just taken from the queue is the next one to be decided. */
  lemma InHandIsNext(w: World, c: CallId)
    requires ArrivalOrder(w, [c])
    ensures c == |w.verdicts| < |w.calls|
    ensures TriggerCalls(w.waiters) == Range(|w.verdicts| + 1, |w.calls|)
  {
    var all := [c] + TriggerCalls(w.waiters);
    assert all[0] == c;
    assert all[1..] == TriggerCalls(w.waiters);
  }

  /** Tasks are only added, and stay finished. */
  ghost predicate TasksGrow(w: World, w': World) {
    && |w.tasks| <= |w'.tasks|
    && (forall t | 0 <= t < |w.tasks| ::
          w'.tasks[t].call == w.tasks[t].call && (w.tasks[t].finished ==> w'.tasks[t].finished))
  }

  /** Calls outside `changed` look the same to the guard and to the bridge. */
  ghost predicate CallsSame(w: World, w': World, changed: set<CallId>) {
    && w'.mode == w.mode
    && |w.calls| <= |w'.calls|
    && (forall c | 0 <= c < |w.calls| && c !in changed ::
          && w'.calls[c] == w.calls[c]
          && (c in w'.pendingDone <==> c in w.pendingDone)
          && (c < |w.verdicts| <==> c < |w'.verdicts|)
          && (c < |w.verdicts| ==> w'.verdicts[c] == w.verdicts[c]))
    && (forall c | |w.calls| <= c < |w'.calls| :: c in changed)
    && (forall c | c in w'.pendingDone :: c < |w'.calls|)
  }

  lemma CallsKept(w: World, w': World, changed: set<CallId>)
    requires CallsOk(w) && TasksGrow(w, w') && CallsSame(w, w', changed)
    requires forall c | c in changed && c < |w'.calls| :: CallOk(w', c)
    ensures CallsOk(w')
  {
    forall c | 0 <= c < |w'.calls|
      ensures CallOk(w', c)
    {
      assert c !in changed ==> CallOk(w, c);
    }
  }

  /** Tasks outside `changed` are as they were, and no future of theirs became unresolved. */
  ghost predicate TasksSame(w: World, w': World, changed: set<TaskId>) {
    && w'.mode == w.mode
    && |w.verdicts| <= |w'.verdicts| <= |w'.calls|
    && |w.verdicts| <= |w.calls| <= |w'.calls|
    && |w.tasks| <= |w'.tasks|
    && (forall t | 0 <= t < |w.tasks| && t !in changed :: w'.tasks[t] == w.tasks[t] && w.tasks[t].finished)
    && (forall t | |w.tasks| <= t < |w'.tasks| :: t in changed)
    && (forall c | 0 <= c < |w.calls| && !w.calls[c].future.Unresolved? :: !w'.calls[c].future.Unresolved?)
  }

  lemma TasksKept(w: World, w': World, changed: set<TaskId>)
    requires forall t | 0 <= t < |w.tasks| :: TaskOk(w, t)
    requires TasksSame(w, w', changed)
    requires forall t | t in changed && t < |w'.tasks| :: TaskOk(w', t)
    ensures forall t | 0 <= t < |w'.tasks| :: TaskOk(w', t)
  {
    forall t | 0 <= t < |w'.tasks|
      ensures TaskOk(w', t)
    {
      assert t !in changed ==> TaskOk(w, t);
    }
  }

  /** The newest task, if any: the only one that can be unfinished. */
  ghost function Newest(w: World): set<TaskId> {
    if |w.tasks| == 0 then {} else {|w.tasks| - 1}
  }

  lemma OlderAreFinished(w: World)
    requires TasksOk(w)
    ensures forall t | 0 <= t < |w.tasks| && t !in Newest(w) :: w.tasks[t].finished
    ensures forall t | t in Newest(w) :: TaskOk(w, t)
    ensures !IsRunning(w) && !w.lock.HeldByRelease? ==> forall t | 0 <= t < |w.tasks| :: w.tasks[t].finished
  {
    forall t | 0 <= t < |w.tasks|
      ensures t !in Newest(w) ==> w.tasks[t].finished
      ensures !IsRunning(w) && !w.lock.HeldByRelease? ==> w.tasks[t].finished
    {
      assert TaskOk(w, t);
    }
  }

  ghost predicate HistoryOk(w: World) {
    QueueOk(w) && CalledOk(w) && CountersOk(w)
  }

  /** The histories after one more verdict. */
  lemma DecisionHistory(w: World, w': World, v: Entry<Verdict>)
    requires HistoryOk(w) && TasksGrow(w, w') && w'.mode == w.mode && w'.cap == w.cap
    requires w'.verdicts == w.verdicts + [v] && w'.exits == w.exits
    requires w'.called == w.called + if CalledDirectly(v.kind) then [v.call] else []
    requires w'.pending == w.pending + if v.kind.Accepted? then [v.call] else []
    requires v.kind.Accepted? ==> w.mode.Queued? && |w.pending| < w.cap
    requires v.kind.Refused? ==> !w.mode.Restart?
    requires w'.suppressed == w.suppressed + if v.kind.Refused? && w.mode.Single? then 1 else 0
    requires w'.dropped == w.dropped + if v.kind.Refused? && w.mode.Queued? then 1 else 0
    ensures HistoryOk(w')
  {
    assert QueueOk(w') by {
      SelectAppend(w.verdicts, v, IsAccepted);
      assert Select(w'.verdicts, IsAccepted) == Select(w'.exits, AnyExit) + w'.pending;
    }
    assert CalledOk(w') by {
      DecisionCalls(w, w', v);
    }
    assert CountersOk(w') by {
      SelectAppend(w.verdicts, v, IsRefused);
    }
  }

  lemma DecisionCalls(w: World, w': World, v: Entry<Verdict>)
    requires CalledOk(w) && w'.verdicts == w.verdicts + [v] && w'.exits == w.exits
    requires w'.called == w.called + if CalledDirectly(v.kind) then [v.call] else []
    ensures CalledOk(w')
  {
    var direct, queued := Select(w.verdicts, CalledDirectly), Select(w.exits, CalledFromQueue);
    SelectAppend(w.verdicts, v, CalledDirectly);
    if CalledDirectly(v.kind) {
      forall c: CallId
        ensures AddUp(w'.called, direct + [v.call], queued, c)
      {
        assert AddUp(w.called, direct, queued, c);
        TimesAppend(w.called, v.call, c);
        TimesAppend(direct, v.call, c);
      }
    } else {
      assert w'.called == w.called && Select(w'.verdicts, CalledDirectly) == direct;
    }
  }

  /** The queue after its head was called. */
  lemma ExitQueue(w: World, w': World, e: Entry<Exit>)
    requires QueueOk(w) && TasksGrow(w, w') && w'.mode == w.mode && w'.cap == w.cap
    requires w.pending != [] && e.call == w.pending[0]
    requires e.kind.StartedFromQueue? ==> e.kind.task < |w'.tasks| && w'.tasks[e.kind.task].call == e.call
    requires w'.verdicts == w.verdicts && w'.exits == w.exits + [e] && w'.pending == w.pending[1..]
    ensures QueueOk(w')
  {
    SelectAppend(w.exits, e, AnyExit);
    assert Select(w'.exits, AnyExit) + w'.pending == Select(w.exits, AnyExit) + w.pending;
  }

  /** The calls after the head of the queue was called. */
  lemma ExitCalls(w: World, w': World, e: Entry<Exit>)
    requires CalledOk(w) && !e.kind.Discarded?
    requires w'.verdicts == w.verdicts && w'.exits == w.exits + [e] && w'.called == w.called + [e.call]
    ensures CalledOk(w')
  {
    var direct, queued := Select(w.verdicts, CalledDirectly), Select(w.exits, CalledFromQueue);
    SelectAppend(w.exits, e, CalledFromQueue);
    forall c: CallId
      ensures AddUp(w'.called, direct, queued + [e.call], c)
    {
      assert AddUp(w.called, direct, queued, c);
      TimesAppend(w.called, e.call, c);
      TimesAppend(queued, e.call, c);
    }
  }

  lemma ReleaseHistory(w: World)
    requires HistoryOk(w)
    ensures HistoryOk(BeginRelease(w))
  {
    var w' := BeginRelease(w);
    assert QueueOk(w') by {
      SelectConcat(w.exits, DiscardAll(w.pending), AnyExit);
      SelectDiscards(w.pending);
      assert Select(w'.exits, AnyExit) + w'.pending == Select(w.exits, AnyExit) + w.pending;
      ReleaseKeepsStarted(w);
    }
    assert CalledOk(w') by {
      SelectConcat(w.exits, DiscardAll(w.pending), CalledFromQueue);
      SelectDiscards(w.pending);
      assert Select(w'.exits, CalledFromQueue) == Select(w.exits, CalledFromQueue);
    }
    assert CountersOk(w');
  }

  lemma ReleaseKeepsStarted(w: World)
    requires QueueOk(w)
    ensures var w' := BeginRelease(w);
            forall i | 0 <= i < |w'.exits| && w'.exits[i].kind.StartedFromQueue? ::
              w'.exits[i].kind.task < |w'.tasks| && w'.tasks[w'.exits[i].kind.task].call == w'.exits[i].call
  {
    var w' := BeginRelease(w);
    forall i | 0 <= i < |w'.exits| && w'.exits[i].kind.StartedFromQueue?
      ensures w'.exits[i].kind.task < |w'.tasks| && w'.tasks[w'.exits[i].kind.task].call == w'.exits[i].call
    {
      assert i < |w.exits| && w'.exits[i] == w.exits[i];
    }
  }

  lemma StartDirectlyCalls(w: World, c: CallId, raises: bool)
    requires Core(w, [c]) && c == |w.verdicts| < |w.calls|
    ensures CallsOk(StartDirectly(w, c, raises))
  {
    var w' := StartDirectly(w, c, raises);
    assert CallOk(w, c);
    assert CallOk(w', c);
    CallsKept(w, w', {c});
  }

  lemma StartDirectlyTasks(w: World, c: CallId, raises: bool)
    requires Core(w, [c]) && c == |w.verdicts| < |w.calls| && w.lock.Free? && !IsRunning(w)
    ensures TasksOk(StartDirectly(w, c, raises))
  {
    OlderAreFinished(w);
    TasksKept(w, StartDirectly(w, c, raises), {|w.tasks|});
  }

  lemma StartDirectlyInv(w: World, c: CallId, raises: bool)
    requires Core(w, [c]) && NotStranded(w) && w.lock.Free? && !IsRunning(w)
    ensures c < |w.calls|
    ensures Inv(StartDirectly(w, c, raises))
  {
    InHandIsNext(w, c);
    var w' := StartDirectly(w, c, raises);
    assert HistoryOk(w') by { DecisionHistory(w, w', w'.verdicts[|w.verdicts|]); }
    StartDirectlyCalls(w, c, raises);
    StartDirectlyTasks(w, c, raises);
  }

  lemma RefuseCalls(w: World, c: CallId, outcome: Outcome)
    requires Core(w, [c]) && c == |w.verdicts| < |w.calls|
    requires (w.mode.Single? && outcome == Suppressed) || (w.mode.Queued? && outcome == Dropped)
    ensures CallsOk(Refuse(w, c, outcome))
  {
    var w' := Refuse(w, c, outcome);
    assert CallOk(w, c);
    assert CallOk(w', c);
    CallsKept(w, w', {c});
  }

  lemma RefuseInv(w: World, c: CallId, outcome: Outcome)
    requires Core(w, [c]) && NotStranded(w) && w.lock.Free?
    requires (w.mode.Single? && outcome == Suppressed) || (w.mode.Queued? && outcome == Dropped)
    ensures c < |w.calls|
    ensures Inv(Refuse(w, c, outcome))
  {
    InHandIsNext(w, c);
    var w' := Refuse(w, c, outcome);
    assert HistoryOk(w') by { DecisionHistory(w, w', Entry(c, Refused)); }
    RefuseCalls(w, c, outcome);
    assert TasksOk(w') by {
      OlderAreFinished(w);
      TasksKept(w, w', Newest(w));
    }
  }

  lemma AcceptInv(w: World, c: CallId, raises: bool)
    requires Core(w, [c]) && NotStranded(w) && w.lock.Free? && w.mode.Queued? && IsRunning(w) && |w.pending| < w.cap
    ensures c < |w.calls|
    ensures Inv(Decide(w, c, raises))
  {
    InHandIsNext(w, c);
    var w' := Decide(w, c, raises);
    assert HistoryOk(w') by { DecisionHistory(w, w', Entry(c, Accepted)); }
    assert CallsOk(w') by {
      assert CallOk(w, c);
      assert CallOk(w', c);
      CallsKept(w, w', {c});
    }
    assert TasksOk(w') by {
      OlderAreFinished(w);
      TasksKept(w, w', Newest(w));
    }
  }

  lemma CancelAndWaitInv(w: World, c: CallId, raises: bool)
    requires Core(w, [c]) && NotStranded(w) && w.lock.Free? && w.mode.Restart? && IsRunning(w)
    ensures c < |w.calls|
    ensures Inv(Decide(w, c, raises))
  {
    InHandIsNext(w, c);
    var w' := Decide(w, c, raises);
    assert CallsOk(w') by {
      assert CallOk(w, c);
      assert CallOk(w', c);
      CallsKept(w, w', {c});
    }
    assert TasksOk(w') by {
      OlderAreFinished(w);
      TasksKept(w, w', Newest(w));
    }
  }

  lemma DecideInv(w: World, c: CallId, raises: bool)
    requires Core(w, [c]) && NotStranded(w) && w.lock.Free?
    ensures c < |w.calls|
    ensures Inv(Decide(w, c, raises))
  {
    InHandIsNext(w, c);
    if !IsRunning(w) {
      StartDirectlyInv(w, c, raises);
    } else if w.mode.Restart? {
      CancelAndWaitInv(w, c, raises);
    } else if w.mode.Single? {
      RefuseInv(w, c, Suppressed);
    } else if |w.pending| >= w.cap {
      RefuseInv(w, c, Dropped);
    } else {
      AcceptInv(w, c, raises);
    }
  }

  lemma BeginReleaseInv(w: World)
    requires Inv(w) && w.lock.Free?
    ensures Inv(BeginRelease(w))
  {
    ReleaseHistory(w);
    var w' := BeginRelease(w);
    assert CallsOk(w') by { CallsKept(w, w', {}); }
    assert TasksOk(w') by {
      OlderAreFinished(w);
      TasksKept(w, w', Newest(w));
    }
  }

  lemma ArrivalCalls(w: World)
    requires Inv(w)
    ensures CallsOk(Arrival(w))
  {
    var w' := Arrival(w);
    assert CallOk(w', |w.calls|);
    CallsKept(w, w', {|w.calls|});
  }

  lemma ArrivalTasks(w: World)
    requires Inv(w)
    ensures TasksOk(Arrival(w))
  {
    OlderAreFinished(w);
    TasksKept(w, Arrival(w), Newest(w));
  }

  lemma ArrivalInv(w: World)
    requires Inv(w)
    ensures Inv(Arrival(w))
  {
    var w' := Arrival(w);
    ArrivalCalls(w);
    ArrivalTasks(w);
    assert ArrivalOrder(w', Holder(w'.lock)) by {
      TriggerCallsAppend(w.waiters, TriggerWaiter(|w.calls|));
      assert Range(|w'.verdicts|, |w'.calls|) == Range(|w.verdicts|, |w.calls|) + [|w.calls|];
    }
  }

  /** Popping a waiter, or queueing a `release`, touches nothing but the lock's queue. */
  lemma OnlyWaitersChanged(w: World, w': World)
    requires CallsOk(w) && TasksOk(w) && |w.verdicts| <= |w.calls|
    requires w' == w.(waiters := w'.waiters)
    ensures CallsOk(w') && TasksOk(w')
  {
    assert CallsOk(w') by { CallsKept(w, w', {}); }
    assert TasksOk(w') by {
      OlderAreFinished(w);
      TasksKept(w, w', Newest(w));
    }
  }

  lemma CallReleaseInv(w: World)
    requires Inv(w)
    ensures Inv(Next(w, CallRelease))
  {
    TriggerCallsAppend(w.waiters, ReleaseWaiter);
    OnlyWaitersChanged(w, Next(w, CallRelease));
  }

  lemma GrantInv(w: World, raises: bool)
    requires Inv(w) && Enabled(w, Grant(raises))
    ensures Inv(Next(w, Grant(raises)))
  {
    var w' := w.(waiters := w.waiters[1..]);
    OnlyWaitersChanged(w, w');
    if w.waiters[0].TriggerWaiter? {
      var c := w.waiters[0].call;
      assert [c] + TriggerCalls(w'.waiters) == TriggerCalls(w.waiters);
      DecideInv(w', c, raises);
    } else {
      assert TriggerCalls(w'.waiters) == TriggerCalls(w.waiters);
      BeginReleaseInv(w');
    }
  }

  lemma FreedLock(w: World)
    requires Inv(w) && !w.lock.Free? && w.lock.task < |w.tasks| && w.tasks[w.lock.task].finished
    ensures CallsOk(w.(lock := Free)) && TasksOk(w.(lock := Free))
  {
    var w' := w.(lock := Free);
    assert CallsOk(w') by { CallsKept(w, w', {}); }
    assert TasksOk(w') by {
      OlderAreFinished(w);
      TasksKept(w, w', Newest(w));
    }
  }

  lemma FailHeadCore(w: World)
    requires Core(w, Holder(w.lock)) && w.current == None && w.pending != [] && !w.lock.HeldByRelease?
    ensures Core(FailHead(w), Holder(w.lock))
  {
    var w' := FailHead(w);
    assert QueueOk(w') by { ExitQueue(w, w', Entry(w.pending[0], FailedToStart)); }
    assert CalledOk(w') by { ExitCalls(w, w', Entry(w.pending[0], FailedToStart)); }
    assert CallsOk(w') by { CallsKept(w, w', {}); }
    assert TasksOk(w') by {
      OlderAreFinished(w);
      TasksKept(w, w', {});
    }
  }

  lemma StartHeadInv(w: World)
    requires Core(w, Holder(w.lock)) && w.current == None && w.pending != [] && !w.lock.HeldByRelease?
    ensures Inv(StartHead(w))
  {
    var w' := StartHead(w);
    assert QueueOk(w') by { ExitQueue(w, w', Entry(w.pending[0], StartedFromQueue(|w.tasks|))); }
    assert CalledOk(w') by { ExitCalls(w, w', Entry(w.pending[0], StartedFromQueue(|w.tasks|))); }
    assert CallsOk(w') by { CallsKept(w, w', {}); }
    assert TasksOk(w') by {
      PendingIsDecided(w);
      assert w.pending[0] in w.pending;
      OlderAreFinished(w);
      TasksKept(w, w', {|w.tasks|});
    }
  }

  /** What is pending was accepted. */
  lemma PendingIsDecided(w: World)
    requires ArrivalOrder(w, Holder(w.lock)) && QueueOk(w)
    ensures forall c | c in w.pending :: c < |w.verdicts| && w.verdicts[c].kind.Accepted?
  {
    forall c | c in w.pending
      ensures c < |w.verdicts| && w.verdicts[c].kind.Accepted?
    {
      assert c in Select(w.verdicts, IsAccepted);
      SelectMember(w.verdicts, IsAccepted, c);
    }
  }

  lemma {:induction false} SelectMember<K>(entries: seq<Entry<K>>, p: K -> bool, c: CallId)
    ensures c in Select(entries, p) <==> exists i :: 0 <= i < |entries| && entries[i].call == c && p(entries[i].kind)
  {
    if entries != [] {
      var init := entries[..|entries| - 1];
      SelectMember(init, p, c);
      assert forall i | 0 <= i < |init| :: init[i] == entries[i];
    }
  }

  lemma {:induction false} StartFromQueueInv(w: World, failing: set<CallId>)
    requires Core(w, Holder(w.lock)) && w.current == None && !w.lock.HeldByRelease?
    ensures Inv(StartFromQueue(w, failing))
    decreases |w.pending|
  {
    if w.pending != [] {
      if w.pending[0] in failing {
        FailHeadCore(w);
        StartFromQueueInv(FailHead(w), failing);
      } else {
        StartHeadInv(w);
      }
    }
  }

  lemma DrainDelivered(w: World, t: TaskId, current: Option<TaskId>)
    requires Inv(w) && t < |w.tasks| && w.tasks[t].finished && w.tasks[t].drainDue
    requires if w.current == Some(t) then current == None else current == w.current
    ensures Core(w.(tasks := w.tasks[t := w.tasks[t].(drainDue := false)], current := current), Holder(w.lock))
  {
    var w' := w.(tasks := w.tasks[t := w.tasks[t].(drainDue := false)], current := current);
    assert CallsOk(w') by { CallsKept(w, w', {}); }
    assert TasksOk(w') by {
      OlderAreFinished(w);
      assert TaskOk(w, t);
      TasksKept(w, w', {t} + Newest(w));
    }
  }

  lemma DeliverDrainInv(w: World, t: TaskId, failing: set<CallId>)
    requires Inv(w) && Enabled(w, DeliverDrain(t, failing))
    ensures Inv(Next(w, DeliverDrain(t, failing)))
  {
    var w' := w.(tasks := w.tasks[t := w.tasks[t].(drainDue := false)]);
    if w.current == Some(t) {
      DrainDelivered(w, t, None);
      StartFromQueueInv(w'.(current := None), failing);
    } else {
      DrainDelivered(w, t, w.current);
    }
  }

  lemma DeliverResolveCalls(w: World, t: TaskId)
    requires Inv(w) && Enabled(w, DeliverResolve(t))
    ensures CallsOk(Next(w, DeliverResolve(t)))
  {
    ResolvedCallOk(w, t);
    CallsKept(w, Next(w, DeliverResolve(t)), {w.tasks[t].call});
  }

  lemma ResolvedCallOk(w: World, t: TaskId)
    requires Inv(w) && Enabled(w, DeliverResolve(t))
    ensures CallOk(Next(w, DeliverResolve(t)), w.tasks[t].call)
  {
    assert TaskOk(w, t);
    assert CallOk(w, w.tasks[t].call);
  }

  lemma DeliverResolveInv(w: World, t: TaskId)
    requires Inv(w) && Enabled(w, DeliverResolve(t))
    ensures Inv(Next(w, DeliverResolve(t)))
  {
    var w' := Next(w, DeliverResolve(t));
    DeliverResolveCalls(w, t);
    assert TasksOk(w') by {
      OlderAreFinished(w);
      assert TaskOk(w, t);
      assert TaskOk(w', t);
      TasksKept(w, w', {t} + Newest(w));
    }
  }

  lemma FinishTasks(w: World, t: TaskId)
    requires Inv(w) && Enabled(w, Finish(t))
    ensures TasksOk(Next(w, Finish(t)))
  {
    OlderAreFinished(w);
    assert TaskOk(w, t);
    TasksKept(w, Next(w, Finish(t)), {t} + Newest(w));
  }

  lemma FinishInv(w: World, t: TaskId)
    requires Inv(w) && Enabled(w, Finish(t))
    ensures Inv(Next(w, Finish(t)))
  {
    var w' := Next(w, Finish(t));
    assert CallsOk(w') by { CallsKept(w, w', {}); }
    FinishTasks(w, t);
  }

  lemma WakeCallerCalls(w: World, c: CallId)
    requires Inv(w) && Enabled(w, WakeCaller(c))
    ensures CallsOk(Next(w, WakeCaller(c)))
  {
    WokenCallOk(w, c);
    CallsKept(w, Next(w, WakeCaller(c)), {c});
  }

  lemma WokenCallOk(w: World, c: CallId)
    requires Inv(w) && Enabled(w, WakeCaller(c))
    ensures CallOk(Next(w, WakeCaller(c)), c)
  {
    assert CallOk(w, c);
  }

  lemma WakeCallerInv(w: World, c: CallId)
    requires Inv(w) && Enabled(w, WakeCaller(c))
    ensures Inv(Next(w, WakeCaller(c)))
  {
    var w' := Next(w, WakeCaller(c));
    WakeCallerCalls(w, c);
    assert TasksOk(w') by {
      OlderAreFinished(w);
      TasksKept(w, w', Newest(w));
    }
  }

  lemma ResolveAllInv(w: World)
    requires Inv(w)
    ensures Inv(ResolveAll(w))
  {
    var w' := ResolveAll(w);
    OlderAreFinished(w);
    forall c | 0 <= c < |w'.calls|
      ensures CallOk(w', c)
    {
      assert CallOk(w, c);
    }
    TasksKept(w, w', Newest(w));
  }

  lemma NextInv(w: World, e: Event)
    requires Inv(w) && Enabled(w, e)
    ensures Inv(Next(w, e))
  {
    match e
    case Arrive => ArrivalInv(w);
    case CallRelease => CallReleaseInv(w);
    case Grant(raises) => GrantInv(w, raises);
    case Resume(raises) =>
      FreedLock(w);
      if w.lock.HeldByRestart? {
        StartDirectlyInv(w.(lock := Free), w.lock.call, raises);
      }
    case Finish(t) => FinishInv(w, t);
    case DeliverResolve(t) => DeliverResolveInv(w, t);
    case DeliverDrain(t, failing) => DeliverDrainInv(w, t, failing);
    case WakeCaller(c) => WakeCallerInv(w, c);
    case DrainPendingDone => ResolveAllInv(w);
  }

  lemma {:induction false} RunInv(w: World, events: seq<Event>)
    requires Inv(w) && ValidRun(w, events)
    ensures Inv(After(w, events))
    decreases |events|
  {
    if events != [] {
      NextInv(w, events[0]);
      RunInv(Next(w, events[0]), events[1..]);
    }
  }
}
