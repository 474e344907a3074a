/** What the invariant means for whole runs of the guard. */
module ExecutionTheorems {
  import opened Wrappers
  import opened ExecutionModel
  import opened ExecutionInvariant

  ghost predicate Unfinished(w: World, t: TaskId) {
    t < |w.tasks| && !w.tasks[t].finished
  }

  /** Under every interleaving at most one spawned task is unfinished, and it is the task the guard
      tracks or the one a `release` that holds the lock still waits for. */
  lemma AtMostOneUnfinished(mode: Mode, cap: int, events: seq<Event>, t: TaskId, u: TaskId)
    requires ValidRun(Initial(mode, cap), events)
    ensures var w := After(Initial(mode, cap), events);
            Unfinished(w, t) ==>
              && (w.current == Some(t) || w.lock == HeldByRelease(t))
              && (Unfinished(w, u) ==> u == t)
  {
    InitialInv(mode, cap);
    RunInv(Initial(mode, cap), events);
    var w := After(Initial(mode, cap), events);
    if Unfinished(w, t) {
      assert TaskOk(w, t);
      assert Unfinished(w, u) ==> TaskOk(w, u);
    }
  }

  /** A queue that is not empty always has a tracked task whose drain callback is still to come, and
      is no longer than the cap. */
  lemma NoStrandedQueue(mode: Mode, cap: int, events: seq<Event>)
    requires ValidRun(Initial(mode, cap), events)
    ensures var w := After(Initial(mode, cap), events);
            w.pending != [] ==>
              && |w.pending| <= cap
              && w.mode.Queued?
              && w.current.Some?
              && w.current.value + 1 == |w.tasks|
              && w.tasks[w.current.value].drainDue
  {
    InitialInv(mode, cap);
    RunInv(Initial(mode, cap), events);
    RunKeepsConfiguration(Initial(mode, cap), events);
  }

  // ----- Histories only grow -----

  ghost predicate Grows(w: World, w': World) {
    && w'.mode == w.mode
    && w'.cap == w.cap
    && w.verdicts <= w'.verdicts
    && w.exits <= w'.exits
    && w.called <= w'.called
    && TasksGrow(w, w')
    && (w'.current.Some? ==> w'.current == w.current || w'.current.value >= |w.tasks|)
  }

  lemma {:induction false} StartFromQueueGrows(w: World, failing: set<CallId>)
    requires w.current == None
    ensures Grows(w, StartFromQueue(w, failing))
    decreases |w.pending|
  {
    if w.pending != [] && w.pending[0] in failing {
      StartFromQueueGrows(FailHead(w), failing);
    }
  }

  lemma NextGrows(w: World, e: Event)
    requires Enabled(w, e)
    ensures Grows(w, Next(w, e))
  {
    if e.DeliverDrain? && w.current == Some(e.task) {
      var w' := w.(tasks := w.tasks[e.task := w.tasks[e.task].(drainDue := false)], current := None);
      StartFromQueueGrows(w', e.failing);
    }
  }

  lemma {:induction false} RunGrows(w: World, events: seq<Event>)
    requires ValidRun(w, events)
    ensures Grows(w, After(w, events))
    decreases |events|
  {
    if events != [] {
      NextGrows(w, events[0]);
      RunGrows(Next(w, events[0]), events[1..]);
    }
  }

  lemma RunKeepsConfiguration(w: World, events: seq<Event>)
    requires ValidRun(w, events)
    ensures After(w, events).mode == w.mode && After(w, events).cap == w.cap
  {
    RunGrows(w, events);
  }

  // ----- Conservation -----

  ghost predicate Increasing(s: seq<CallId>) {
    forall i, j | 0 <= i < j < |s| :: s[i] < s[j]
  }

  lemma {:induction false} TimesInIncreasing(s: seq<CallId>, c: CallId)
    requires Increasing(s)
    ensures Times(s, c) == if c in s then 1 else 0
  {
    if s != [] {
      var init := s[..|s| - 1];
      TimesInIncreasing(init, c);
      assert s == init + [s[|s| - 1]];
    }
  }

  lemma {:induction false} SelectIncreasing<K>(entries: seq<Entry<K>>, p: K -> bool)
    requires forall i, j | 0 <= i < j < |entries| :: entries[i].call < entries[j].call
    ensures Increasing(Select(entries, p))
  {
    if entries != [] {
      var init := entries[..|entries| - 1];
      SelectIncreasing(init, p);
      var chosen := Select(init, p);
      forall i | 0 <= i < |chosen|
        ensures chosen[i] < entries[|entries| - 1].call
      {
        SelectMember(init, p, chosen[i]);
      }
    }
  }

  lemma {:induction false} SelectAll(exits: seq<Entry<Exit>>)
    ensures |Select(exits, AnyExit)| == |exits|
    ensures forall i | 0 <= i < |exits| :: Select(exits, AnyExit)[i] == exits[i].call
  {
    if exits != [] {
      var init := exits[..|exits| - 1];
      SelectAll(init);
      assert Select(exits, AnyExit) == Select(init, AnyExit) + [exits[|init|].call];
      forall i | 0 <= i < |exits|
        ensures Select(exits, AnyExit)[i] == exits[i].call
      {
        assert i < |init| ==> init[i] == exits[i];
      }
    }
  }

  /** Verdicts come in arrival order, and factories leave the queue in the order they were accepted. */
  lemma InOrder(w: World)
    requires Inv(w)
    ensures forall i | 0 <= i < |w.verdicts| :: w.verdicts[i].call == i
    ensures forall i, j | 0 <= i < j < |w.exits| :: w.exits[i].call < w.exits[j].call
    ensures Increasing(Select(w.verdicts, IsAccepted))
    ensures Increasing(w.pending)
    ensures forall i, c | 0 <= i < |w.exits| && c in w.pending :: w.exits[i].call < c
  {
    SelectIncreasing(w.verdicts, IsAccepted);
    SelectAll(w.exits);
    var accepted := Select(w.verdicts, IsAccepted);
    assert accepted[|w.exits|..] == w.pending;
    assert forall i | 0 <= i < |w.exits| :: accepted[i] == w.exits[i].call;
  }

  ghost predicate LeftCalled(w: World, c: CallId) {
    exists i :: 0 <= i < |w.exits| && w.exits[i].call == c && !w.exits[i].kind.Discarded?
  }

  /** A factory is called at most once: by its verdict or on leaving the queue. */
  lemma CalledAtMostOnce(w: World, c: CallId)
    requires Inv(w)
    ensures Times(w.called, c) <= 1
    ensures Times(w.called, c) == 1 <==>
            (c < |w.verdicts| && CalledDirectly(w.verdicts[c].kind)) || LeftCalled(w, c)
  {
    InOrder(w);
    var direct, queued := Select(w.verdicts, CalledDirectly), Select(w.exits, CalledFromQueue);
    assert AddUp(w.called, direct, queued, c);
    SelectIncreasing(w.verdicts, CalledDirectly);
    SelectIncreasing(w.exits, CalledFromQueue);
    TimesInIncreasing(direct, c);
    TimesInIncreasing(queued, c);
    SelectMember(w.verdicts, CalledDirectly, c);
    SelectMember(w.exits, CalledFromQueue, c);
    if c in queued {
      SelectMember(w.exits, AnyExit, c);
      assert c in Select(w.verdicts, IsAccepted);
      SelectMember(w.verdicts, IsAccepted, c);
    }
  }

  ghost predicate Conserved(w: World) {
    // each call is decided once, in the order of arrival; the rest wait in that order
    && (forall i | 0 <= i < |w.verdicts| :: w.verdicts[i].call == i)
    && |w.verdicts| <= |w.calls|
    && Holder(w.lock) + TriggerCalls(w.waiters) == Range(|w.verdicts|, |w.calls|)
    // each accepted factory has left the queue or is in it, first in, first out
    && Select(w.verdicts, IsAccepted) == Select(w.exits, AnyExit) + w.pending
    && Increasing(Select(w.verdicts, IsAccepted))
    // a factory is called at most once, and exactly if its verdict or its exit says so
    && (forall c: CallId ::
          && Times(w.called, c) <= 1
          && (Times(w.called, c) == 1 <==>
                (c < |w.verdicts| && CalledDirectly(w.verdicts[c].kind)) || LeftCalled(w, c)))
    // the counters count the refusals
    && w.suppressed == (if w.mode.Single? then |Select(w.verdicts, IsRefused)| else 0)
    && w.dropped == (if w.mode.Queued? then |Select(w.verdicts, IsRefused)| else 0)
  }

  lemma InvConserved(w: World)
    requires Inv(w)
    ensures Conserved(w)
  {
    assert Increasing(Select(w.verdicts, IsAccepted)) by { InOrder(w); }
    forall c: CallId
      ensures Times(w.called, c) <= 1
      ensures Times(w.called, c) == 1 <==>
              (c < |w.verdicts| && CalledDirectly(w.verdicts[c].kind)) || LeftCalled(w, c)
    {
      CalledAtMostOnce(w, c);
    }
  }

  /** No trigger is lost, doubled or overtaken, in any run. */
  lemma Conservation(mode: Mode, cap: int, events: seq<Event>)
    requires ValidRun(Initial(mode, cap), events)
    ensures Conserved(After(Initial(mode, cap), events))
  {
    InitialInv(mode, cap);
    RunInv(Initial(mode, cap), events);
    InvConserved(After(Initial(mode, cap), events));
  }

  // ----- Restart -----

  /** The tracked task, when the latest decided call ran, is that call's task. */
  ghost predicate TracksLatest(w: World) {
    w.mode.Restart? && w.current.Some? && w.verdicts != [] && w.verdicts[|w.verdicts| - 1].kind.Started? ==>
      w.current == Some(w.verdicts[|w.verdicts| - 1].kind.task)
  }

  lemma {:induction false} RunTracksLatest(w: World, events: seq<Event>)
    requires Inv(w) && TracksLatest(w) && ValidRun(w, events)
    ensures TracksLatest(After(w, events))
    decreases |events|
  {
    if events != [] {
      NextInv(w, events[0]);
      NextTracksLatest(w, events[0]);
      RunTracksLatest(Next(w, events[0]), events[1..]);
    }
  }

  lemma NextTracksLatest(w: World, e: Event)
    requires Inv(w) && TracksLatest(w) && Enabled(w, e)
    ensures TracksLatest(Next(w, e))
  {
    if e.DeliverDrain? {
      assert TaskOk(w, e.task);
      StartFromQueueKeepsMode(w, e);
    }
  }

  lemma StartFromQueueKeepsMode(w: World, e: Event)
    requires Enabled(w, e)
    ensures Next(w, e).mode == w.mode
  {
    NextGrows(w, e);
  }

  /** In restart mode the tracked task belongs to the latest trigger that got the lock and ran, and
      every other task has ended. */
  lemma RestartKeepsLatest(cap: int, events: seq<Event>)
    requires ValidRun(Initial(Restart, cap), events)
    ensures var w := After(Initial(Restart, cap), events);
            w.current.Some? && w.verdicts != [] && w.verdicts[|w.verdicts| - 1].kind.Started? ==>
              var t := w.current.value;
              && t < |w.tasks|
              && w.tasks[t].call == |w.verdicts| - 1
              && (forall u | 0 <= u < |w.tasks| && u != t :: w.tasks[u].finished)
  {
    InitialInv(Restart, cap);
    RunInv(Initial(Restart, cap), events);
    RunTracksLatest(Initial(Restart, cap), events);
    RunKeepsConfiguration(Initial(Restart, cap), events);
    var w := After(Initial(Restart, cap), events);
    if w.verdicts != [] {
      assert CallOk(w, |w.verdicts| - 1);
    }
    forall u | 0 <= u < |w.tasks| && w.current.Some? && u != w.current.value
      ensures w.tasks[u].finished
    {
      assert TaskOk(w, u);
    }
  }

  // ----- Release -----

  /** A discarded factory is never called. */
  lemma DiscardedNotCalled(w: World, i: nat)
    requires Inv(w) && i < |w.exits| && w.exits[i].kind.Discarded?
    ensures w.exits[i].call !in w.called
  {
    var c := w.exits[i].call;
    assert !LeftCalled(w, c) by {
      OneExit(w, i);
    }
    assert c < |w.verdicts| && w.verdicts[c].kind.Accepted? by {
      LeftWasAccepted(w, i);
    }
    CalledAtMostOnce(w, c);
    TimesMember(w.called, c);
  }

  /** No factory leaves the queue twice. */
  lemma OneExit(w: World, i: nat)
    requires Inv(w) && i < |w.exits|
    ensures forall j | 0 <= j < |w.exits| && w.exits[j].call == w.exits[i].call :: j == i
  {
    InOrder(w);
  }

  lemma LeftWasAccepted(w: World, i: nat)
    requires Inv(w) && i < |w.exits|
    ensures var c := w.exits[i].call; c < |w.verdicts| && w.verdicts[c].kind.Accepted?
  {
    var c := w.exits[i].call;
    SelectMember(w.exits, AnyExit, c);
    assert c in Select(w.verdicts, IsAccepted);
    SelectMember(w.verdicts, IsAccepted, c);
  }

  lemma {:induction false} TimesMember(s: seq<CallId>, c: CallId)
    ensures c in s <==> Times(s, c) > 0
  {
    if s != [] {
      TimesMember(s[..|s| - 1], c);
      assert s == s[..|s| - 1] + [s[|s| - 1]];
    }
  }

  lemma BeginReleaseDiscards(w: World, c: CallId) returns (i: nat)
    requires c in w.pending
    ensures i < |BeginRelease(w).exits| && BeginRelease(w).exits[i] == Entry(c, Discarded)
  {
    var k :| 0 <= k < |w.pending| && w.pending[k] == c;
    i := |w.exits| + k;
  }

  /** No factory that is pending when `release` takes the lock is called in any later step. */
  lemma ReleaseIsFinal(w: World, raises: bool, events: seq<Event>, c: CallId)
    requires Inv(w) && Enabled(w, Grant(raises)) && w.waiters[0].ReleaseWaiter?
    requires ValidRun(Next(w, Grant(raises)), events)
    requires c in w.pending
    ensures c !in After(Next(w, Grant(raises)), events).called
  {
    var w0 := Next(w, Grant(raises));
    NextInv(w, Grant(raises));
    RunInv(w0, events);
    RunGrows(w0, events);
    var i := BeginReleaseDiscards(w.(waiters := w.waiters[1..]), c);
    DiscardedNotCalled(After(w0, events), i);
  }

  /** The step in which `release` gives the lock back. */
  ghost predicate ReleaseEnds(w: World, e: Event) {
    && Enabled(w, e)
    && Next(w, e).lock.Free?
    && ((e.Grant? && w.waiters[0].ReleaseWaiter?) || (e.Resume? && w.lock.HeldByRelease?))
  }

  /** When `release` gives the lock back nothing is pending, nothing is tracked and every task ever
      spawned has ended. From then on the drain callback of any such task changes nothing but its own
      delivery, after any further events. */
  lemma ReleaseLeavesNothing(w: World, e: Event, events: seq<Event>)
    requires Inv(w) && ReleaseEnds(w, e)
    requires ValidRun(Next(w, e), events)
    ensures var w0 := Next(w, e);
            && w0.pending == []
            && w0.current == None
            && (forall t | 0 <= t < |w0.tasks| :: w0.tasks[t].finished)
    ensures var w0 := Next(w, e);
            var w' := After(w0, events);
            forall t: TaskId, failing | t < |w0.tasks| && Enabled(w', DeliverDrain(t, failing)) ::
              Next(w', DeliverDrain(t, failing)) ==
              w'.(tasks := w'.tasks[t := w'.tasks[t].(drainDue := false)])
  {
    ReleaseEndsEmpty(w, e);
    var w0 := Next(w, e);
    var w' := After(w0, events);
    NeverTrackedAgain(w0, |w0.tasks|, events);
    forall t: TaskId, failing | t < |w0.tasks| && Enabled(w', DeliverDrain(t, failing))
      ensures Next(w', DeliverDrain(t, failing)) == w'.(tasks := w'.tasks[t := w'.tasks[t].(drainDue := false)])
    {
      assert w'.current != Some(t);
    }
  }

  lemma ReleaseEndsEmpty(w: World, e: Event)
    requires Inv(w) && ReleaseEnds(w, e)
    ensures var w0 := Next(w, e);
            && w0.pending == []
            && w0.current == None
            && (forall t | 0 <= t < |w0.tasks| :: w0.tasks[t].finished)
  {
    var w0 := Next(w, e);
    assert w0.pending == [] && w0.current == None by { ReleaseClears(w, e); }
    assert TasksOk(w0) by { NextInv(w, e); }
    OlderAreFinished(w0);
  }

  lemma ReleaseClears(w: World, e: Event)
    requires Inv(w) && ReleaseEnds(w, e)
    ensures Next(w, e).pending == [] && Next(w, e).current == None
  {
  }

  /** Once no task below `n` is tracked, none is again. */
  lemma {:induction false} NeverTrackedAgain(w: World, n: nat, events: seq<Event>)
    requires ValidRun(w, events) && n <= |w.tasks|
    requires w.current.Some? ==> w.current.value >= n
    ensures After(w, events).current.Some? ==> After(w, events).current.value >= n
    decreases |events|
  {
    if events != [] {
      NextGrows(w, events[0]);
      NeverTrackedAgain(Next(w, events[0]), n, events[1..]);
    }
  }
}
