/** The debounce of `useQueryInvalidator`: a trailing timer that every matching event restarts, and a
    max-wait timer that only the first one starts. Key and delays stay as they are, timers fire at their
    deadline, and times are milliseconds. */
module Debounce {
  import opened Wrappers

  /** What happened, in order: a matching event, or an invalidation. */
  datatype Entry = Matched(at: int) | Fired(at: int)

  datatype Config = Config(delay: nat, maxWait: nat)

  datatype State = State(
    now: int,
    isMount: bool,
    timer: Option<int>,     // the trailing timer's deadline
    maxTimer: Option<int>,  // the max-wait timer's deadline
    history: seq<Entry>)

  function Initial(now: int): State {
    State(now, true, None, None, [])
  }

  datatype Event =
    | Elapse(ms: nat)
    | ValueEffect(matches: bool)  // the effect runs for a new value
    | TimerFires
    | MaxTimerFires

  /** Time does not pass a deadline before its timer has fired. */
  predicate Enabled(s: State, e: Event) {
    match e
    case Elapse(ms) =>
      && (s.timer.Some? ==> s.now + ms <= s.timer.value)
      && (s.maxTimer.Some? ==> s.now + ms <= s.maxTimer.value)
    case ValueEffect(_) => true
    case TimerFires => s.timer == Some(s.now)
    case MaxTimerFires => s.maxTimer == Some(s.now)
  }

  function Next(c: Config, s: State, e: Event): State
    requires Enabled(s, e)
  {
    match e
    case Elapse(ms) => s.(now := s.now + ms)
    case ValueEffect(matches) =>
      if s.isMount then s.(isMount := false)
      else if !matches then s
      else
        s.(timer := Some(s.now + c.delay),
           maxTimer := if s.maxTimer.None? then Some(s.now + c.maxWait) else s.maxTimer,
           history := s.history + [Matched(s.now)])
    case TimerFires => Fire(s)
    case MaxTimerFires => Fire(s)
  }

  function Fire(s: State): State {
    s.(timer := None, maxTimer := None, history := s.history + [Fired(s.now)])
  }

  predicate ValidRun(c: Config, s: State, events: seq<Event>)
    decreases |events|
  {
    events != [] ==> Enabled(s, events[0]) && ValidRun(c, Next(c, s, events[0]), events[1..])
  }

  function After(c: Config, s: State, events: seq<Event>): State
    requires ValidRun(c, s, events)
    decreases |events|
  {
    if events == [] then s else After(c, Next(c, s, events[0]), events[1..])
  }

  // ----- The hook's variables -----

  class QueryInvalidator {
    const config: Config
    var isMountRef: bool
    var timerRef: Option<int>
    var maxTimerRef: Option<int>
    ghost var history: seq<Entry>

    ghost function At(now: int): State
      reads this
    {
      State(now, isMountRef, timerRef, maxTimerRef, history)
    }

    constructor (delay: nat := 500, maxWait: nat := 1500)
      ensures config == Config(delay, maxWait) && forall now :: At(now) == Initial(now)
    {
      config := Config(delay, maxWait);
      isMountRef, timerRef, maxTimerRef, history := true, None, None, [];
    }

    /** The effect on `value`. */
    method OnValue(now: int, matches: bool)
      modifies this
      ensures At(now) == Next(config, old(At(now)), ValueEffect(matches))
    {
      if isMountRef {
        isMountRef := false;
        return;
      }
      if !matches {
        return;
      }
      timerRef := Some(now + config.delay);
      if maxTimerRef.None? {
        maxTimerRef := Some(now + config.maxWait);
      }
      history := history + [Matched(now)];
    }

    /** `fireRef.current`, run by either timer. */
    method OnFire(now: int)
      requires Enabled(At(now), TimerFires) || Enabled(At(now), MaxTimerFires)
      modifies this
      ensures At(now) == Fire(old(At(now)))
    {
      timerRef := None;
      maxTimerRef := None;
      history := history + [Fired(now)];
    }
  }

  // ----- What a history can look like -----

  /** The matching events since the last invalidation. */
  ghost function Pending(h: seq<Entry>): seq<int> {
    if h == [] then []
    else
      match h[|h| - 1]
      case Fired(_) => []
      case Matched(t) => Pending(h[..|h| - 1]) + [t]
  }

  /** Before both deadlines that the pending events set. */
  ghost predicate InTime(c: Config, pending: seq<int>, t: int) {
    pending != [] ==> t <= pending[0] + c.maxWait && t <= pending[|pending| - 1] + c.delay
  }

  /** Time goes forward; nothing happens after a deadline, and an invalidation happens exactly at one. */
  ghost predicate Orderly(c: Config, h: seq<Entry>) {
    h == [] ||
    (var init := h[..|h| - 1];
     var t := h[|h| - 1].at;
     var p := Pending(init);
     && Orderly(c, init)
     && (init != [] ==> init[|init| - 1].at <= t)
     && InTime(c, p, t)
     && (h[|h| - 1].Fired? ==> p != [] && (t == p[0] + c.maxWait || t == p[|p| - 1] + c.delay)))
  }

  ghost predicate Inv(c: Config, s: State) {
    var p := Pending(s.history);
    && Orderly(c, s.history)
    && (s.history != [] ==> s.history[|s.history| - 1].at <= s.now)
    && (s.timer.Some? <==> p != [])
    && (s.maxTimer.Some? <==> p != [])
    && (p != [] ==> s.timer.value == p[|p| - 1] + c.delay && s.maxTimer.value == p[0] + c.maxWait)
    && InTime(c, p, s.now)
  }

  lemma PendingAppend(h: seq<Entry>, e: Entry)
    ensures Pending(h + [e]) == if e.Fired? then [] else Pending(h) + [e.at]
    ensures (h + [e])[..|h|] == h
  {
    assert (h + [e])[..|h|] == h;
  }

  lemma NextInv(c: Config, s: State, e: Event)
    requires Inv(c, s) && Enabled(s, e)
    ensures Inv(c, Next(c, s, e))
  {
    PendingAppend(s.history, Matched(s.now));
    PendingAppend(s.history, Fired(s.now));
  }

  lemma {:induction false} RunInv(c: Config, s: State, events: seq<Event>)
    requires Inv(c, s) && ValidRun(c, s, events)
    ensures Inv(c, After(c, s, events))
    decreases |events|
  {
    if events != [] {
      NextInv(c, s, events[0]);
      RunInv(c, Next(c, s, events[0]), events[1..]);
    }
  }

  // ----- Whole runs -----

  /** Event `i` is answered: an invalidation after it, no later than the deadline. */
  ghost predicate AnsweredBy(h: seq<Entry>, i: nat, deadline: int) {
    exists j :: i < j < |h| && h[j].Fired? && h[j].at <= deadline
  }

  lemma {:induction false} AnsweredOrPending(c: Config, h: seq<Entry>, i: nat)
    requires Orderly(c, h) && i < |h| && h[i].Matched?
    ensures AnsweredBy(h, i, h[i].at + c.maxWait) || (Pending(h) != [] && Pending(h)[0] <= h[i].at)
    decreases |h|
  {
    var n := |h| - 1;
    var init := h[..n];
    if i < n {
      AnsweredOrPending(c, init, i);
      if AnsweredBy(init, i, h[i].at + c.maxWait) {
        var j :| i < j < |init| && init[j].Fired? && init[j].at <= h[i].at + c.maxWait;
        assert h[j] == init[j];
      } else if h[n].Fired? {
        assert h[n].at <= h[i].at + c.maxWait;
      }
    } else if Pending(init) != [] {
      PendingNotAfter(c, init);
    }
  }

  /** Pending events are in the past. */
  lemma {:induction false} PendingNotAfter(c: Config, h: seq<Entry>)
    requires Orderly(c, h) && Pending(h) != []
    ensures h != [] && Pending(h)[0] <= Pending(h)[|Pending(h)| - 1] == h[|h| - 1].at
  {
    var init := h[..|h| - 1];
    if Pending(init) != [] {
      PendingNotAfter(c, init);
    }
  }

  /** Every matching event is followed by an invalidation within the max wait: once that much time has
      passed, there is one, no matter how many further events restarted the trailing timer. */
  lemma WithinMaxWait(c: Config, start: int, events: seq<Event>, i: nat)
    requires ValidRun(c, Initial(start), events)
    requires i < |After(c, Initial(start), events).history| && After(c, Initial(start), events).history[i].Matched?
    ensures var s := After(c, Initial(start), events);
            s.now > s.history[i].at + c.maxWait ==> AnsweredBy(s.history, i, s.history[i].at + c.maxWait)
  {
    RunInv(c, Initial(start), events);
    AnsweredOrPending(c, After(c, Initial(start), events).history, i);
  }

  lemma {:induction false} AnsweredOrLast(c: Config, h: seq<Entry>, i: nat)
    requires Orderly(c, h) && i < |h| && h[i].Matched?
    requires forall j | i < j < |h| && h[j].Matched? :: h[j].at > h[i].at + c.delay
    ensures AnsweredBy(h, i, h[i].at + c.delay) || (Pending(h) != [] && Pending(h)[|Pending(h)| - 1] == h[i].at)
    decreases |h|
  {
    var n := |h| - 1;
    var init := h[..n];
    if i < n {
      AnsweredOrLast(c, init, i);
      if AnsweredBy(init, i, h[i].at + c.delay) {
        var j :| i < j < |init| && init[j].Fired? && init[j].at <= h[i].at + c.delay;
        assert h[j] == init[j];
      }
    }
  }

  /** A matching event with no other one in the delay after it is followed by an invalidation within the
      delay. */
  lemma WithinDelayIfQuiet(c: Config, start: int, events: seq<Event>, i: nat)
    requires ValidRun(c, Initial(start), events)
    requires i < |After(c, Initial(start), events).history| && After(c, Initial(start), events).history[i].Matched?
    requires var h := After(c, Initial(start), events).history;
             forall j | i < j < |h| && h[j].Matched? :: h[j].at > h[i].at + c.delay
    ensures var s := After(c, Initial(start), events);
            s.now > s.history[i].at + c.delay ==> AnsweredBy(s.history, i, s.history[i].at + c.delay)
  {
    RunInv(c, Initial(start), events);
    AnsweredOrLast(c, After(c, Initial(start), events).history, i);
  }

  function Min(a: int, b: int): int { if a < b then a else b }

  /** In a history that goes on after an invalidation at `j` without another, what is pending is what
      came after it. */
  lemma {:induction false} PendingSince(c: Config, h: seq<Entry>, j: nat)
    requires Orderly(c, h) && j < |h| && h[j].Fired? && forall i | j < i < |h| :: h[i].Matched?
    ensures Pending(h) != [] ==> j + 1 < |h| && h[j].at <= Pending(h)[0] && h[j + 1].Matched?
    decreases |h|
  {
    if j < |h| - 1 {
      PendingSince(c, h[..|h| - 1], j);
      if j == |h| - 2 {
        assert Pending(h[..|h| - 1]) == [];
      }
    }
  }

  lemma {:induction false} OrderlyPrefix(c: Config, h: seq<Entry>, n: nat)
    requires Orderly(c, h) && n <= |h|
    ensures Orderly(c, h[..n])
    decreases |h|
  {
    if n < |h| {
      OrderlyPrefix(c, h[..|h| - 1], n);
      assert h[..|h| - 1][..n] == h[..n];
    } else {
      assert h[..n] == h;
    }
  }

  /** Successive invalidations have a matching event between them and are at least the smaller of the two
      delays apart. */
  lemma InvalidationsAreApart(c: Config, start: int, events: seq<Event>, j: nat, k: nat)
    requires ValidRun(c, Initial(start), events)
    requires var h := After(c, Initial(start), events).history;
             j < k < |h| && h[j].Fired? && h[k].Fired? && forall i | j < i < k :: h[i].Matched?
    ensures var h := After(c, Initial(start), events).history;
            && (exists i :: j < i < k && h[i].Matched?)
            && h[k].at - h[j].at >= Min(c.delay, c.maxWait)
  {
    RunInv(c, Initial(start), events);
    var h := After(c, Initial(start), events).history;
    OrderlyPrefix(c, h, k + 1);
    var upTo := h[..k + 1];
    assert upTo[..k] == h[..k] && upTo[k] == h[k];
    OrderlyPrefix(c, h, k);
    PendingSince(c, h[..k], j);
    PendingNotAfter(c, h[..k]);
    assert h[j + 1].Matched?;
  }

  lemma RunStep(c: Config, s: State, e: Event, rest: seq<Event>)
    requires Enabled(s, e) && ValidRun(c, Next(c, s, e), rest)
    ensures ValidRun(c, s, [e] + rest) && After(c, s, [e] + rest) == After(c, Next(c, s, e), rest)
  {
    assert ([e] + rest)[1..] == rest;
  }

  /** The state `m` after a match, once the invalidation has come. */
  function Rounded(s: State, m: nat): State {
    s.(now := s.now + m, history := s.history + [Matched(s.now), Fired(s.now + m)])
  }

  /** One match, the shorter wait, one invalidation. */
  lemma OneRound(c: Config, s: State, rest: seq<Event>) returns (events: seq<Event>)
    requires !s.isMount && s.timer.None? && s.maxTimer.None?
    requires var m := Min(c.delay, c.maxWait);
             ValidRun(c, Rounded(s, m), rest)
    ensures ValidRun(c, s, events)
    ensures After(c, s, events) == After(c, Rounded(s, Min(c.delay, c.maxWait)), rest)
  {
    var m := Min(c.delay, c.maxWait);
    var fires := if c.delay <= c.maxWait then TimerFires else MaxTimerFires;
    var s1 := Next(c, s, ValueEffect(true));
    var s2 := Next(c, s1, Elapse(m));
    assert Next(c, s2, fires) == Rounded(s, m) by {
      assert s.history + [Matched(s.now)] + [Fired(s.now + m)] == s.history + [Matched(s.now), Fired(s.now + m)];
    }
    RunStep(c, s2, fires, rest);
    RunStep(c, s1, Elapse(m), [fires] + rest);
    RunStep(c, s, ValueEffect(true), [Elapse(m)] + ([fires] + rest));
    events := [ValueEffect(true)] + ([Elapse(m)] + ([fires] + rest));
  }

  /** The bound is reached: two invalidations can be just the smaller of the two delays apart, so the
      max wait alone does not cap how often they come. */
  lemma AsCloseAsThat(c: Config, start: int) returns (events: seq<Event>)
    ensures ValidRun(c, Initial(start), events)
    ensures var m := Min(c.delay, c.maxWait);
            After(c, Initial(start), events).history ==
            [Matched(start), Fired(start + m), Matched(start + m), Fired(start + m + m)]
  {
    var m := Min(c.delay, c.maxWait);
    var s1 := Next(c, Initial(start), ValueEffect(true));
    var s2 := s1.(now := start + m, history := [] + [Matched(start), Fired(start + m)]);
    var second := OneRound(c, s2, []);
    var first := OneRound(c, s1, second);
    RunStep(c, Initial(start), ValueEffect(true), first);
    events := [ValueEffect(true)] + first;
  }

  /** In every run from here, successive invalidations are at least `gap` apart. */
  ghost predicate AlwaysApart(c: Config, start: int, gap: int) {
    forall events, j, k ::
      ValidRun(c, Initial(start), events) && Successive(After(c, Initial(start), events).history, j, k) ==>
        var h := After(c, Initial(start), events).history; h[k].at - h[j].at >= gap
  }

  /** Entries `j` and `k` are invalidations with none between them. */
  ghost predicate Successive(h: seq<Entry>, j: int, k: int) {
    0 <= j < k < |h| && h[j].Fired? && h[k].Fired? && forall i | j < i < k :: h[i].Matched?
  }

  /** The max wait caps how often invalidations come exactly if it is not longer than the delay. */
  lemma CapsFrequencyExactly(c: Config, start: int)
    ensures AlwaysApart(c, start, c.maxWait) <==> c.maxWait <= c.delay
  {
    if c.maxWait <= c.delay {
      forall events, j, k | ValidRun(c, Initial(start), events) &&
                            Successive(After(c, Initial(start), events).history, j, k)
        ensures var h := After(c, Initial(start), events).history; h[k].at - h[j].at >= c.maxWait
      {
        InvalidationsAreApart(c, start, events, j, k);
      }
    } else {
      var events := AsCloseAsThat(c, start);
      assert Successive(After(c, Initial(start), events).history, 1, 3);
    }
  }

  lemma FiredAfterMatched(c: Config, h: seq<Entry>)
    requires Orderly(c, h) && h != [] && h[|h| - 1].Fired?
    ensures |h| >= 2 && h[|h| - 2].Matched?
  {
    var init := h[..|h| - 1];
    assert Pending(init) != [];
    assert init[|init| - 1] == h[|h| - 2];
  }

  /** There is no invalidation without a cause: right before each comes a matching event. */
  lemma EachHasItsCause(c: Config, start: int, events: seq<Event>, k: nat)
    requires ValidRun(c, Initial(start), events)
    requires k < |After(c, Initial(start), events).history| && After(c, Initial(start), events).history[k].Fired?
    ensures k > 0 && After(c, Initial(start), events).history[k - 1].Matched?
  {
    RunInv(c, Initial(start), events);
    var h := After(c, Initial(start), events).history;
    OrderlyPrefix(c, h, k + 1);
    FiredAfterMatched(c, h[..k + 1]);
  }

  /** Entry `i` is the first matching event since the invalidation before it, or since the start. */
  ghost predicate StartsAt(h: seq<Entry>, i: int) {
    0 <= i < |h| && (i == 0 || h[i - 1].Fired?) && forall j | i <= j < |h| :: h[j].Matched?
  }

  lemma {:induction false} PendingStarts(h: seq<Entry>) returns (i: int)
    requires Pending(h) != []
    ensures StartsAt(h, i) && Pending(h)[0] == h[i].at
  {
    var n := |h| - 1;
    i := n;
    if Pending(h[..n]) != [] {
      i := PendingStarts(h[..n]);
      assert forall j | i <= j < n :: h[j] == h[..n][j];
    } else if n > 0 {
      assert h[..n][n - 1] == h[n - 1];
    }
  }

  /** An invalidation comes just the delay after the last matching event, or just the max wait after the
      first one since the invalidation before, and at no other time. */
  lemma FiresExactlyWhenDue(c: Config, start: int, events: seq<Event>, k: nat) returns (i: int)
    requires ValidRun(c, Initial(start), events)
    requires k < |After(c, Initial(start), events).history| && After(c, Initial(start), events).history[k].Fired?
    ensures var h := After(c, Initial(start), events).history;
            && StartsAt(h[..k], i)
            && (h[k].at == h[k - 1].at + c.delay || h[k].at == h[i].at + c.maxWait)
  {
    RunInv(c, Initial(start), events);
    var h := After(c, Initial(start), events).history;
    OrderlyPrefix(c, h, k + 1);
    var upTo := h[..k + 1];
    assert upTo[..k] == h[..k] && upTo[k] == h[k];
    i := PendingStarts(h[..k]);
    PendingNotAfter(c, h[..k]);
  }

  /** What the events amount to: every effect run but the first one, which belongs to mounting, counts if
      its value matches; each timer that fires invalidates. */
  ghost function Told(now: int, isMount: bool, events: seq<Event>): seq<Entry>
    decreases |events|
  {
    if events == [] then []
    else
      var rest := events[1..];
      match events[0]
      case Elapse(ms) => Told(now + ms, isMount, rest)
      case ValueEffect(matches) => (if matches && !isMount then [Matched(now)] else []) + Told(now, false, rest)
      case TimerFires => [Fired(now)] + Told(now, isMount, rest)
      case MaxTimerFires => [Fired(now)] + Told(now, isMount, rest)
  }

  lemma {:induction false} RunTold(c: Config, s: State, events: seq<Event>)
    requires ValidRun(c, s, events)
    ensures After(c, s, events).history == s.history + Told(s.now, s.isMount, events)
    decreases |events|
  {
    if events != [] {
      RunTold(c, Next(c, s, events[0]), events[1..]);
    }
  }

  /** The history holds the matching values and the invalidations, when they came, and nothing else. */
  lemma HistoryTells(c: Config, start: int, events: seq<Event>)
    requires ValidRun(c, Initial(start), events)
    ensures After(c, Initial(start), events).history == Told(start, true, events)
  {
    RunTold(c, Initial(start), events);
  }

  /** The two timers are armed together or not at all. */
  lemma BothOrNone(c: Config, start: int, events: seq<Event>)
    requires ValidRun(c, Initial(start), events)
    ensures var s := After(c, Initial(start), events); s.timer.Some? <==> s.maxTimer.Some?
  {
    RunInv(c, Initial(start), events);
  }
}
