/** Flushes that overlap. A thread that flushes looks at the batch, reads it, and then puts a new one in its
    place; another thread can come in between. Two threads flush: the listener, and the one that shuts the
    service down, which does not wait for a listener that did not stop in time.

    The batch is a list that records are appended to in place. A thread that has read it still sees what is
    appended, until a new batch is put in its place; what it holds is complete from then on.
 */
module LogOverlap {
  import opened LogPipeline

  datatype Thread = Listener | Elsewhere

  function Other(t: Thread): Thread { if t == Listener then Elsewhere else Listener }

  /** Where a thread is. `late` is a history: the batch was replaced after this thread looked and before it
      read. */
  datatype Phase =
    | Idle
    | Appended                        // the listener goes on to look at the size
    | Looked(late: bool)
    | Holds(late: bool)               // has read the batch, which is still in place
    | HoldsOld(batch: seq<Record>)    // has read the batch, which was replaced since

  datatype Race = Race(p: Pipeline, listener: Phase, elsewhere: Phase)

  function Start(maxsize: int, level: int): Race { Race(Initial(maxsize, level), Idle, Idle) }

  function PhaseOf(w: Race, t: Thread): Phase { if t == Listener then w.listener else w.elsewhere }

  function Enter(w: Race, t: Thread, phase: Phase): Race {
    if t == Listener then w.(listener := phase) else w.(elsewhere := phase)
  }

  datatype Step =
    | Apart(e: Event)                 // of producers, or of the event loop
    | Take                            // the listener takes an item, and appends a record at the level
    | LookAtSize
    | Look(thread: Thread)            // `flush_if_pending`
    | Read(thread: Thread)
    | Replace(thread: Thread, closed: bool)

  predicate Can(w: Race, s: Step) {
    match s
    case Apart(e) => (e.Enqueue? || e.EnqueueSentinel? || e.RunCallback?) && Enabled(w.p, e)
    case Take => w.listener == Idle && Enabled(w.p, Dequeue(false))
    case LookAtSize => w.listener == Appended
    case Look(t) => PhaseOf(w, t) == Idle && (t == Listener ==> !w.p.exited)
    case Read(t) => PhaseOf(w, t).Looked?
    case Replace(t, _) => PhaseOf(w, t).Holds? || PhaseOf(w, t).HoldsOld?
  }

  function Do(w: Race, s: Step): Race
    requires Can(w, s)
  {
    match s
    case Apart(e) => w.(p := Next(w.p, e))
    case Take => TakeItem(w)
    case LookAtSize => w.(listener := if |w.p.batch| >= BATCH_SIZE then Looked(false) else Idle)
    case Look(t) => Enter(w, t, if w.p.batch == [] then Idle else Looked(false))
    case Read(t) => Enter(w, t, Holds(PhaseOf(w, t).late))
    case Replace(t, closed) =>
      var read := if PhaseOf(w, t).Holds? then w.p.batch else PhaseOf(w, t).batch;
      var w' := Enter(w, t, Idle).(p := HandOver(w.p, read, closed));
      Enter(w', Other(t), Replaced(PhaseOf(w, Other(t)), w.p.batch))
  }

  function TakeItem(w: Race): Race
    requires Can(w, Take)
  {
    var item := w.p.queue[0];
    var p := w.p.(queue := w.p.queue[1..], taken := w.p.taken + [item]);
    match item
    case Sentinel => w.(p := p.(exited := true))
    case Entry(r) => if r.level < p.level then w.(p := p) else Race(p.(batch := p.batch + [r]), Appended, w.elsewhere)
  }

  /** What it means for a thread that the other one replaces this batch. */
  function Replaced(phase: Phase, batch: seq<Record>): Phase {
    match phase
    case Looked(_) => Looked(true)
    case Holds(_) => HoldsOld(batch)
    case _ => phase
  }

  predicate ValidSteps(w: Race, steps: seq<Step>)
    decreases |steps|, 0
  {
    steps != [] ==>
      && ValidSteps(w, steps[..|steps| - 1])
      && Can(Run(w, steps[..|steps| - 1]), steps[|steps| - 1])
  }

  function Run(w: Race, steps: seq<Step>): Race
    requires ValidSteps(w, steps)
    decreases |steps|, 1
  {
    if steps == [] then w else Do(Run(w, steps[..|steps| - 1]), steps[|steps| - 1])
  }

  /** The other thread replaced the batch after this one last read it. */
  ghost predicate ReplacedSinceRead(steps: seq<Step>, t: Thread) {
    && steps != []
    && var last := steps[|steps| - 1];
       && last != Read(t)
       && ((last.Replace? && last.thread == Other(t)) || ReplacedSinceRead(steps[..|steps| - 1], t))
  }

  /** Some flush replaces the batch, and another one did so after it had read it. */
  ghost predicate FlushesOverlap(steps: seq<Step>) {
    && steps != []
    && var earlier, last := steps[..|steps| - 1], steps[|steps| - 1];
       FlushesOverlap(earlier) || (last.Replace? && ReplacedSinceRead(earlier, last.thread))
  }

  // ----- A flush or a turn that nobody interrupts -----

  function FlushAfterLook(w: Race, t: Thread, closed: bool): Race {
    if PhaseOf(w, t).Looked? then Do(Do(w, Read(t)), Replace(t, closed)) else w
  }

  /** It is what the pipeline does in one event. */
  lemma UninterruptedFlush(w: Race, t: Thread, closed: bool)
    requires w.listener == w.elsewhere == Idle && Can(w, Look(t))
    ensures FlushAfterLook(Do(w, Look(t)), t, closed) == w.(p := FlushIfPending(w.p, closed))
  {
    assert w == Race(w.p, Idle, Idle);
  }

  lemma UninterruptedTurn(w: Race, closed: bool)
    requires w.listener == w.elsewhere == Idle && Can(w, Take)
    ensures var w' := Do(w, Take);
            var end := if w'.listener == Appended then FlushAfterLook(Do(w', LookAtSize), Listener, closed) else w';
            end == w.(p := Next(w.p, Dequeue(closed)))
  {
    assert w == Race(w.p, Idle, Idle);
  }

  // ----- What holds in every run -----

  ghost predicate HasBatch(flushes: seq<Flush>, batch: seq<Record>) {
    exists i :: 0 <= i < |flushes| && flushes[i].batch == batch
  }

  /** A batch that is not empty was handed over twice. */
  ghost predicate HandedTwice(flushes: seq<Flush>) {
    exists i, j :: 0 <= i < j < |flushes| && flushes[i].batch == flushes[j].batch && flushes[i].batch != []
  }

  predicate Late(phase: Phase) { (phase.Looked? || phase.Holds?) && phase.late }

  ghost predicate PhaseOk(flushes: seq<Flush>, batch: seq<Record>, phase: Phase) {
    match phase
    case Looked(late) => late || batch != []
    case Holds(late) => late || batch != []
    case HoldsOld(b) => b != [] && HasBatch(flushes, b)
    case _ => true
  }

  ghost predicate PhasesOk(w: Race) {
    && PhaseOk(w.p.flushes, w.p.batch, w.listener)
    && PhaseOk(w.p.flushes, w.p.batch, w.elsewhere)
    && !(Late(w.listener) && Late(w.elsewhere))
  }

  ghost predicate BatchIsOk(p: Pipeline) { BatchOk(p.taken, p.level, p.flushes, p.batch) }

  ghost predicate RaceInv(w: Race, overlap: bool) {
    && RestOk(w.p)
    && if overlap then HandedTwice(w.p.flushes) else BatchIsOk(w.p) && PhasesOk(w)
  }

  ghost predicate Follows(w: Race, steps: seq<Step>, t: Thread) {
    && (PhaseOf(w, t).Holds? ==> !ReplacedSinceRead(steps, t))
    && (PhaseOf(w, t).HoldsOld? ==> ReplacedSinceRead(steps, t))
  }

  /** Batches are not changed, only added. */
  ghost predicate BatchesKept(flushes: seq<Flush>, flushes': seq<Flush>) {
    |flushes| <= |flushes'| && forall i | 0 <= i < |flushes| :: flushes'[i].batch == flushes[i].batch
  }

  lemma KeptTwice(flushes: seq<Flush>, flushes': seq<Flush>)
    requires BatchesKept(flushes, flushes') && HandedTwice(flushes)
    ensures HandedTwice(flushes')
  {
    var i, j :| 0 <= i < j < |flushes| && flushes[i].batch == flushes[j].batch && flushes[i].batch != [];
    assert flushes'[i].batch == flushes'[j].batch;
  }

  lemma KeptPhase(flushes: seq<Flush>, flushes': seq<Flush>, batch: seq<Record>, phase: Phase)
    requires BatchesKept(flushes, flushes') && PhaseOk(flushes, batch, phase)
    ensures PhaseOk(flushes', batch, phase)
  {
    if phase.HoldsOld? {
      var i :| 0 <= i < |flushes| && flushes[i].batch == phase.batch;
      assert flushes'[i].batch == phase.batch;
    }
  }

  lemma ApartInv(w: Race, e: Event, overlap: bool)
    requires RaceInv(w, overlap) && Can(w, Apart(e))
    ensures RaceInv(Do(w, Apart(e)), overlap)
  {
    ApartBatches(w.p, e);
    var flushes' := Next(w.p, e).flushes;
    if overlap {
      KeptTwice(w.p.flushes, flushes');
    } else {
      KeptPhase(w.p.flushes, flushes', w.p.batch, w.listener);
      KeptPhase(w.p.flushes, flushes', w.p.batch, w.elsewhere);
    }
  }

  lemma ApartBatches(p: Pipeline, e: Event)
    requires RestOk(p) && Enabled(p, e) && (e.Enqueue? || e.EnqueueSentinel? || e.RunCallback?)
    ensures var p' := Next(p, e);
            && RestOk(p')
            && BatchesKept(p.flushes, p'.flushes)
            && (BatchIsOk(p) ==> BatchIsOk(p'))
  {
    match e
    case Enqueue(r) =>
      OfferQueued(p.offers, p.taken, p.queue, p.queueDrops, r);
      OfferDropped(p.offers, p.taken, p.queue, p.queueDrops, r);
    case EnqueueSentinel => SentinelQueued(p.offers, p.taken, p.queue, p.queueDrops);
    case RunCallback(accepted) => RunCallbackRest(p, accepted);
  }

  lemma TakeInv(w: Race, overlap: bool)
    requires RaceInv(w, overlap) && Can(w, Take)
    ensures RaceInv(Do(w, Take), overlap)
  {
    var w' := Do(w, Take);
    assert RestOk(w'.p) && w'.p.flushes == w.p.flushes by { TakeRest(w); }
    if !overlap {
      assert BatchIsOk(w'.p) by { TakeBatch(w); }
      assert PhasesOk(w') by { TakePhases(w); }
    }
  }

  lemma TakePhases(w: Race)
    requires PhasesOk(w) && Can(w, Take)
    ensures PhasesOk(Do(w, Take))
  {
  }

  lemma TakeBatch(w: Race)
    requires BatchIsOk(w.p) && Can(w, Take)
    ensures BatchIsOk(Do(w, Take).p)
  {
    var p := w.p;
    match p.queue[0]
    case Sentinel => SentinelHandled(p.taken, p.level, p.flushes, p.batch);
    case Entry(r) => RecordHandled(p.taken, p.level, p.flushes, p.batch, r);
  }

  lemma TakeRest(w: Race)
    requires RestOk(w.p) && Can(w, Take)
    ensures RestOk(Do(w, Take).p) && Do(w, Take).p.flushes == w.p.flushes
  {
    var p := w.p;
    var taken := p.taken + [p.queue[0]];
    assert QueueOk(p.offers, taken, p.queue[1..], p.queueDrops) by {
      ItemTaken(p.offers, p.taken, p.queue, p.queueDrops);
    }
    assert ExitOk(taken, p.queue[0].Sentinel?) by { ExitTaken(p.taken, p.queue[0]); }
  }

  lemma ExitTaken(taken: seq<Item>, item: Item)
    requires ExitOk(taken, false)
    ensures ExitOk(taken + [item], item.Sentinel?)
  {
  }

  lemma ReplaceInv(w: Race, t: Thread, closed: bool, overlap: bool)
    requires RaceInv(w, overlap) && Can(w, Replace(t, closed))
    ensures RaceInv(Do(w, Replace(t, closed)), overlap || PhaseOf(w, t).HoldsOld?)
  {
    if overlap || PhaseOf(w, t).HoldsOld? {
      ReplaceTwice(w, t, closed, overlap);
    } else {
      ReplaceInPlace(w, t, closed);
    }
  }

  /** What is handed over was handed over before. */
  lemma ReplaceTwice(w: Race, t: Thread, closed: bool, overlap: bool)
    requires RaceInv(w, overlap) && Can(w, Replace(t, closed)) && (overlap || PhaseOf(w, t).HoldsOld?)
    ensures RaceInv(Do(w, Replace(t, closed)), true)
  {
    var p, phase := w.p, PhaseOf(w, t);
    var read := if phase.Holds? then p.batch else phase.batch;
    var flushes' := HandOver(p, read, closed).flushes;
    HandOverRest(p, read, closed);
    assert flushes'[|p.flushes|].batch == read;
    if overlap {
      KeptTwice(p.flushes, flushes');
    } else {
      var i :| 0 <= i < |p.flushes| && p.flushes[i].batch == read;
      assert flushes'[i].batch == read;
    }
  }

  /** What is handed over is the batch that is replaced. */
  lemma ReplaceInPlace(w: Race, t: Thread, closed: bool)
    requires RaceInv(w, false) && PhaseOf(w, t).Holds?
    ensures RaceInv(Do(w, Replace(t, closed)), false)
  {
    var w' := Do(w, Replace(t, closed));
    assert RestOk(w'.p) && BatchIsOk(w'.p) by {
      assert w'.p == FlushBatch(w.p, closed);
      FlushBatchInv(w.p, closed);
    }
    assert PhasesOk(w') by { ReplacePhases(w, t, closed); }
  }

  lemma ReplacePhases(w: Race, t: Thread, closed: bool)
    requires PhasesOk(w) && PhaseOf(w, t).Holds?
    ensures PhasesOk(Do(w, Replace(t, closed)))
  {
    var flushes' := FlushBatch(w.p, closed).flushes;
    assert flushes'[|w.p.flushes|].batch == w.p.batch;
    ReplacedPhase(w, t, flushes');
  }

  lemma ReplacedPhase(w: Race, t: Thread, flushes': seq<Flush>)
    requires PhasesOk(w) && PhaseOf(w, t).Holds?
    requires BatchesKept(w.p.flushes, flushes') && HasBatch(flushes', w.p.batch)
    ensures PhaseOk(flushes', [], Replaced(PhaseOf(w, Other(t)), w.p.batch))
  {
    KeptPhase(w.p.flushes, flushes', w.p.batch, PhaseOf(w, Other(t)));
  }

  lemma DoInv(w: Race, s: Step, overlap: bool)
    requires RaceInv(w, overlap) && Can(w, s)
    ensures RaceInv(Do(w, s), overlap || (s.Replace? && PhaseOf(w, s.thread).HoldsOld?))
  {
    match s
    case Apart(e) => ApartInv(w, e, overlap);
    case Take => TakeInv(w, overlap);
    case Replace(t, closed) => ReplaceInv(w, t, closed, overlap);
    case _ =>
  }

  lemma DoFollows(w: Race, steps: seq<Step>, s: Step, t: Thread)
    requires Follows(w, steps, t) && Can(w, s)
    ensures Follows(Do(w, s), steps + [s], t)
  {
    assert (steps + [s])[..|steps|] == steps;
  }

  lemma {:induction false} RunRaceInv(maxsize: int, level: int, steps: seq<Step>)
    requires ValidSteps(Start(maxsize, level), steps)
    ensures RaceInv(Run(Start(maxsize, level), steps), FlushesOverlap(steps))
    ensures forall t :: Follows(Run(Start(maxsize, level), steps), steps, t)
  {
    if steps != [] {
      var earlier, s := steps[..|steps| - 1], steps[|steps| - 1];
      var w := Run(Start(maxsize, level), earlier);
      RunRaceInv(maxsize, level, earlier);
      DoInv(w, s, FlushesOverlap(earlier));
      if s.Replace? {
        assert Follows(w, earlier, s.thread);
      }
      forall t
        ensures Follows(Do(w, s), steps, t)
      {
        assert steps == earlier + [s];
        DoFollows(w, earlier, s, t);
      }
    }
  }

  // ----- Whole runs -----

  ghost predicate Distinct(records: seq<Record>) {
    forall i, j | 0 <= i < j < |records| :: records[i] != records[j]
  }

  lemma {:induction false} FlatContains(flushes: seq<Flush>, i: nat, r: Record)
    requires i < |flushes| && r in flushes[i].batch
    ensures r in Flat(flushes)
  {
    if i < |flushes| - 1 {
      FlatContains(flushes[..|flushes| - 1], i, r);
    }
  }

  lemma {:induction false} TwiceIsNotDistinct(flushes: seq<Flush>)
    requires HandedTwice(flushes)
    ensures !Distinct(Flat(flushes))
  {
    var n := |flushes| - 1;
    var init, last := flushes[..n], flushes[n].batch;
    var i, j :| 0 <= i < j < |flushes| && flushes[i].batch == flushes[j].batch && flushes[i].batch != [];
    if j < n {
      assert init[i].batch == init[j].batch;
      TwiceIsNotDistinct(init);
      NotDistinctPrefix(Flat(init), last);
    } else {
      FlatContains(init, i, last[0]);
      var k :| 0 <= k < |Flat(init)| && Flat(init)[k] == last[0];
      assert Flat(flushes)[k] == Flat(flushes)[|Flat(init)|];
    }
  }

  lemma NotDistinctPrefix(records: seq<Record>, more: seq<Record>)
    requires !Distinct(records)
    ensures !Distinct(records + more)
  {
    var i, j :| 0 <= i < j < |records| && records[i] == records[j];
    assert (records + more)[i] == (records + more)[j];
  }

  /** Without an overlap everything is accounted for, in order, at every step of every run. With one, a batch
      is handed over twice; and if the handled records can be told apart, they are no longer those that
      were handed over followed by the batch, now or ever after. */
  lemma AccountedForExactly(maxsize: int, level: int, steps: seq<Step>)
    requires ValidSteps(Start(maxsize, level), steps)
    ensures var p := Run(Start(maxsize, level), steps).p;
            && RestOk(p)
            && (!FlushesOverlap(steps) ==> BatchIsOk(p) && AddsUp(p))
            && (FlushesOverlap(steps) ==> HandedTwice(p.flushes))
            && (Distinct(AtLevel(Records(p.taken), p.level)) ==> (BatchIsOk(p) <==> !FlushesOverlap(steps)))
  {
    RunRaceInv(maxsize, level, steps);
    var p := Run(Start(maxsize, level), steps).p;
    if FlushesOverlap(steps) {
      TwiceIsNotDistinct(p.flushes);
      NotDistinctPrefix(Flat(p.flushes), p.batch);
    } else {
      OkAddsUp(p);
    }
  }

  // ----- A run that repeats one record and loses another -----

  ghost predicate Reaches(start: Race, steps: seq<Step>, w: Race) {
    ValidSteps(start, steps) && Run(start, steps) == w
  }

  lemma OneMore(start: Race, steps: seq<Step>, w: Race, s: Step)
    requires Reaches(start, steps, w) && Can(w, s)
    ensures Reaches(start, steps + [s], Do(w, s))
  {
    assert (steps + [s])[..|steps|] == steps;
  }

  /** One record is in the batch. */
  function OneTaken(level: int, r: Record): Pipeline {
    Pipeline(0, level, [], 0, [r], [], 0, false, [Offer(r, true)], [Entry(r)], [], [])
  }

  /** That batch is in flight, and another record is in the next one. */
  function OneFlushed(level: int, r: Record, next: Record): Pipeline {
    Pipeline(0, level, [], 0, [next], [0], 0, false, [Offer(r, true), Offer(next, true)], [Entry(r), Entry(next)],
             [Flush([r], InFlight)], [])
  }

  lemma BothHold(level: int, r: Record) returns (steps: seq<Step>)
    requires r.level >= level
    ensures Reaches(Start(0, level), steps, Race(OneTaken(level, r), Holds(false), Holds(false)))
  {
    var start, p := Start(0, level), OneTaken(level, r);
    steps := [];
    OneMore(start, steps, start, Apart(Enqueue(r)));
    steps := steps + [Apart(Enqueue(r))];
    OneMore(start, steps, Do(start, Apart(Enqueue(r))), Take);
    steps := steps + [Take];
    OneMore(start, steps, Race(p, Appended, Idle), LookAtSize);
    steps := steps + [LookAtSize];
    OneMore(start, steps, Race(p, Idle, Idle), Look(Elsewhere));
    steps := steps + [Look(Elsewhere)];
    OneMore(start, steps, Race(p, Idle, Looked(false)), Read(Elsewhere));
    steps := steps + [Read(Elsewhere)];
    OneMore(start, steps, Race(p, Idle, Holds(false)), Look(Listener));
    steps := steps + [Look(Listener)];
    OneMore(start, steps, Race(p, Looked(false), Holds(false)), Read(Listener));
    steps := steps + [Read(Listener)];
  }

  lemma OneHoldsOld(level: int, r: Record, next: Record) returns (steps: seq<Step>)
    requires r.level >= level && next.level >= level
    ensures Reaches(Start(0, level), steps, Race(OneFlushed(level, r, next), Idle, HoldsOld([r])))
  {
    var start, both := Start(0, level), Race(OneTaken(level, r), Holds(false), Holds(false));
    steps := BothHold(level, r);
    OneMore(start, steps, both, Replace(Listener, false));
    steps := steps + [Replace(Listener, false)];
    var w := Do(both, Replace(Listener, false));
    OneMore(start, steps, w, Apart(Enqueue(next)));
    steps := steps + [Apart(Enqueue(next))];
    OneMore(start, steps, Do(w, Apart(Enqueue(next))), Take);
    steps := steps + [Take];
    OneMore(start, steps, Race(OneFlushed(level, r, next), Appended, HoldsOld([r])), LookAtSize);
    steps := steps + [LookAtSize];
  }

  /** The shutdown reads the batch that the listener is about to flush, and replaces the next one: `r` is
      handed over twice, and `next`, which was handled, is nowhere. */
  lemma OverlapRepeatsAndLoses(level: int, r: Record, next: Record) returns (steps: seq<Step>)
    requires r.level >= level && next.level >= level
    ensures ValidSteps(Start(0, level), steps)
    ensures var p := Run(Start(0, level), steps).p;
            AtLevel(Records(p.taken), level) == [r, next] && p.batch == [] && Flat(p.flushes) == [r, r]
  {
    var w := Race(OneFlushed(level, r, next), Idle, HoldsOld([r]));
    steps := OneHoldsOld(level, r, next);
    OneMore(Start(0, level), steps, w, Replace(Elsewhere, false));
    steps := steps + [Replace(Elsewhere, false)];
    var f := Flush([r], InFlight);
    assert Do(w, Replace(Elsewhere, false)).p.flushes == [f] + [f];
    FlatAppend([], f);
    FlatAppend([f], f);
    TwoRecords(level, r, next);
  }

  lemma TwoRecords(level: int, r: Record, next: Record)
    requires r.level >= level && next.level >= level
    ensures AtLevel(Records([Entry(r), Entry(next)]), level) == [r, next]
  {
    RecordsAppend([], Entry(r));
    RecordsAppend([Entry(r)], Entry(next));
    AtLevelAppend([], r, level);
    AtLevelAppend([r], next, level);
    assert [Entry(r), Entry(next)] == [Entry(r)] + [Entry(next)];
    assert [] + [Entry(r)] == [Entry(r)] && [] + [r] == [r] && [r] + [next] == [r, next];
  }
}
