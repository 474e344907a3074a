/** The log pipeline in terms of what came from outside: which records were refused, what the database
    answered, and when the event loop was closed. */
module LogSettlement {
  import opened LogPipeline

  // ----- Refused records -----

  /** A bounded queue never holds more than it may. */
  lemma QueueIsBounded(maxsize: int, level: int, events: seq<Event>)
    requires maxsize > 0 && ValidRun(Initial(maxsize, level), events)
    ensures |After(Initial(maxsize, level), events).queue| <= maxsize
  {
    StaysWithin(Initial(maxsize, level), events);
  }

  lemma {:induction false} StaysWithin(p: Pipeline, events: seq<Event>)
    requires ValidRun(p, events) && p.maxsize > 0 && |p.queue| <= p.maxsize
    ensures |After(p, events).queue| <= p.maxsize == After(p, events).maxsize
    decreases |events|
  {
    if events != [] {
      StaysWithin(Next(p, events[0]), events[1..]);
    }
  }

  lemma {:induction false} KeepsConfiguration(p: Pipeline, events: seq<Event>)
    requires ValidRun(p, events)
    ensures After(p, events).maxsize == p.maxsize && After(p, events).level == p.level
    decreases |events|
  {
    if events != [] {
      KeepsConfiguration(Next(p, events[0]), events[1..]);
    }
  }

  /** In every run a record is refused, and counted, exactly if the queue is bounded and holds as many items
      as it may; any other joins the queue behind the rest. */
  lemma RefusedExactlyWhenFull(maxsize: int, level: int, events: seq<Event>, r: Record)
    requires ValidRun(Initial(maxsize, level), events)
    ensures var p := After(Initial(maxsize, level), events);
            var p' := Next(p, Enqueue(r));
            if maxsize > 0 && |p.queue| == maxsize
            then p'.queue == p.queue && p'.queueDrops == p.queueDrops + 1
            else p'.queue == p.queue + [Entry(r)] && p'.queueDrops == p.queueDrops
  {
    KeepsConfiguration(Initial(maxsize, level), events);
    if maxsize > 0 {
      QueueIsBounded(maxsize, level, events);
    }
  }

  // ----- The size of batches -----

  /** Somebody flushes what there is: the listener after a timeout, or another thread. */
  predicate IsFlush(e: Event) { e.Timeout? || e.FlushElsewhere? }

  ghost predicate SizesOk(flushes: seq<Flush>, onlyFull: bool) {
    forall i | 0 <= i < |flushes| :: 0 < |flushes[i].batch| <= 50 && (onlyFull ==> |flushes[i].batch| == 50)
  }

  lemma {:induction false} RunSizes(p: Pipeline, events: seq<Event>, onlyFull: bool)
    requires ValidRun(p, events) && |p.batch| < 50 && SizesOk(p.flushes, onlyFull)
    requires onlyFull ==> forall e | e in events :: !IsFlush(e)
    ensures |After(p, events).batch| < 50 && SizesOk(After(p, events).flushes, onlyFull)
    decreases |events|
  {
    if events != [] {
      assert events[0] in events;
      NextSizes(p, events[0], onlyFull);
      RunSizes(Next(p, events[0]), events[1..], onlyFull);
    }
  }

  lemma NextSizes(p: Pipeline, e: Event, onlyFull: bool)
    requires Enabled(p, e) && |p.batch| < 50 && SizesOk(p.flushes, onlyFull)
    requires onlyFull ==> !IsFlush(e)
    ensures |Next(p, e).batch| < 50 && SizesOk(Next(p, e).flushes, onlyFull)
  {
  }

  /** A batch that is handed over holds 50 records, unless it was flushed early, by a timeout or by another
      thread; then it holds fewer, but some. */
  lemma BatchesAreFull(maxsize: int, level: int, events: seq<Event>)
    requires ValidRun(Initial(maxsize, level), events)
    ensures var p := After(Initial(maxsize, level), events);
            && SizesOk(p.flushes, false)
            && ((forall e | e in events :: !IsFlush(e)) ==> SizesOk(p.flushes, true))
  {
    RunSizes(Initial(maxsize, level), events, false);
    if forall e | e in events :: !IsFlush(e) {
      RunSizes(Initial(maxsize, level), events, true);
    }
  }

  /** A flush leaves nothing in the batch. */
  lemma FlushLeavesNothing(p: Pipeline, e: Event)
    requires Enabled(p, e) && IsFlush(e)
    ensures Next(p, e).batch == []
    ensures Flat(Next(p, e).flushes) == Flat(p.flushes) + p.batch
  {
    FlatAppend(p.flushes, Flush(p.batch, if e.closed then Dropped else InFlight));
  }

  // ----- What the database answered -----

  /** The batch that the oldest scheduled callback captured. */
  function Captured(p: Pipeline): seq<Record>
    requires p.callbacks != [] && p.callbacks[0] < |p.flushes|
  {
    p.flushes[p.callbacks[0]].batch
  }

  /** The batches that the database took, in the order in which it answered. */
  ghost function TakenBatches(p: Pipeline, events: seq<Event>): seq<seq<Record>>
    requires ValidRun(p, events)
    decreases |events|
  {
    if events == [] then []
    else
      var rest := TakenBatches(Next(p, events[0]), events[1..]);
      if events[0] == RunCallback(true) then [Captured(p)] + rest else rest
  }

  /** How many records were lost behind the queue: in batches that the database refused, and in batches
      that were flushed when the event loop was closed. */
  ghost function LostRecords(p: Pipeline, events: seq<Event>): nat
    requires ValidRun(p, events)
    decreases |events|
  {
    if events == [] then 0
    else LostBy(p, events[0]) + LostRecords(Next(p, events[0]), events[1..])
  }

  ghost function LostBy(p: Pipeline, e: Event): nat
    requires Enabled(p, e)
  {
    match e
    case RunCallback(accepted) => if accepted then 0 else |Captured(p)|
    case Dequeue(closed) => if closed then FlushedSize(p, e) else 0
    case Timeout(closed) => if closed then |p.batch| else 0
    case FlushElsewhere(closed) => if closed then |p.batch| else 0
    case _ => 0
  }

  /** A record that fills the batch takes it along. */
  ghost function FlushedSize(p: Pipeline, e: Event): nat
    requires Enabled(p, e) && e.Dequeue?
  {
    match p.queue[0]
    case Sentinel => 0
    case Entry(r) => if r.level >= p.level && |p.batch| + 1 >= 50 then |p.batch| + 1 else 0
  }

  ghost function Answers(events: seq<Event>, answer: bool): nat {
    if events == [] then 0
    else Answers(events[1..], answer) + if events[0] == RunCallback(answer) then 1 else 0
  }

  lemma NextSettles(p: Pipeline, e: Event)
    requires Enabled(p, e)
    ensures Next(p, e).received == p.received + if e == RunCallback(true) then [Captured(p)] else []
    ensures Next(p, e).dbDrops == p.dbDrops + LostBy(p, e)
  {
  }

  lemma {:induction false} RunSettles(p: Pipeline, events: seq<Event>)
    requires ValidRun(p, events)
    ensures After(p, events).received == p.received + TakenBatches(p, events)
    ensures After(p, events).dbDrops == p.dbDrops + LostRecords(p, events)
    ensures |TakenBatches(p, events)| == Answers(events, true)
    decreases |events|
  {
    if events != [] {
      NextSettles(p, events[0]);
      RunSettles(Next(p, events[0]), events[1..]);
    }
  }

  /** Whether anything can be lost behind the queue. */
  predicate CanLose(e: Event) {
    match e
    case RunCallback(accepted) => !accepted
    case Dequeue(closed) => closed
    case Timeout(closed) => closed
    case FlushElsewhere(closed) => closed
    case _ => false
  }

  lemma {:induction false} NothingLost(p: Pipeline, events: seq<Event>)
    requires ValidRun(p, events) && forall e | e in events :: !CanLose(e)
    ensures LostRecords(p, events) == 0
    decreases |events|
  {
    if events != [] {
      assert events[0] in events;
      NothingLost(Next(p, events[0]), events[1..]);
    }
  }

  /** In every run the database has received just the batches that it took, each when it said so, and
      `db_write_queue_drops` is the number of records in the batches that it refused or that met a closed
      loop. It is 0 if there were none. */
  lemma CountedAsAnswered(maxsize: int, level: int, events: seq<Event>)
    requires ValidRun(Initial(maxsize, level), events)
    ensures var start := Initial(maxsize, level);
            var p := After(start, events);
            && p.received == TakenBatches(start, events)
            && |p.received| == Answers(events, true)
            && p.dbDrops == LostRecords(start, events)
            && ((forall e | e in events :: !CanLose(e)) ==> p.dbDrops == 0)
  {
    RunSettles(Initial(maxsize, level), events);
    if forall e | e in events :: !CanLose(e) {
      NothingLost(Initial(maxsize, level), events);
    }
  }
}
