/** The log pipeline: a bounded queue fed by any thread, a listener thread that batches what it takes
    out, and the event loop that hands batches to the database. An event is one enqueue, one turn of the
    listener's loop, one flush on another thread or one loop callback. Producers only touch the queue, so
    it makes no difference that they can run in the middle of a turn; what holds of the handler's batch
    holds between turns. Here a flush on another thread does not overlap a turn; module LogOverlap takes
    flushes and turns apart, and says what an overlap does.

    `offers`, `taken`, `flushes` and `received` are histories. No step reads them but `flushes`, in
    which a scheduled callback finds the batch it captured.
 */
module LogPipeline {

  const BATCH_SIZE := 50

  datatype Record = Record(level: int, payload: int)

  datatype Item = Entry(record: Record) | Sentinel

  datatype Offer = Offer(record: Record, queued: bool)

  datatype Fate = InFlight | Accepted | Dropped
  datatype Flush = Flush(batch: seq<Record>, fate: Fate)

  datatype Pipeline = Pipeline(
    maxsize: int,             // of the queue; not positive means unbounded
    level: int,               // what the persistence handler keeps
    queue: seq<Item>,
    queueDrops: nat,          // `log_queue_drops`
    batch: seq<Record>,
    callbacks: seq<nat>,      // flushes handed to the event loop, oldest first
    dbDrops: nat,             // `db_write_queue_drops`
    exited: bool,             // the listener has seen the sentinel
    offers: seq<Offer>,
    taken: seq<Item>,
    flushes: seq<Flush>,
    received: seq<seq<Record>>)  // batches the database queue accepted

  function Initial(maxsize: int, level: int): Pipeline {
    Pipeline(maxsize, level, [], 0, [], [], 0, false, [], [], [], [])
  }

  /** `closed` says that scheduling on the event loop raises, because the loop is closed. */
  datatype Event =
    | Enqueue(record: Record)
    | EnqueueSentinel
    | Dequeue(closed: bool)
    | Timeout(closed: bool)
    | FlushElsewhere(closed: bool)  // `flush_if_pending` on another thread
    | RunCallback(accepted: bool)

  predicate Full(p: Pipeline) {
    p.maxsize > 0 && |p.queue| >= p.maxsize
  }

  /** The sentinel waits for room, and the listener takes nothing after it. */
  predicate Enabled(p: Pipeline, e: Event) {
    match e
    case Enqueue(_) => true
    case EnqueueSentinel => !Full(p)
    case Dequeue(_) => !p.exited && p.queue != []
    case Timeout(_) => !p.exited
    case FlushElsewhere(_) => true
    case RunCallback(_) => p.callbacks != [] && p.callbacks[0] < |p.flushes|
  }

  function Next(p: Pipeline, e: Event): Pipeline
    requires Enabled(p, e)
  {
    match e
    case Enqueue(r) =>
      if Full(p)
      then p.(queueDrops := p.queueDrops + 1, offers := p.offers + [Offer(r, false)])
      else p.(queue := p.queue + [Entry(r)], offers := p.offers + [Offer(r, true)])
    case EnqueueSentinel => p.(queue := p.queue + [Sentinel])
    case Dequeue(closed) =>
      var p' := p.(queue := p.queue[1..], taken := p.taken + [p.queue[0]]);
      if p.queue[0].Sentinel? then p'.(exited := true) else Emit(p', p.queue[0].record, closed)
    case Timeout(closed) => FlushIfPending(p, closed)
    case FlushElsewhere(closed) => FlushIfPending(p, closed)
    case RunCallback(accepted) => DoEnqueue(p, accepted)
  }

  function Emit(p: Pipeline, r: Record, closed: bool): Pipeline {
    if r.level < p.level then p
    else
      var p' := p.(batch := p.batch + [r]);
      if |p'.batch| >= BATCH_SIZE then FlushBatch(p', closed) else p'
  }

  function FlushIfPending(p: Pipeline, closed: bool): Pipeline {
    if p.batch == [] then p else FlushBatch(p, closed)
  }

  function FlushBatch(p: Pipeline, closed: bool): Pipeline { HandOver(p, p.batch, closed) }

  /** A new batch begins, and the one that was read goes to the event loop, or is counted as dropped if the
      loop will not take it. */
  function HandOver(p: Pipeline, read: seq<Record>, closed: bool): Pipeline {
    if closed then
      p.(batch := [], dbDrops := p.dbDrops + |read|, flushes := p.flushes + [Flush(read, Dropped)])
    else
      p.(batch := [], callbacks := p.callbacks + [|p.flushes|], flushes := p.flushes + [Flush(read, InFlight)])
  }

  /** The oldest callback runs: the database queue takes the batch, or refuses it or raises. */
  function DoEnqueue(p: Pipeline, accepted: bool): Pipeline
    requires p.callbacks != [] && p.callbacks[0] < |p.flushes|
  {
    var i := p.callbacks[0];
    var b := p.flushes[i].batch;
    if accepted then
      p.(callbacks := p.callbacks[1..], flushes := p.flushes[i := Flush(b, Accepted)], received := p.received + [b])
    else
      p.(callbacks := p.callbacks[1..], flushes := p.flushes[i := Flush(b, Dropped)], dbDrops := p.dbDrops + |b|)
  }

  predicate ValidRun(p: Pipeline, events: seq<Event>)
    decreases |events|
  {
    events != [] ==> Enabled(p, events[0]) && ValidRun(Next(p, events[0]), events[1..])
  }

  function After(p: Pipeline, events: seq<Event>): Pipeline
    requires ValidRun(p, events)
    decreases |events|
  {
    if events == [] then p else After(Next(p, events[0]), events[1..])
  }

  // ----- The three objects -----

  class LogService {
    const maxsize: int
    const level: int
    // HassetteQueueHandler and its queue
    var queue: seq<Item>
    var queueDrops: nat
    // LogPersistenceHandler
    var batch: seq<Record>
    var dbDrops: nat
    // the event loop
    var callbacks: seq<nat>
    var flushes: seq<Flush>
    // HassetteQueueListener
    var exited: bool
    ghost var offers: seq<Offer>
    ghost var taken: seq<Item>
    ghost var received: seq<seq<Record>>

    ghost function State(): Pipeline
      reads this
    {
      Pipeline(maxsize, level, queue, queueDrops, batch, callbacks, dbDrops, exited, offers, taken, flushes, received)
    }

    constructor (maxsize: int, level: int)
      ensures State() == Initial(maxsize, level)
    {
      this.maxsize, this.level := maxsize, level;
      queue, queueDrops, batch, dbDrops, callbacks, flushes, exited := [], 0, [], 0, [], [], false;
      offers, taken, received := [], [], [];
    }

    method EnqueueRecord(record: Record)
      modifies this
      ensures State() == Next(old(State()), Enqueue(record))
    {
      if maxsize > 0 && |queue| >= maxsize {
        queueDrops := queueDrops + 1;
        offers := offers + [Offer(record, false)];
      } else {
        queue := queue + [Entry(record)];
        offers := offers + [Offer(record, true)];
      }
    }

    method PutSentinel()
      requires Enabled(State(), EnqueueSentinel)
      modifies this`queue
      ensures State() == Next(old(State()), EnqueueSentinel)
    {
      queue := queue + [Sentinel];
    }

    /** One turn of `_monitor`, with something to take or with the timeout. */
    method MonitorTurn(timedOut: bool, closed: bool)
      requires Enabled(State(), if timedOut then Timeout(closed) else Dequeue(closed))
      modifies this
      ensures State() == Next(old(State()), if timedOut then Timeout(closed) else Dequeue(closed))
    {
      if timedOut {
        FlushIfAny(closed);
        return;
      }
      var item := queue[0];
      queue := queue[1..];
      taken := taken + [item];
      if item.Sentinel? {
        exited := true;
        return;
      }
      EmitRecord(item.record, closed);
    }

    method EmitRecord(record: Record, closed: bool)
      modifies this`batch, this`dbDrops, this`callbacks, this`flushes
      ensures State() == Emit(old(State()), record, closed)
    {
      if record.level < level {
        return;
      }
      batch := batch + [record];
      if |batch| >= BATCH_SIZE {
        FlushNow(closed);
      }
    }

    method FlushIfAny(closed: bool)
      modifies this`batch, this`dbDrops, this`callbacks, this`flushes
      ensures State() == FlushIfPending(old(State()), closed)
    {
      if batch != [] {
        FlushNow(closed);
      }
    }

    /** `_flush`, when no other flush comes between its two assignments. */
    method FlushNow(closed: bool)
      modifies this`batch, this`dbDrops, this`callbacks, this`flushes
      ensures State() == FlushBatch(old(State()), closed)
    {
      var read := batch;
      HandBatchOver(read, closed);
    }

    /** What `_flush` does once it has read the batch. */
    method HandBatchOver(read: seq<Record>, closed: bool)
      modifies this`batch, this`dbDrops, this`callbacks, this`flushes
      ensures State() == HandOver(old(State()), read, closed)
    {
      batch := [];
      if closed {
        dbDrops := dbDrops + |read|;
        flushes := flushes + [Flush(read, Dropped)];
      } else {
        callbacks := callbacks + [|flushes|];
        flushes := flushes + [Flush(read, InFlight)];
      }
    }

    /** `_do_enqueue` of the oldest scheduled flush. */
    method RunOldestCallback(accepted: bool)
      requires Enabled(State(), RunCallback(accepted))
      modifies this
      ensures State() == Next(old(State()), RunCallback(accepted))
    {
      var i := callbacks[0];
      callbacks := callbacks[1..];
      var b := flushes[i].batch;
      if accepted {
        flushes := flushes[i := Flush(b, Accepted)];
        received := received + [b];
      } else {
        flushes := flushes[i := Flush(b, Dropped)];
        dbDrops := dbDrops + |b|;
      }
    }
  }

  // ----- Reading the histories -----

  ghost function Records(items: seq<Item>): seq<Record> {
    if items == [] then []
    else
      var earlier := Records(items[..|items| - 1]);
      match items[|items| - 1] case Entry(r) => earlier + [r] case Sentinel => earlier
  }

  ghost function Queued(offers: seq<Offer>): seq<Record> {
    if offers == [] then []
    else
      var earlier, last := Queued(offers[..|offers| - 1]), offers[|offers| - 1];
      if last.queued then earlier + [last.record] else earlier
  }

  ghost function AtLevel(records: seq<Record>, level: int): seq<Record> {
    if records == [] then []
    else
      var earlier, last := AtLevel(records[..|records| - 1], level), records[|records| - 1];
      if last.level < level then earlier else earlier + [last]
  }

  ghost function Flat(flushes: seq<Flush>): seq<Record> {
    if flushes == [] then [] else Flat(flushes[..|flushes| - 1]) + flushes[|flushes| - 1].batch
  }

  /** The batches with this fate, in the order they were flushed. */
  ghost function WithFate(flushes: seq<Flush>, fate: Fate): seq<seq<Record>> {
    if flushes == [] then []
    else
      var last := flushes[|flushes| - 1];
      var earlier := WithFate(flushes[..|flushes| - 1], fate);
      if last.fate == fate then earlier + [last.batch] else earlier
  }

  ghost function Size(batches: seq<seq<Record>>): nat {
    if batches == [] then 0 else Size(batches[..|batches| - 1]) + |batches[|batches| - 1]|
  }

  // ----- The invariant -----

  /** Queue: what was let in is what was taken out followed by what is in it. */
  ghost predicate QueueOk(offers: seq<Offer>, taken: seq<Item>, queue: seq<Item>, queueDrops: nat) {
    && Queued(offers) == Records(taken) + Records(queue)
    && |offers| == |Queued(offers)| + queueDrops
  }

  /** Batches: what was handled at the level is what was flushed followed by the current batch. */
  ghost predicate BatchOk(taken: seq<Item>, level: int, flushes: seq<Flush>, batch: seq<Record>) {
    AtLevel(Records(taken), level) == Flat(flushes) + batch
  }

  /** The scheduled flushes are the ones in flight, oldest first, and none accepted is younger. */
  ghost predicate Scheduled(callbacks: seq<nat>, flushes: seq<Flush>) {
    callbacks == InFlightIndexes(flushes) && AcceptedFirst(flushes)
  }

  ghost function InFlightIndexes(flushes: seq<Flush>): seq<nat> {
    if flushes == [] then []
    else
      var earlier := InFlightIndexes(flushes[..|flushes| - 1]);
      if flushes[|flushes| - 1].fate == InFlight then earlier + [|flushes| - 1] else earlier
  }

  ghost predicate AcceptedFirst(flushes: seq<Flush>) {
    forall i, j | 0 <= i < j < |flushes| && flushes[i].fate == InFlight :: flushes[j].fate != Accepted
  }

  /** The database got the accepted batches in the order they were flushed; the rest is counted. */
  ghost predicate Tallied(flushes: seq<Flush>, received: seq<seq<Record>>, dbDrops: nat) {
    && received == WithFate(flushes, Accepted)
    && dbDrops == Size(WithFate(flushes, Dropped))
  }

  /** The listener stops at the first sentinel and not before. */
  ghost predicate ExitOk(taken: seq<Item>, exited: bool) {
    && (exited ==> taken != [])
    && forall i | 0 <= i < |taken| :: taken[i].Sentinel? <==> exited && i == |taken| - 1
  }

  ghost predicate Inv(p: Pipeline) {
    && QueueOk(p.offers, p.taken, p.queue, p.queueDrops)
    && BatchOk(p.taken, p.level, p.flushes, p.batch)
    && |p.batch| < BATCH_SIZE
    && Scheduled(p.callbacks, p.flushes)
    && Tallied(p.flushes, p.received, p.dbDrops)
    && ExitOk(p.taken, p.exited)
  }

  lemma RecordsAppend(items: seq<Item>, x: Item)
    ensures Records(items + [x]) == match x case Entry(r) => Records(items) + [r] case Sentinel => Records(items)
  {
    assert (items + [x])[..|items|] == items;
  }

  lemma {:induction false} RecordsHead(items: seq<Item>)
    requires items != []
    ensures Records(items) ==
            match items[0] case Entry(r) => [r] + Records(items[1..]) case Sentinel => Records(items[1..])
  {
    if |items| > 1 {
      var init := items[..|items| - 1];
      RecordsHead(init);
      assert init[1..] == items[1..][..|items| - 2];
      assert items[1..][|items| - 2] == items[|items| - 1];
    }
  }

  lemma OfferAppend(offers: seq<Offer>, x: Offer)
    ensures Queued(offers + [x]) == if x.queued then Queued(offers) + [x.record] else Queued(offers)
  {
    assert (offers + [x])[..|offers|] == offers;
  }

  lemma AtLevelAppend(records: seq<Record>, r: Record, level: int)
    ensures AtLevel(records + [r], level) ==
            if r.level < level then AtLevel(records, level) else AtLevel(records, level) + [r]
  {
    assert (records + [r])[..|records|] == records;
  }

  lemma FlatAppend(flushes: seq<Flush>, f: Flush)
    ensures Flat(flushes + [f]) == Flat(flushes) + f.batch
  {
    assert (flushes + [f])[..|flushes|] == flushes;
  }

  lemma FateAppend(flushes: seq<Flush>, f: Flush, fate: Fate)
    ensures WithFate(flushes + [f], fate) ==
            if f.fate == fate then WithFate(flushes, fate) + [f.batch] else WithFate(flushes, fate)
  {
    assert (flushes + [f])[..|flushes|] == flushes;
  }

  lemma SizeAppend(batches: seq<seq<Record>>, b: seq<Record>)
    ensures Size(batches + [b]) == Size(batches) + |b|
  {
    assert (batches + [b])[..|batches|] == batches;
  }

  /** Settling a flush changes no batch. */
  lemma {:induction false} FlatSettled(flushes: seq<Flush>, i: nat, fate: Fate)
    requires i < |flushes|
    ensures Flat(flushes[i := Flush(flushes[i].batch, fate)]) == Flat(flushes)
  {
    var settled := flushes[i := Flush(flushes[i].batch, fate)];
    var n := |flushes| - 1;
    if i < n {
      FlatSettled(flushes[..n], i, fate);
      assert settled[..n] == flushes[..n][i := Flush(flushes[i].batch, fate)];
    } else {
      assert settled[..n] == flushes[..n];
    }
  }

  /** Settling a flush removes nothing from the other fates. */
  lemma {:induction false} OtherFates(flushes: seq<Flush>, i: nat, fate: Fate, other: Fate)
    requires i < |flushes| && flushes[i].fate == InFlight && other != fate && other != InFlight
    ensures WithFate(flushes[i := Flush(flushes[i].batch, fate)], other) == WithFate(flushes, other)
  {
    var settled := flushes[i := Flush(flushes[i].batch, fate)];
    var n := |flushes| - 1;
    if i < n {
      OtherFates(flushes[..n], i, fate, other);
      assert settled[..n] == flushes[..n][i := Flush(flushes[i].batch, fate)];
    } else {
      assert settled[..n] == flushes[..n];
    }
  }

  /** A flush accepted after all other accepted ones is the last of them. */
  lemma {:induction false} AcceptedLast(flushes: seq<Flush>, i: nat)
    requires i < |flushes| && flushes[i].fate == InFlight
    requires forall j | i < j < |flushes| :: flushes[j].fate != Accepted
    ensures WithFate(flushes[i := Flush(flushes[i].batch, Accepted)], Accepted) ==
            WithFate(flushes, Accepted) + [flushes[i].batch]
  {
    var settled := flushes[i := Flush(flushes[i].batch, Accepted)];
    var n := |flushes| - 1;
    if i < n {
      AcceptedLast(flushes[..n], i);
      assert settled[..n] == flushes[..n][i := Flush(flushes[i].batch, Accepted)];
    } else {
      assert settled[..n] == flushes[..n];
    }
  }

  lemma {:induction false} DroppedSize(flushes: seq<Flush>, i: nat)
    requires i < |flushes| && flushes[i].fate == InFlight
    ensures Size(WithFate(flushes[i := Flush(flushes[i].batch, Dropped)], Dropped)) ==
            Size(WithFate(flushes, Dropped)) + |flushes[i].batch|
  {
    var settled := flushes[i := Flush(flushes[i].batch, Dropped)];
    var n := |flushes| - 1;
    if i < n {
      DroppedSize(flushes[..n], i);
      assert settled[..n] == flushes[..n][i := Flush(flushes[i].batch, Dropped)];
      if flushes[n].fate == Dropped {
        SizeAppend(WithFate(flushes[..n], Dropped), flushes[n].batch);
        SizeAppend(WithFate(settled[..n], Dropped), flushes[n].batch);
      }
    } else {
      assert settled[..n] == flushes[..n];
      SizeAppend(WithFate(flushes[..n], Dropped), flushes[n].batch);
    }
  }

  lemma ScheduleMore(callbacks: seq<nat>, flushes: seq<Flush>, f: Flush)
    requires Scheduled(callbacks, flushes) && f.fate != Accepted
    ensures Scheduled(if f.fate == InFlight then callbacks + [|flushes|] else callbacks, flushes + [f])
  {
    assert (flushes + [f])[..|flushes|] == flushes;
  }

  lemma {:induction false} FirstInFlight(flushes: seq<Flush>)
    requires InFlightIndexes(flushes) != []
    ensures var i := InFlightIndexes(flushes)[0];
            i < |flushes| && flushes[i].fate == InFlight && forall k | 0 <= k < i :: flushes[k].fate != InFlight
  {
    var init := flushes[..|flushes| - 1];
    if InFlightIndexes(init) != [] {
      FirstInFlight(init);
    } else {
      NoneInFlight(init);
    }
  }

  lemma {:induction false} NoneInFlight(flushes: seq<Flush>)
    requires InFlightIndexes(flushes) == []
    ensures forall k | 0 <= k < |flushes| :: flushes[k].fate != InFlight
  {
    if flushes != [] {
      NoneInFlight(flushes[..|flushes| - 1]);
    }
  }

  lemma {:induction false} IndexesAfterSettling(flushes: seq<Flush>, fate: Fate)
    requires InFlightIndexes(flushes) != [] && InFlightIndexes(flushes)[0] < |flushes| && fate != InFlight
    ensures var i := InFlightIndexes(flushes)[0];
            InFlightIndexes(flushes[i := Flush(flushes[i].batch, fate)]) == InFlightIndexes(flushes)[1..]
  {
    var i, n := InFlightIndexes(flushes)[0], |flushes| - 1;
    var settled := flushes[i := Flush(flushes[i].batch, fate)];
    FirstInFlight(flushes);
    if i == n {
      assert settled[..n] == flushes[..n];
      if InFlightIndexes(flushes[..n]) != [] {
        FirstInFlight(flushes[..n]);
      }
    } else {
      assert settled[..n] == flushes[..n][i := Flush(flushes[i].batch, fate)];
      assert InFlightIndexes(flushes[..n]) != [];
      IndexesAfterSettling(flushes[..n], fate);
    }
  }

  lemma ScheduleSettle(callbacks: seq<nat>, flushes: seq<Flush>, fate: Fate)
    requires Scheduled(callbacks, flushes) && callbacks != [] && fate != InFlight
    ensures callbacks[0] < |flushes| && flushes[callbacks[0]].fate == InFlight
    ensures forall j | callbacks[0] < j < |flushes| :: flushes[j].fate != Accepted
    ensures Scheduled(callbacks[1..], flushes[callbacks[0] := Flush(flushes[callbacks[0]].batch, fate)])
  {
    FirstInFlight(flushes);
    IndexesAfterSettling(flushes, fate);
  }

  // ----- Every event keeps it -----

  lemma OfferQueued(offers: seq<Offer>, taken: seq<Item>, queue: seq<Item>, queueDrops: nat, r: Record)
    requires QueueOk(offers, taken, queue, queueDrops)
    ensures QueueOk(offers + [Offer(r, true)], taken, queue + [Entry(r)], queueDrops)
  {
    OfferAppend(offers, Offer(r, true));
    RecordsAppend(queue, Entry(r));
    assert Records(taken) + (Records(queue) + [r]) == Records(taken) + Records(queue) + [r];
  }

  lemma OfferDropped(offers: seq<Offer>, taken: seq<Item>, queue: seq<Item>, queueDrops: nat, r: Record)
    requires QueueOk(offers, taken, queue, queueDrops)
    ensures QueueOk(offers + [Offer(r, false)], taken, queue, queueDrops + 1)
  {
    OfferAppend(offers, Offer(r, false));
  }

  lemma SentinelQueued(offers: seq<Offer>, taken: seq<Item>, queue: seq<Item>, queueDrops: nat)
    requires QueueOk(offers, taken, queue, queueDrops)
    ensures QueueOk(offers, taken, queue + [Sentinel], queueDrops)
  {
    RecordsAppend(queue, Sentinel);
  }

  lemma ItemTaken(offers: seq<Offer>, taken: seq<Item>, queue: seq<Item>, queueDrops: nat)
    requires QueueOk(offers, taken, queue, queueDrops) && queue != []
    ensures QueueOk(offers, taken + [queue[0]], queue[1..], queueDrops)
  {
    RecordsHead(queue);
    RecordsAppend(taken, queue[0]);
    if queue[0].Entry? {
      Shift(Records(taken), queue[0].record, Records(queue[1..]));
    }
  }

  lemma Shift(front: seq<Record>, r: Record, back: seq<Record>)
    ensures front + [r] + back == front + ([r] + back)
  {
  }

  lemma RecordHandled(taken: seq<Item>, level: int, flushes: seq<Flush>, batch: seq<Record>, r: Record)
    requires BatchOk(taken, level, flushes, batch)
    ensures BatchOk(taken + [Entry(r)], level, flushes, if r.level < level then batch else batch + [r])
  {
    RecordsAppend(taken, Entry(r));
    AtLevelAppend(Records(taken), r, level);
    assert Flat(flushes) + (batch + [r]) == Flat(flushes) + batch + [r];
  }

  lemma SentinelHandled(taken: seq<Item>, level: int, flushes: seq<Flush>, batch: seq<Record>)
    requires BatchOk(taken, level, flushes, batch)
    ensures BatchOk(taken + [Sentinel], level, flushes, batch)
  {
    RecordsAppend(taken, Sentinel);
  }

  lemma BatchFlushed(taken: seq<Item>, level: int, flushes: seq<Flush>, batch: seq<Record>, fate: Fate)
    requires BatchOk(taken, level, flushes, batch)
    ensures BatchOk(taken, level, flushes + [Flush(batch, fate)], [])
  {
    FlatAppend(flushes, Flush(batch, fate));
    assert Flat(flushes) + batch + [] == Flat(flushes) + batch;
  }

  lemma FlushTallied(flushes: seq<Flush>, received: seq<seq<Record>>, dbDrops: nat, batch: seq<Record>, closed: bool)
    requires Tallied(flushes, received, dbDrops)
    ensures var f := Flush(batch, if closed then Dropped else InFlight);
            Tallied(flushes + [f], received, if closed then dbDrops + |batch| else dbDrops)
  {
    var f := Flush(batch, if closed then Dropped else InFlight);
    FateAppend(flushes, f, Accepted);
    FateAppend(flushes, f, Dropped);
    SizeAppend(WithFate(flushes, Dropped), batch);
  }

  lemma CallbackTallied(flushes: seq<Flush>, received: seq<seq<Record>>, dbDrops: nat, i: nat)
    requires Tallied(flushes, received, dbDrops) && i < |flushes| && flushes[i].fate == InFlight
    requires forall j | i < j < |flushes| :: flushes[j].fate != Accepted
    ensures var b := flushes[i].batch;
            && Tallied(flushes[i := Flush(b, Accepted)], received + [b], dbDrops)
            && Tallied(flushes[i := Flush(b, Dropped)], received, dbDrops + |b|)
  {
    AcceptedLast(flushes, i);
    DroppedSize(flushes, i);
    OtherFates(flushes, i, Accepted, Dropped);
    OtherFates(flushes, i, Dropped, Accepted);
  }

  /** The invariant but for the batch. */
  ghost predicate RestOk(p: Pipeline) {
    && QueueOk(p.offers, p.taken, p.queue, p.queueDrops)
    && Scheduled(p.callbacks, p.flushes)
    && Tallied(p.flushes, p.received, p.dbDrops)
    && ExitOk(p.taken, p.exited)
  }

  /** The rest does not depend on what is handed over. */
  lemma HandOverRest(p: Pipeline, read: seq<Record>, closed: bool)
    requires RestOk(p)
    ensures RestOk(HandOver(p, read, closed))
  {
    FlushTallied(p.flushes, p.received, p.dbDrops, read, closed);
    ScheduleMore(p.callbacks, p.flushes, Flush(read, if closed then Dropped else InFlight));
  }

  lemma FlushBatchInv(p: Pipeline, closed: bool)
    requires RestOk(p) && BatchOk(p.taken, p.level, p.flushes, p.batch)
    ensures Inv(FlushBatch(p, closed))
  {
    HandOverRest(p, p.batch, closed);
    BatchFlushed(p.taken, p.level, p.flushes, p.batch, if closed then Dropped else InFlight);
  }

  lemma DequeueInv(p: Pipeline, closed: bool)
    requires Inv(p) && Enabled(p, Dequeue(closed))
    ensures Inv(Next(p, Dequeue(closed)))
  {
    var item := p.queue[0];
    var p' := p.(queue := p.queue[1..], taken := p.taken + [item]);
    ItemTaken(p.offers, p.taken, p.queue, p.queueDrops);
    assert ExitOk(p'.taken, item.Sentinel?);
    if item.Sentinel? {
      SentinelHandled(p.taken, p.level, p.flushes, p.batch);
    } else {
      RecordHandled(p.taken, p.level, p.flushes, p.batch, item.record);
      if item.record.level >= p.level && |p.batch| + 1 >= BATCH_SIZE {
        FlushBatchInv(p'.(batch := p.batch + [item.record]), closed);
      }
    }
  }

  lemma RunCallbackRest(p: Pipeline, accepted: bool)
    requires RestOk(p) && Enabled(p, RunCallback(accepted))
    ensures RestOk(Next(p, RunCallback(accepted)))
    ensures Flat(Next(p, RunCallback(accepted)).flushes) == Flat(p.flushes)
  {
    var i, fate := p.callbacks[0], if accepted then Accepted else Dropped;
    ScheduleSettle(p.callbacks, p.flushes, fate);
    FlatSettled(p.flushes, i, fate);
    CallbackTallied(p.flushes, p.received, p.dbDrops, i);
  }

  lemma NextInv(p: Pipeline, e: Event)
    requires Inv(p) && Enabled(p, e)
    ensures Inv(Next(p, e))
  {
    match e
    case Enqueue(r) =>
      OfferQueued(p.offers, p.taken, p.queue, p.queueDrops, r);
      OfferDropped(p.offers, p.taken, p.queue, p.queueDrops, r);
    case EnqueueSentinel => SentinelQueued(p.offers, p.taken, p.queue, p.queueDrops);
    case Dequeue(closed) => DequeueInv(p, closed);
    case Timeout(closed) => FlushBatchInv(p, closed);
    case FlushElsewhere(closed) => FlushBatchInv(p, closed);
    case RunCallback(accepted) => RunCallbackRest(p, accepted);
  }

  lemma {:induction false} RunInv(p: Pipeline, events: seq<Event>)
    requires Inv(p) && ValidRun(p, events)
    ensures Inv(After(p, events))
    decreases |events|
  {
    if events != [] {
      NextInv(p, events[0]);
      RunInv(Next(p, events[0]), events[1..]);
    }
  }

  // ----- Whole runs -----

  lemma {:induction false} FatesAddUp(flushes: seq<Flush>)
    ensures |Flat(flushes)| ==
            Size(WithFate(flushes, InFlight)) + Size(WithFate(flushes, Accepted)) + Size(WithFate(flushes, Dropped))
  {
    if flushes != [] {
      var init, last := flushes[..|flushes| - 1], flushes[|flushes| - 1];
      FatesAddUp(init);
      SizeOfFate(flushes, InFlight);
      SizeOfFate(flushes, Accepted);
      SizeOfFate(flushes, Dropped);
      assert |Flat(flushes)| == |Flat(init)| + |last.batch|;
    }
  }

  lemma SizeOfFate(flushes: seq<Flush>, fate: Fate)
    requires flushes != []
    ensures var init, last := flushes[..|flushes| - 1], flushes[|flushes| - 1];
            Size(WithFate(flushes, fate)) == Size(WithFate(init, fate)) + if last.fate == fate then |last.batch| else 0
  {
    SizeAppend(WithFate(flushes[..|flushes| - 1], fate), flushes[|flushes| - 1].batch);
  }

  ghost predicate AddsUp(p: Pipeline) {
    && |p.offers| == |Records(p.queue)| + p.queueDrops + |Records(p.taken)|
    && |AtLevel(Records(p.taken), p.level)| ==
       |p.batch| + Size(WithFate(p.flushes, InFlight)) + Size(p.received) + p.dbDrops
  }

  ghost predicate Conserved(p: Pipeline) { AddsUp(p) && |p.batch| < 50 }

  lemma OkAddsUp(p: Pipeline)
    requires RestOk(p) && BatchOk(p.taken, p.level, p.flushes, p.batch)
    ensures AddsUp(p)
  {
    FatesAddUp(p.flushes);
  }

  lemma InvConserved(p: Pipeline)
    requires Inv(p)
    ensures Conserved(p)
  {
    OkAddsUp(p);
  }

  /** Conservation: every offered record is in the queue, counted in `log_queue_drops`, or handled; and
      every handled record at the level is in the current batch, in a batch the loop still holds, in a
      batch the database accepted, or counted in `db_write_queue_drops`. */
  lemma NothingIsLost(maxsize: int, level: int, events: seq<Event>)
    requires ValidRun(Initial(maxsize, level), events)
    ensures Conserved(After(Initial(maxsize, level), events))
  {
    RunInv(Initial(maxsize, level), events);
    InvConserved(After(Initial(maxsize, level), events));
  }

  /** Order: records are handled in the order they were offered, batched in the order they were handled,
      and the batches the database accepts come in the order they were flushed. */
  lemma OrderIsKept(maxsize: int, level: int, events: seq<Event>)
    requires ValidRun(Initial(maxsize, level), events)
    ensures InOrder(After(Initial(maxsize, level), events))
  {
    RunInv(Initial(maxsize, level), events);
  }

  ghost predicate InOrder(p: Pipeline) {
    && Queued(p.offers) == Records(p.taken) + Records(p.queue)
    && AtLevel(Records(p.taken), p.level) == Flat(p.flushes) + p.batch
    && p.received == WithFate(p.flushes, Accepted)
  }

  ghost predicate Grows(p: Pipeline, p': Pipeline) {
    exists more :: p'.taken + p'.queue == p.taken + p.queue + more
  }

  function Added(p: Pipeline, e: Event): seq<Item> {
    match e
    case Enqueue(r) => if Full(p) then [] else [Entry(r)]
    case EnqueueSentinel => [Sentinel]
    case _ => []
  }

  lemma StepGrows(p: Pipeline, e: Event)
    requires Enabled(p, e)
    ensures Next(p, e).taken + Next(p, e).queue == p.taken + p.queue + Added(p, e)
  {
  }

  lemma {:induction false} QueueGrows(p: Pipeline, events: seq<Event>)
    requires ValidRun(p, events)
    ensures Grows(p, After(p, events))
    decreases |events|
  {
    if events == [] {
      assert p.taken + p.queue == p.taken + p.queue + [];
    } else {
      var p' := Next(p, events[0]);
      StepGrows(p, events[0]);
      QueueGrows(p', events[1..]);
      var rest :| After(p', events[1..]).taken + After(p', events[1..]).queue == p'.taken + p'.queue + rest;
      assert p.taken + p.queue + Added(p, events[0]) + rest == p.taken + p.queue + (Added(p, events[0]) + rest);
    }
  }

  ghost predicate NoSentinel(items: seq<Item>) {
    forall i | 0 <= i < |items| :: !items[i].Sentinel?
  }

  /** The listener's history ends with the first sentinel of the queue's history. */
  lemma UpToTheSentinel(taken: seq<Item>, all: seq<Item>, ahead: seq<Item>, more: seq<Item>)
    requires taken != [] && taken <= all && all == ahead + [Sentinel] + more
    requires forall i | 0 <= i < |taken| :: taken[i].Sentinel? <==> i == |taken| - 1
    requires NoSentinel(ahead)
    ensures taken == ahead + [Sentinel]
  {
    var n, k := |ahead|, |taken| - 1;
    assert all[n] == Sentinel && all[..n] == ahead;
    forall i | 0 <= i < n
      ensures !all[i].Sentinel?
    {
      assert all[i] == ahead[i];
    }
    assert all[k] == taken[k];
    assert n <= k;
    assert taken[n] == all[n];
    assert taken == all[..n + 1];
  }

  /** Everything ahead of the sentinel is handled before the listener exits, and nothing behind it is:
      if the sentinel is put when `ahead` is what was ever let in, then once the listener has exited it
      has taken exactly that and the sentinel. */
  lemma HandledBeforeExit(maxsize: int, level: int, before: seq<Event>, after: seq<Event>)
    requires ValidRun(Initial(maxsize, level), before)
    requires var p := After(Initial(maxsize, level), before);
             && NoSentinel(p.taken + p.queue)
             && Enabled(p, EnqueueSentinel)
             && ValidRun(Next(p, EnqueueSentinel), after)
    ensures var p := After(Initial(maxsize, level), before);
            var p' := After(Next(p, EnqueueSentinel), after);
            p'.exited ==> p'.taken == p.taken + p.queue + [Sentinel]
  {
    RunInv(Initial(maxsize, level), before);
    PutThenExit(After(Initial(maxsize, level), before), after);
  }

  lemma PutThenExit(p: Pipeline, events: seq<Event>)
    requires Inv(p) && NoSentinel(p.taken + p.queue) && Enabled(p, EnqueueSentinel)
    requires ValidRun(Next(p, EnqueueSentinel), events)
    ensures var p' := After(Next(p, EnqueueSentinel), events);
            p'.exited ==> p'.taken == p.taken + p.queue + [Sentinel]
  {
    NextInv(p, EnqueueSentinel);
    ExitAfterSentinel(Next(p, EnqueueSentinel), p.taken + p.queue, events);
  }

  lemma ExitAfterSentinel(p: Pipeline, ahead: seq<Item>, events: seq<Event>)
    requires Inv(p) && ValidRun(p, events)
    requires p.taken + p.queue == ahead + [Sentinel]
    requires NoSentinel(ahead)
    ensures After(p, events).exited ==> After(p, events).taken == ahead + [Sentinel]
  {
    var p' := After(p, events);
    RunInv(p, events);
    QueueGrows(p, events);
    if p'.exited {
      var more :| p'.taken + p'.queue == p.taken + p.queue + more;
      UpToTheSentinel(p'.taken, p'.taken + p'.queue, ahead, more);
    }
  }
}
