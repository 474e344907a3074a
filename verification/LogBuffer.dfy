/** The frontend's log stream: a ring buffer of the most recent entries, and the store's version
    counter that tells its readers when to look again. */
module LogBuffer {

  /** The last `n` items, or all if there are fewer. */
  function LastN<T>(s: seq<T>, n: nat): seq<T> {
    if |s| <= n then s else s[|s| - n..]
  }

  lemma ModOnce(x: nat, capacity: nat)
    requires 0 < capacity && x < 2 * capacity
    ensures x % capacity == if x < capacity then x else x - capacity
  {
  }

  /** Where the `i`-th item from `head` is kept. */
  function Slot(head: nat, i: nat, capacity: nat): (slot: nat)
    requires head < capacity && i <= capacity
    ensures slot == if head + i < capacity then head + i else head + i - capacity
    ensures slot < capacity
  {
    ModOnce(head + i, capacity);
    (head + i) % capacity
  }

  class RingBuffer<T(0)> {
    const capacity: nat
    const items: array<T>
    var head: nat
    var count: nat

    ghost predicate Valid()
      reads this
    {
      0 < capacity == items.Length && head < capacity && count <= capacity
    }

    /** The entries, oldest first. */
    ghost function Contents(): seq<T>
      requires Valid()
      reads this, items
    {
      seq(count, i requires 0 <= i < count && Valid() reads this, items => items[Slot(head, i, capacity)])
    }

    constructor (capacity: nat)
      requires capacity > 0
      ensures Valid() && fresh(items) && this.capacity == capacity && Contents() == []
    {
      this.capacity := capacity;
      items := new T[capacity];
      head, count := 0, 0;
    }

    /** Overwrites the oldest entry when full. */
    method Push(item: T)
      requires Valid()
      modifies this, items
      ensures Valid() && Contents() == LastN(old(Contents()) + [item], capacity)
    {
      ghost var before := Contents();
      var slot := Slot(head, count, capacity);
      items[slot] := item;
      if count < capacity {
        count := count + 1;
        assert Contents() == before + [item];
      } else {
        head := Slot(head, 1, capacity);
        assert Contents() == (before + [item])[1..];
      }
    }

    method ToArray() returns (result: seq<T>)
      requires Valid()
      ensures result == Contents()
    {
      var r := new T[count];
      for i := 0 to count
        invariant fresh(r) && forall j | 0 <= j < i :: r[j] == items[Slot(head, j, capacity)]
      {
        r[i] := items[Slot(head, i, capacity)];
      }
      result := r[..];
    }

    method Clear()
      requires Valid()
      modifies this
      ensures Valid() && Contents() == []
    {
      head := 0;
      count := 0;
    }
  }

  // ----- The store -----

  datatype Op<T> = PushLog(entry: T) | ClearLogs | HandleWsConnected(isReconnect: bool)

  datatype LogState<T> = LogState(version: nat, entries: seq<T>)

  function Apply<T>(capacity: nat, s: LogState<T>, op: Op<T>): LogState<T> {
    match op
    case PushLog(e) => LogState(s.version + 1, LastN(s.entries + [e], capacity))
    case ClearLogs => LogState(s.version + 1, [])
    case HandleWsConnected(isReconnect) => if isReconnect then LogState(s.version + 1, []) else s
  }

  function Run<T>(capacity: nat, s: LogState<T>, ops: seq<Op<T>>): LogState<T> {
    if ops == [] then s else Apply(capacity, Run(capacity, s, ops[..|ops| - 1]), ops[|ops| - 1])
  }

  const LOG_BUFFER_CAPACITY := 1000

  /** The log part of the application store. */
  class LogStore<T(0)> {
    var logBuffer: RingBuffer<T>
    var logVersion: nat

    ghost predicate Valid()
      reads this, logBuffer, logBuffer.items
    {
      logBuffer.Valid() && logBuffer.capacity == LOG_BUFFER_CAPACITY
    }

    ghost function State(): LogState<T>
      requires Valid()
      reads this, logBuffer, logBuffer.items
    {
      LogState(logVersion, logBuffer.Contents())
    }

    constructor ()
      ensures Valid() && State() == LogState(0, []) && fresh(logBuffer) && fresh(logBuffer.items)
    {
      logBuffer := new RingBuffer(LOG_BUFFER_CAPACITY);
      logVersion := 0;
    }

    method Push(entry: T)
      requires Valid()
      modifies this`logVersion, logBuffer, logBuffer.items
      ensures Valid() && State() == Apply(LOG_BUFFER_CAPACITY, old(State()), PushLog(entry))
    {
      logBuffer.Push(entry);
      logVersion := logVersion + 1;
    }

    method Clear()
      requires Valid()
      modifies this`logVersion, logBuffer
      ensures Valid() && State() == Apply(LOG_BUFFER_CAPACITY, old(State()), ClearLogs)
    {
      logBuffer.Clear();
      logVersion := logVersion + 1;
    }

    /** A reconnect starts a new buffer; a first connect leaves the logs alone. */
    method Connected(isReconnect: bool)
      requires Valid()
      modifies this
      ensures Valid() && State() == Apply(LOG_BUFFER_CAPACITY, old(State()), HandleWsConnected(isReconnect))
      ensures logBuffer == old(logBuffer) || (fresh(logBuffer) && fresh(logBuffer.items))
    {
      if isReconnect {
        logBuffer := new RingBuffer(LOG_BUFFER_CAPACITY);
        logVersion := logVersion + 1;
      }
    }

    method GetLogEntries() returns (entries: seq<T>)
      requires Valid()
      ensures entries == State().entries
    {
      entries := logBuffer.ToArray();
    }
  }

  // ----- Whole runs -----

  /** What was pushed since the last clear or reconnect. */
  ghost function SinceClear<T>(ops: seq<Op<T>>): seq<T> {
    if ops == [] then []
    else
      match ops[|ops| - 1]
      case PushLog(e) => SinceClear(ops[..|ops| - 1]) + [e]
      case ClearLogs => []
      case HandleWsConnected(isReconnect) => if isReconnect then [] else SinceClear(ops[..|ops| - 1])
  }

  lemma LastNOfLastN<T>(s: seq<T>, x: T, n: nat)
    ensures LastN(LastN(s, n) + [x], n) == LastN(s + [x], n)
  {
  }

  /** The store shows the most recent entries since the last clear, in order. */
  lemma {:induction false} ShowsTheMostRecent<T>(capacity: nat, ops: seq<Op<T>>)
    ensures Run(capacity, LogState(0, []), ops).entries == LastN(SinceClear(ops), capacity)
  {
    if ops != [] {
      var init := ops[..|ops| - 1];
      ShowsTheMostRecent(capacity, init);
      if ops[|ops| - 1].PushLog? {
        LastNOfLastN(SinceClear(init), ops[|ops| - 1].entry, capacity);
      }
    }
  }

  /** With the capacity of the store that is the last thousand. */
  lemma ShowsTheLastThousand<T>(ops: seq<Op<T>>)
    ensures var all, shown := SinceClear(ops), Run(LOG_BUFFER_CAPACITY, LogState(0, []), ops).entries;
            shown == if |all| <= 1000 then all else all[|all| - 1000..]
  {
    ShowsTheMostRecent(LOG_BUFFER_CAPACITY, ops);
  }

  /** A first connect is the only operation that leaves the log alone. */
  predicate Touches<T>(op: Op<T>) { !op.HandleWsConnected? || op.isReconnect }

  ghost function Touching<T>(ops: seq<Op<T>>): nat {
    if ops == [] then 0 else Touching(ops[..|ops| - 1]) + if Touches(ops[|ops| - 1]) then 1 else 0
  }

  /** The version counts the operations that touch the log, so readers are not told to look for nothing. */
  lemma {:induction false} VersionCounts<T>(capacity: nat, ops: seq<Op<T>>)
    ensures Run(capacity, LogState(0, []), ops).version == Touching(ops)
  {
    if ops != [] {
      VersionCounts(capacity, ops[..|ops| - 1]);
    }
  }

  /** The version never goes down, and as long as it stays the same the entries do. */
  lemma {:induction false} VersionIsSound<T>(capacity: nat, s: LogState<T>, ops: seq<Op<T>>, n: nat)
    requires n <= |ops|
    ensures var early, late := Run(capacity, s, ops[..n]), Run(capacity, s, ops);
            && early.version <= late.version
            && (early.version == late.version ==> early.entries == late.entries)
  {
    if n == |ops| {
      assert ops[..n] == ops;
    } else {
      assert ops[..|ops| - 1][..n] == ops[..n];
      VersionIsSound(capacity, s, ops[..|ops| - 1], n);
    }
  }
}
