/**
 The key-value store's operations over one table of values with optional deadlines, and the
 in-memory backend. Each reading of the clock is a parameter; a later reading is never earlier.
 Values are never None, as in the other backends.
 */
module Store {
  import opened Wrappers

  type Key = nat

  type Value = nat

  datatype Entry = Entry(value: Value, deadline: Option<real>)

  type Table = map<Key, Entry>

  predicate Alive(e: Entry, now: real) {
    e.deadline.None? || e.deadline.value > now
  }

  function Live(m: Table, now: real): Table {
    map k | k in m && Alive(m[k], now) :: m[k]
  }

  function ValueAt(m: Table, k: Key): Option<Value> {
    if k in m then Some(m[k].value) else None
  }

  datatype Op =
    | Get(key: Key)
    | Put(key: Key, value: Value)
    | Delete(key: Key)
    | PutIfAbsent(key: Key, value: Value)
    | PutIfAbsentUntil(key: Key, value: Value, expiresAt: real)
    | CompareAndSet(key: Key, expected: Option<Value>, replacement: Option<Value>)

  /** `Refused`: the given expiry is not in the future; `Full`: no room for another key. */
  datatype Reply = Found(value: Option<Value>) | Done | Flag(written: bool) | Refused | Full

  /** The clock readings of one operation: when an expiry is checked, and its first and second prune. */
  datatype Clock = Clock(checked: real, first: real, second: real)

  predicate Forward(c: Clock) {
    c.checked <= c.first <= c.second
  }

  predicate NoRoom(m: Table, k: Key, max: Option<nat>) {
    k !in m && max.Some? && |m| >= max.value
  }

  // ---------- What the in-memory operations do to the table ----------

  function AfterPut(m: Table, k: Key, v: Value, now: real, max: Option<nat>): (Table, Reply) {
    var live := Live(m, now);
    if NoRoom(live, k, max) then (live, Full) else (live[k := Entry(v, None)], Done)
  }

  function AfterPutIfAbsent(m: Table, k: Key, v: Value, until: Option<real>, c: Clock, max: Option<nat>)
    : (Table, Reply)
  {
    var live, later := Live(m, c.first), Live(m, c.second);
    if k in live then (live, Flag(false))
    else if NoRoom(later, k, max) then (later, Full)
    else (later[k := Entry(v, until)], Flag(true))
  }

  /** The value is compared after the first prune and written after the second. */
  function AfterCompareAndSet(m: Table, k: Key, expected: Option<Value>, replacement: Option<Value>, c: Clock,
                              max: Option<nat>): (Table, Reply)
  {
    var live, later := Live(m, c.first), Live(m, c.second);
    if ValueAt(live, k) != expected then (live, Flag(false))
    else if replacement.None? then (live - {k}, Flag(true))
    else if NoRoom(later, k, max) then (later, Full)
    else (later[k := Entry(replacement.value, if k in later then later[k].deadline else None)], Flag(true))
  }

  function After(m: Table, op: Op, c: Clock, max: Option<nat>): (Table, Reply) {
    match op
    case Get(k) => (Live(m, c.first), Found(ValueAt(Live(m, c.first), k)))
    case Put(k, v) => AfterPut(m, k, v, c.first, max)
    case Delete(k) => (m - {k}, Done)
    case PutIfAbsent(k, v) => AfterPutIfAbsent(m, k, v, None, c, max)
    case PutIfAbsentUntil(k, v, t) =>
      if t <= c.checked then (m, Refused) else AfterPutIfAbsent(m, k, v, Some(t), c, max)
    case CompareAndSet(k, x, v) => AfterCompareAndSet(m, k, x, v, c, max)
  }

  lemma LiveLater(m: Table, a: real, b: real)
    requires a <= b
    ensures Live(Live(m, a), b) == Live(m, b) && Live(m, b).Keys <= Live(m, a).Keys
  {
  }

  // ---------- Sizes and tables ----------

  lemma SubsetIsSmaller<T>(a: set<T>, b: set<T>)
    requires a <= b
    ensures |a| <= |b|
  {
    assert b == a + (b - a);
  }

  lemma FewerEntries<V>(m: map<Key, V>, fewer: map<Key, V>)
    requires fewer.Keys <= m.Keys
    ensures |fewer| <= |m|
  {
    SubsetIsSmaller(fewer.Keys, m.Keys);
  }

  lemma WrittenSize<V>(m: map<Key, V>, k: Key, v: V)
    ensures |m[k := v]| == |m| + (if k in m then 0 else 1)
  {
  }

  function TableOf(data: map<Key, Value>, deadlines: map<Key, real>): Table {
    map k | k in data :: Entry(data[k], if k in deadlines then Some(deadlines[k]) else None)
  }

  lemma TableOfKeys(data: map<Key, Value>, deadlines: map<Key, real>)
    ensures TableOf(data, deadlines).Keys == data.Keys && |TableOf(data, deadlines)| == |data|
  {
  }

  lemma TableOfLookup(data: map<Key, Value>, deadlines: map<Key, real>, k: Key)
    ensures ValueAt(TableOf(data, deadlines), k) == if k in data then Some(data[k]) else None
  {
  }

  lemma TableOfRemoval(data: map<Key, Value>, deadlines: map<Key, real>, k: Key)
    ensures TableOf(data - {k}, deadlines - {k}) == TableOf(data, deadlines) - {k}
  {
  }

  lemma TableOfWrite(data: map<Key, Value>, deadlines: map<Key, real>, k: Key, v: Value)
    requires deadlines.Keys <= data.Keys
    ensures var t := TableOf(data, deadlines);
            && TableOf(data[k := v], deadlines) == t[k := Entry(v, if k in t then t[k].deadline else None)]
            && TableOf(data[k := v], deadlines - {k}) == t[k := Entry(v, None)]
  {
  }

  lemma TableOfDeadline(data: map<Key, Value>, deadlines: map<Key, real>, k: Key, until: real)
    requires k in data
    ensures TableOf(data, deadlines[k := until]) == TableOf(data, deadlines)[k := Entry(data[k], Some(until))]
  {
  }

  /** What remains after pruning: keys without a deadline, and keys whose deadline is ahead. */
  lemma TableOfPruned(data: map<Key, Value>, deadlines: map<Key, real>, data': map<Key, Value>,
                      deadlines': map<Key, real>, now: real)
    requires forall k :: k in data' <==> k in data && (k in deadlines ==> deadlines[k] > now)
    requires forall k :: k in data' ==> data'[k] == data[k]
    requires forall k :: k in deadlines' <==> k in deadlines && deadlines[k] > now
    requires forall k :: k in deadlines' ==> deadlines'[k] == deadlines[k]
    ensures TableOf(data', deadlines') == Live(TableOf(data, deadlines), now)
  {
  }

  // ---------- MemoryStore ----------

  class MemoryStore {
    const maxEntries: Option<nat>
    var data: map<Key, Value>
    var deadlines: map<Key, real>

    /** Only stored keys have deadlines, and the cap is never exceeded. */
    ghost predicate Valid()
      reads this
    {
      deadlines.Keys <= data.Keys && (maxEntries.Some? ==> |data| <= maxEntries.value)
    }

    ghost function Contents(): Table
      reads this
    {
      TableOf(data, deadlines)
    }

    constructor (maxEntries: Option<nat>)
      requires maxEntries.Some? ==> maxEntries.value >= 1
      ensures Valid() && Contents() == map[] && this.maxEntries == maxEntries
    {
      this.maxEntries := maxEntries;
      data, deadlines := map[], map[];
    }

    method PruneExpired(now: real)
      requires Valid()
      modifies this
      ensures Valid() && Contents() == Live(old(Contents()), now) && data.Keys <= old(data.Keys)
    {
      hide TableOf, Live;
      var pending := deadlines.Keys;
      while pending != {}
        invariant pending <= deadlines.Keys && Valid()
        invariant data.Keys <= old(data.Keys) && deadlines.Keys <= old(deadlines.Keys)
        invariant forall k :: k in data ==> data[k] == old(data)[k]
        invariant forall k :: k in deadlines ==> deadlines[k] == old(deadlines)[k]
        invariant forall k :: k in old(data) && k !in data ==> k in old(deadlines) && old(deadlines)[k] <= now
        invariant forall k :: k in old(deadlines) && k !in deadlines ==> k !in data
        invariant forall k :: k in deadlines && k !in pending ==> deadlines[k] > now
        decreases |pending|
      {
        var key :| key in pending;
        pending := pending - {key};
        if deadlines[key] <= now {
          FewerEntries(data, data - {key});
          data := data - {key};
          deadlines := deadlines - {key};
        }
      }
      TableOfPruned(old(data), old(deadlines), data, deadlines, now);
    }

    /** Room for the key after pruning; otherwise the write fails. */
    method CheckCapacity(key: Key, now: real) returns (room: bool)
      requires Valid()
      modifies this
      ensures Valid() && Contents() == Live(old(Contents()), now)
      ensures room <==> !NoRoom(Contents(), key, maxEntries)
    {
      PruneExpired(now);
      TableOfKeys(data, deadlines);
      hide TableOf, Live;
      room := key in data || maxEntries.None? || |data| < maxEntries.value;
    }

    method Get(key: Key, now: real) returns (value: Option<Value>)
      requires Valid()
      modifies this
      ensures Valid()
      ensures (Contents(), Found(value)) == After(old(Contents()), Op.Get(key), Clock(now, now, now), maxEntries)
    {
      PruneExpired(now);
      TableOfLookup(data, deadlines, key);
      hide TableOf, Live;
      value := if key in data then Some(data[key]) else None;
    }

    method Put(key: Key, value: Value, now: real) returns (reply: Reply)
      requires Valid()
      modifies this
      ensures Valid()
      ensures (Contents(), reply) == After(old(Contents()), Op.Put(key, value), Clock(now, now, now), maxEntries)
    {
      hide TableOf, Live;
      var room := CheckCapacity(key, now);
      if !room {
        return Full;
      }
      TableOfKeys(data, deadlines);
      TableOfWrite(data, deadlines, key, value);
      WrittenSize(data, key, value);
      data := data[key := value];
      deadlines := deadlines - {key};
      reply := Done;
    }

    method Delete(key: Key)
      requires Valid()
      modifies this
      ensures Valid() && Contents() == old(Contents()) - {key}
    {
      hide TableOf;
      TableOfRemoval(data, deadlines, key);
      FewerEntries(data, data - {key});
      data := data - {key};
      deadlines := deadlines - {key};
    }

    method PutIfAbsent(key: Key, value: Value, c: Clock) returns (reply: Reply)
      requires Valid() && Forward(c)
      modifies this
      ensures Valid()
      ensures (Contents(), reply) == After(old(Contents()), Op.PutIfAbsent(key, value), c, maxEntries)
      ensures reply == Flag(true) ==> key !in deadlines && key in data
    {
      hide TableOf, Live;
      LiveLater(Contents(), c.first, c.second);
      PruneExpired(c.first);
      TableOfKeys(data, deadlines);
      if key in data {
        return Flag(false);
      }
      var room := CheckCapacity(key, c.second);
      if !room {
        return Full;
      }
      TableOfKeys(data, deadlines);
      assert key !in data;
      TableOfWrite(data, deadlines, key, value);
      WrittenSize(data, key, value);
      data := data[key := value];
      reply := Flag(true);
    }

    method PutIfAbsentUntil(key: Key, value: Value, expiresAt: real, c: Clock) returns (reply: Reply)
      requires Valid() && Forward(c)
      modifies this
      ensures Valid()
      ensures (Contents(), reply) == After(old(Contents()), Op.PutIfAbsentUntil(key, value, expiresAt), c, maxEntries)
    {
      hide TableOf, Live;
      if expiresAt <= c.checked {
        return Refused;
      }
      reply := PutIfAbsent(key, value, c);
      if reply == Flag(true) {
        TableOfDeadline(data, deadlines, key, expiresAt);
        TableOfLookup(data, deadlines, key);
        assert Contents()[key := Entry(value, Some(expiresAt))]
            == Live(old(Contents()), c.second)[key := Entry(value, Some(expiresAt))];
        deadlines := deadlines[key := expiresAt];
      }
    }

    method CompareAndSet(key: Key, expected: Option<Value>, replacement: Option<Value>, c: Clock)
      returns (reply: Reply)
      requires Valid() && Forward(c)
      modifies this
      ensures Valid()
      ensures (Contents(), reply)
              == After(old(Contents()), Op.CompareAndSet(key, expected, replacement), c, maxEntries)
    {
      hide TableOf, Live;
      LiveLater(Contents(), c.first, c.second);
      PruneExpired(c.first);
      TableOfLookup(data, deadlines, key);
      if (if key in data then Some(data[key]) else None) != expected {
        return Flag(false);
      }
      if replacement.None? {
        Delete(key);
        return Flag(true);
      }
      var room := CheckCapacity(key, c.second);
      if !room {
        return Full;
      }
      TableOfKeys(data, deadlines);
      TableOfWrite(data, deadlines, key, replacement.value);
      WrittenSize(data, key, replacement.value);
      data := data[key := replacement.value];
      reply := Flag(true);
    }
  }

  // ---------- What the table keeps ----------

  predicate Removes(op: Op, k: Key) {
    op == Delete(k) || (op.CompareAndSet? && op.key == k && op.replacement.None?)
  }

  /** No live key is evicted: only a deletion removes it, and only a write to it changes it. */
  lemma NoLiveKeyIsEvicted(m: Table, op: Op, c: Clock, max: Option<nat>, k: Key)
    requires Forward(c) && k in m && Alive(m[k], c.second)
    ensures var m' := After(m, op, c, max).0;
            && (!Removes(op, k) ==> k in m')
            && (op.key != k || op.Get? || op.PutIfAbsent? || op.PutIfAbsentUntil? ==> k in m' && m'[k] == m[k])
  {
  }

  lemma PutFits(m: Table, k: Key, e: Entry, now: real, max: nat)
    requires |m| <= max
    ensures |Live(m, now)| <= max && |Live(m, now) - {k}| <= max
    ensures !NoRoom(Live(m, now), k, Some(max)) ==> |Live(m, now)[k := e]| <= max
  {
    LiveIsSmaller(m, now);
    hide Live;
    FewerEntries(Live(m, now), Live(m, now) - {k});
    WrittenSize(Live(m, now), k, e);
  }

  /** The cap holds after every operation. */
  lemma CapIsKept(m: Table, op: Op, c: Clock, max: nat)
    requires Forward(c) && |m| <= max
    ensures |After(m, op, c, Some(max)).0| <= max
  {
    hide Live, NoRoom, Alive, ValueAt, AfterCompareAndSet;
    var k := op.key;
    PutFits(m, k, Entry(0, None), c.first, max);
    match op
    case Get(_) =>
    case Put(_, v) => PutFits(m, k, Entry(v, None), c.first, max);
    case Delete(_) => FewerEntries(m, m - {k});
    case PutIfAbsent(_, v) => PutFits(m, k, Entry(v, None), c.second, max);
    case PutIfAbsentUntil(_, v, t) => PutFits(m, k, Entry(v, Some(t)), c.second, max);
    case CompareAndSet(_, x, v) => CapAfterCompare(m, k, x, v, c, max);
  }

  lemma CapAfterCompare(m: Table, k: Key, x: Option<Value>, v: Option<Value>, c: Clock, max: nat)
    requires |m| <= max
    ensures |AfterCompareAndSet(m, k, x, v, c, Some(max)).0| <= max
  {
    hide Live, NoRoom, Alive, ValueAt;
    var later := Live(m, c.second);
    PutFits(m, k, Entry(0, None), c.first, max);
    PutFits(m, k, Entry(v.GetOr(0), if k in later then later[k].deadline else None), c.second, max);
  }

  lemma LiveIsSmaller(m: Table, now: real)
    ensures |Live(m, now)| <= |m|
  {
    FewerEntries(m, Live(m, now));
  }

  /**
   A write is refused only for lack of room, and what is written is there to be read: by a put
   always, by an insertion if the key is free, by a comparison if the value is the one expected.
   */
  lemma WritesAreRead(m: Table, op: Op, c: Clock, max: Option<nat>, v: Value)
    requires Forward(c)
    requires op == Put(op.key, v) || op == PutIfAbsent(op.key, v) || (op.CompareAndSet? && op.replacement == Some(v))
    ensures var k, now := op.key, if op.Put? then c.first else c.second;
            var (m', reply) := After(m, op, c, max);
            var allowed := match op
                           case PutIfAbsent(_, _) => k !in m || !Alive(m[k], c.first)
                           case CompareAndSet(_, x, _) =>
                             x == if k in m && Alive(m[k], c.first) then Some(m[k].value) else None
                           case _ => true;
            var room := max.None? || (k in m && Alive(m[k], now)) || |Live(m, now)| < max.value;
            && (reply == Done || reply == Flag(true) <==> allowed && room)
            && (reply == Full <==> allowed && !room)
            && (allowed && room ==> k in m' && m'[k].value == v && forall j :: j != k ==> (j in m' <==> j in Live(m, now)))
  {
  }

  /** A run of operations: the tables between them. */
  ghost predicate IsRun(tables: seq<Table>, ops: seq<Op>, clocks: seq<Clock>, max: Option<nat>) {
    && |tables| == |ops| + 1 && |clocks| == |ops|
    && (forall i :: 0 <= i < |ops| ==> Forward(clocks[i]))
    && (forall i :: 0 <= i < |ops| ==> tables[i + 1] == After(tables[i], ops[i], clocks[i], max).0)
  }

  ghost function ReplyAt(tables: seq<Table>, ops: seq<Op>, clocks: seq<Clock>, max: Option<nat>, i: nat): Reply
    requires IsRun(tables, ops, clocks, max) && i < |ops|
  {
    After(tables[i], ops[i], clocks[i], max).1
  }

  lemma PermanentStays(m: Table, op: Op, c: Clock, max: Option<nat>, k: Key)
    requires Forward(c) && k in m && m[k].deadline.None? && !Removes(op, k)
    ensures var m' := After(m, op, c, max).0;
            k in m' && m'[k].deadline.None?
  {
  }

  lemma {:induction false} ClaimStays(tables: seq<Table>, ops: seq<Op>, clocks: seq<Clock>, max: Option<nat>,
                                      k: Key, i: nat, j: nat)
    requires IsRun(tables, ops, clocks, max) && i < j <= |ops|
    requires ops[i].PutIfAbsent? && ops[i].key == k && ReplyAt(tables, ops, clocks, max, i) == Flag(true)
    requires forall n :: i < n < j ==> !Removes(ops[n], k)
    ensures k in tables[j] && tables[j][k].deadline.None?
  {
    if j > i + 1 {
      ClaimStays(tables, ops, clocks, max, k, i, j - 1);
      PermanentStays(tables[j - 1], ops[j - 1], clocks[j - 1], max, k);
      hide After;
    }
  }

  /** A successful claim stays protected until it is deleted: a second one never succeeds. */
  lemma ClaimIsProtected(tables: seq<Table>, ops: seq<Op>, clocks: seq<Clock>, max: Option<nat>, i: nat, j: nat)
    requires IsRun(tables, ops, clocks, max) && i < j < |ops|
    requires ops[i].PutIfAbsent? && ReplyAt(tables, ops, clocks, max, i) == Flag(true)
    requires forall n :: i < n < j ==> !Removes(ops[n], ops[i].key)
    requires ops[j].PutIfAbsent? && ops[j].key == ops[i].key
    ensures ReplyAt(tables, ops, clocks, max, j) == Flag(false)
  {
    ClaimStays(tables, ops, clocks, max, ops[i].key, i, j);
  }

  // ---------- The expiry of a compared value ----------

  /** The key expires between the operation's two prunes. */
  predicate Crosses(m: Table, k: Key, c: Clock) {
    k in m && m[k].deadline.Some? && c.first < m[k].deadline.value <= c.second
  }

  /**
   An existing key is promised to keep its expiry. It does exactly if the key does not expire
   between the two prunes; otherwise the new value is stored for good.
   */
  lemma ExpiryIsKeptExactly(m: Table, k: Key, expected: Value, replacement: Value, c: Clock)
    requires Forward(c) && ValueAt(Live(m, c.first), k) == Some(expected)
    ensures var (m', reply) := After(m, CompareAndSet(k, Some(expected), Some(replacement)), c, None);
            && reply == Flag(true) && k in m' && m'[k].value == replacement
            && (m'[k].deadline == m[k].deadline <==> !Crosses(m, k, c))
            && (Crosses(m, k, c) ==> m'[k].deadline.None?)
  {
  }

  /** A value written one second after the deadline of the value it replaced never expires. */
  lemma ExpiryIsLost()
    ensures var m: Table := map[0 := Entry(1, Some(10.0))];
            var (m', _) := After(m, CompareAndSet(0, Some(1), Some(2)), Clock(9.0, 9.0, 11.0), None);
            forall now: real :: Live(m', now) == map[0 := Entry(2, None)]
  {
  }
}
