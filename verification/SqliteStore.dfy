/**
 The SQLite backend: a table of rows with an expiry each, where rows that never expire carry a
 far sentinel. It is compared with the in-memory backend run on the same operations and clock.
 */
module SqliteStore {
  import opened Wrappers
  import opened Store

  const NO_TTL_EXPIRES_AT := 253402300799.0

  datatype Row = Row(value: Value, expiresAt: real)

  type Rows = map<Key, Row>

  function Unexpired(rows: Rows, now: real): Rows {
    map k | k in rows && rows[k].expiresAt > now :: rows[k]
  }

  function RowValue(rows: Rows, k: Key): Option<Value> {
    if k in rows then Some(rows[k].value) else None
  }

  function ExpiresAt(ttl: Option<int>, now: real): real {
    if ttl.None? then NO_TTL_EXPIRES_AT else now + ttl.value as real
  }

  function AfterInsert(rows: Rows, k: Key, v: Value, expiresAt: real, now: real): (Rows, Reply) {
    var live := Unexpired(rows, now);
    if k in live then (live, Flag(false)) else (live[k := Row(v, expiresAt)], Flag(true))
  }

  function AfterExchange(rows: Rows, k: Key, expected: Option<Value>, replacement: Option<Value>, c: Clock)
    : (Rows, Reply)
  {
    var live := Unexpired(rows, c.first);
    if expected.None? && replacement.None? then (live, Flag(k !in Unexpired(live, c.second)))
    else if RowValue(live, k) != expected then (live, Flag(false))
    else if replacement.None? then (live - {k}, Flag(true))
    else (live[k := Row(replacement.value, if k in live then live[k].expiresAt else NO_TTL_EXPIRES_AT)], Flag(true))
  }

  /** The rows and the reply after an operation; the second reading dates a row with a TTL. */
  function AfterRows(rows: Rows, op: Op, c: Clock, ttl: Option<int>): (Rows, Reply) {
    match op
    case Get(k) => (rows, Found(RowValue(Unexpired(rows, c.first), k)))
    case Put(k, v) => (Unexpired(rows, c.first)[k := Row(v, ExpiresAt(ttl, c.second))], Done)
    case Delete(k) => (rows - {k}, Done)
    case PutIfAbsent(k, v) => AfterInsert(rows, k, v, NO_TTL_EXPIRES_AT, c.first)
    case PutIfAbsentUntil(k, v, t) =>
      if t <= c.checked then (rows, Refused) else AfterInsert(rows, k, v, t, c.first)
    case CompareAndSet(k, x, v) => AfterExchange(rows, k, x, v, c)
  }

  // ---------- SQLiteStore ----------

  class SQLiteStore {
    const ttl: Option<int>
    // The kv table.
    var kv: Rows

    constructor (ttl: Option<int>)
      ensures kv == map[] && this.ttl == ttl
    {
      this.ttl := ttl;
      kv := map[];
    }

    method PruneExpired(now: real)
      modifies this
      ensures kv == Unexpired(old(kv), now)
    {
      kv := map k | k in kv && kv[k].expiresAt > now :: kv[k];
    }

    /** INSERT OR IGNORE: the number of rows written. */
    method InsertOrIgnore(key: Key, value: Value, expiresAt: real) returns (rowcount: nat)
      modifies this
      ensures rowcount == if key in old(kv) then 0 else 1
      ensures kv == if key in old(kv) then old(kv) else old(kv)[key := Row(value, expiresAt)]
    {
      if key in kv {
        return 0;
      }
      kv := kv[key := Row(value, expiresAt)];
      rowcount := 1;
    }

    method Get(key: Key, now: real) returns (value: Option<Value>)
      ensures (kv, Found(value)) == AfterRows(kv, Op.Get(key), Clock(now, now, now), ttl)
    {
      if key in kv && kv[key].expiresAt > now {
        return Some(kv[key].value);
      }
      return None;
    }

    method Put(key: Key, value: Value, c: Clock)
      modifies this
      ensures (kv, Done) == AfterRows(old(kv), Op.Put(key, value), c, ttl)
    {
      PruneExpired(c.first);
      kv := kv[key := Row(value, ExpiresAt(ttl, c.second))];
    }

    method Delete(key: Key)
      modifies this
      ensures kv == old(kv) - {key}
    {
      kv := kv - {key};
    }

    method PutIfAbsent(key: Key, value: Value, c: Clock) returns (written: bool)
      modifies this
      ensures (kv, Flag(written)) == AfterRows(old(kv), Op.PutIfAbsent(key, value), c, ttl)
    {
      PruneExpired(c.first);
      var rowcount := InsertOrIgnore(key, value, NO_TTL_EXPIRES_AT);
      written := rowcount > 0;
    }

    method PutIfAbsentUntil(key: Key, value: Value, expiresAt: real, c: Clock) returns (reply: Reply)
      modifies this
      ensures (kv, reply) == AfterRows(old(kv), Op.PutIfAbsentUntil(key, value, expiresAt), c, ttl)
    {
      if expiresAt <= c.checked {
        return Refused;
      }
      PruneExpired(c.first);
      var rowcount := InsertOrIgnore(key, value, expiresAt);
      reply := Flag(rowcount > 0);
    }

    method CompareAndSet(key: Key, expected: Option<Value>, replacement: Option<Value>, c: Clock)
      returns (written: bool)
      modifies this
      ensures (kv, Flag(written)) == AfterRows(old(kv), Op.CompareAndSet(key, expected, replacement), c, ttl)
    {
      PruneExpired(c.first);
      if expected.None? && replacement.None? {
        var found := Get(key, c.second);
        return found.None?;
      }
      if expected.None? {
        var rowcount := InsertOrIgnore(key, replacement.value, NO_TTL_EXPIRES_AT);
        return rowcount > 0;
      }
      // DELETE or UPDATE of the row with this key and value.
      written := key in kv && kv[key].value == expected.value;
      if written {
        if replacement.None? {
          kv := kv - {key};
        } else {
          kv := kv[key := Row(replacement.value, kv[key].expiresAt)];
        }
      }
    }
  }

  // ---------- Both backends ----------

  function RowOf(e: Entry): Row {
    Row(e.value, e.deadline.GetOr(NO_TTL_EXPIRES_AT))
  }

  ghost predicate SameAt(m: Table, rows: Rows, now: real, k: Key) {
    (k in m && Alive(m[k], now)) || (k in rows && rows[k].expiresAt > now) ==>
      k in m && k in rows && rows[k] == RowOf(m[k])
  }

  /** At this time and at any later one before the sentinel, the backends hold the same live keys. */
  ghost predicate Same(m: Table, rows: Rows, now: real) {
    forall k :: SameAt(m, rows, now, k)
  }

  lemma SameLater(m: Table, rows: Rows, a: real, b: real)
    requires Same(m, rows, a) && a <= b < NO_TTL_EXPIRES_AT
    ensures Same(m, rows, b)
  {
    forall k ensures SameAt(m, rows, b, k) {
      assert SameAt(m, rows, a, k);
    }
  }

  lemma PrunedSame(m: Table, rows: Rows, now: real, a: real, b: real)
    requires Same(m, rows, now) && now <= a <= b < NO_TTL_EXPIRES_AT
    ensures Same(Live(m, a), Unexpired(rows, a), b) && Same(Live(m, b), Unexpired(rows, a), b)
    ensures Same(Live(m, a), rows, b)
    ensures forall k :: k in Live(m, a) <==> k in Unexpired(rows, a)
    ensures forall k :: k in Live(m, a) ==> Unexpired(rows, a)[k] == RowOf(m[k])
  {
    forall k
      ensures SameAt(Live(m, a), Unexpired(rows, a), b, k) && SameAt(Live(m, b), Unexpired(rows, a), b, k)
      ensures SameAt(Live(m, a), rows, b, k)
      ensures k in Live(m, a) <==> k in Unexpired(rows, a)
      ensures k in Live(m, a) ==> Unexpired(rows, a)[k] == RowOf(m[k])
    {
      assert SameAt(m, rows, now, k);
    }
  }

  lemma WrittenSame(m: Table, rows: Rows, now: real, k: Key, e: Entry)
    requires Same(m, rows, now)
    ensures Same(m[k := e], rows[k := RowOf(e)], now)
  {
    var m', rows' := m[k := e], rows[k := RowOf(e)];
    forall j ensures SameAt(m', rows', now, j) {
      assert SameAt(m, rows, now, j);
    }
  }

  lemma RemovedSame(m: Table, rows: Rows, now: real, k: Key)
    requires Same(m, rows, now)
    ensures Same(m - {k}, rows - {k}, now)
  {
    forall j ensures SameAt(m - {k}, rows - {k}, now, j) {
      assert SameAt(m, rows, now, j);
    }
  }

  /** The operation compares a value, or two absences, of a key that expires between its two readings. */
  predicate Differs(m: Table, op: Op, c: Clock) {
    && op.CompareAndSet? && Crosses(m, op.key, c)
    && (if op.replacement.None? then op.expected.None? else op.expected == Some(m[op.key].value))
  }

  lemma ExchangesAgree(m: Table, rows: Rows, op: Op, c: Clock)
    requires Forward(c) && c.second < NO_TTL_EXPIRES_AT && Same(m, rows, c.checked)
    requires op.CompareAndSet? && !Differs(m, op, c)
    ensures var (m', reply) := AfterCompareAndSet(m, op.key, op.expected, op.replacement, c, None);
            var (rows', answer) := AfterExchange(rows, op.key, op.expected, op.replacement, c);
            reply == answer && Same(m', rows', c.second)
  {
    var k, live, later, kept := op.key, Live(m, c.first), Live(m, c.second), Unexpired(rows, c.first);
    PrunedSame(m, rows, c.checked, c.first, c.second);
    assert ValueAt(live, k) == RowValue(kept, k);
    assert k in live ==> (k in Unexpired(kept, c.second) <==> !Crosses(m, k, c));
    assert k in later ==> k in live && later[k] == live[k];
    hide Live, Unexpired, Same, SameAt;
    if ValueAt(live, k) == op.expected {
      if op.replacement.None? {
        RemovedSame(live, kept, c.second, k);
        assert k !in live ==> live - {k} == live && kept - {k} == kept;
      } else {
        WrittenSame(later, kept, c.second, k, Entry(op.replacement.value, if k in later then later[k].deadline else None));
      }
    }
  }

  lemma ExchangesDiffer(m: Table, rows: Rows, op: Op, c: Clock)
    requires Forward(c) && c.second < NO_TTL_EXPIRES_AT && Same(m, rows, c.checked) && Differs(m, op, c)
    ensures var (m', reply) := AfterCompareAndSet(m, op.key, op.expected, op.replacement, c, None);
            var (rows', answer) := AfterExchange(rows, op.key, op.expected, op.replacement, c);
            reply != answer || !Same(m', rows', c.second)
  {
    assert SameAt(m, rows, c.checked, op.key);
    var m' := AfterCompareAndSet(m, op.key, op.expected, op.replacement, c, None).0;
    var rows' := AfterExchange(rows, op.key, op.expected, op.replacement, c).0;
    assert op.replacement.Some? ==> !SameAt(m', rows', c.second, op.key);
  }

  /**
   On a single operation before the sentinel, without a cap or a TTL, both backends reply alike and
   go on alike exactly if the operation is not a comparison that its key's expiry interrupts.
   */
  lemma OperationsAgreeExactly(m: Table, rows: Rows, op: Op, c: Clock)
    requires Forward(c) && c.second < NO_TTL_EXPIRES_AT && Same(m, rows, c.checked)
    ensures var (m', reply) := After(m, op, c, None);
            var (rows', answer) := AfterRows(rows, op, c, None);
            reply == answer && Same(m', rows', c.second) <==> !Differs(m, op, c)
  {
    SameLater(m, rows, c.checked, c.second);
    PrunedSame(m, rows, c.checked, c.first, c.second);
    var k, live, later, kept := op.key, Live(m, c.first), Live(m, c.second), Unexpired(rows, c.first);
    assert ValueAt(live, k) == RowValue(kept, k);
    hide Live, Unexpired, Same, AfterCompareAndSet, AfterExchange;
    match op
    case Get(_) =>
    case Put(_, v) => WrittenSame(live, kept, c.second, k, Entry(v, None));
    case Delete(_) => RemovedSame(m, rows, c.second, k);
    case PutIfAbsent(_, v) => WrittenSame(later, kept, c.second, k, Entry(v, None));
    case PutIfAbsentUntil(_, v, t) => WrittenSame(later, kept, c.second, k, Entry(v, Some(t)));
    case CompareAndSet(_, _, _) =>
      if Differs(m, op, c) {
        ExchangesDiffer(m, rows, op, c);
      } else {
        ExchangesAgree(m, rows, op, c);
      }
  }

  // ---------- Runs of both backends ----------

  /** One clock for a whole run: no reading is earlier than the one before, and all precede the sentinel. */
  ghost predicate Steady(clocks: seq<Clock>) {
    && (forall i :: 0 <= i < |clocks| ==> Forward(clocks[i]) && clocks[i].second < NO_TTL_EXPIRES_AT)
    && (forall i :: 0 < i < |clocks| ==> clocks[i - 1].second <= clocks[i].checked)
  }

  ghost predicate IsRowRun(rows: seq<Rows>, ops: seq<Op>, clocks: seq<Clock>, ttl: Option<int>) {
    && |rows| == |ops| + 1 && |clocks| == |ops|
    && forall i :: 0 <= i < |ops| ==> rows[i + 1] == AfterRows(rows[i], ops[i], clocks[i], ttl).0
  }

  lemma {:induction false} RunsStaySame(tables: seq<Table>, rows: seq<Rows>, ops: seq<Op>, clocks: seq<Clock>, i: nat)
    requires IsRun(tables, ops, clocks, None) && IsRowRun(rows, ops, clocks, None) && Steady(clocks)
    requires tables[0] == map[] && rows[0] == map[] && i < |ops|
    requires forall j :: 0 <= j < i ==> !Differs(tables[j], ops[j], clocks[j])
    ensures Same(tables[i], rows[i], clocks[i].checked)
  {
    if i > 0 {
      RunsStaySame(tables, rows, ops, clocks, i - 1);
      OperationsAgreeExactly(tables[i - 1], rows[i - 1], ops[i - 1], clocks[i - 1]);
      SameLater(tables[i], rows[i], clocks[i - 1].second, clocks[i].checked);
    }
  }

  /**
   Without a cap or a TTL and before the sentinel, both backends give the same reply to every
   operation of a run, as long as none compares a key that expires during the comparison.
   */
  lemma BackendsAgree(tables: seq<Table>, rows: seq<Rows>, ops: seq<Op>, clocks: seq<Clock>, i: nat)
    requires IsRun(tables, ops, clocks, None) && IsRowRun(rows, ops, clocks, None) && Steady(clocks)
    requires tables[0] == map[] && rows[0] == map[] && i < |ops|
    requires forall j :: 0 <= j <= i ==> !Differs(tables[j], ops[j], clocks[j])
    ensures After(tables[i], ops[i], clocks[i], None).1 == AfterRows(rows[i], ops[i], clocks[i], None).1
  {
    RunsStaySame(tables, rows, ops, clocks, i);
    OperationsAgreeExactly(tables[i], rows[i], ops[i], clocks[i]);
  }

  // ---------- How long a row lasts ----------

  /** The operation writes the key's row anew: when that row then expires. */
  function WrittenUntil(rows: Rows, op: Op, c: Clock, ttl: Option<int>, k: Key): Option<real> {
    if op.key != k then None
    else
      match op
      case Put(_, _) => Some(ExpiresAt(ttl, c.second))
      case PutIfAbsent(_, _) => if AfterRows(rows, op, c, ttl).1 == Flag(true) then Some(NO_TTL_EXPIRES_AT) else None
      case PutIfAbsentUntil(_, _, t) => if AfterRows(rows, op, c, ttl).1 == Flag(true) then Some(t) else None
      case CompareAndSet(_, expected, replacement) =>
        if expected.None? && replacement.Some? && AfterRows(rows, op, c, ttl).1 == Flag(true)
        then Some(NO_TTL_EXPIRES_AT)
        else None
      case _ => None
  }

  /** The operation leaves the key's row and its expiry alone, but for its value or for pruning it. */
  predicate Spares(rows: Rows, op: Op, c: Clock, ttl: Option<int>, k: Key) {
    || op.key != k || op.Get?
    || (op.CompareAndSet? && (op.expected.Some? <==> op.replacement.Some?))
    || (!op.Put? && !op.Delete? && AfterRows(rows, op, c, ttl).1 in {Flag(false), Refused})
  }

  /** No clock reading is earlier than the one before. */
  ghost predicate Ordered(clocks: seq<Clock>) {
    && (forall i :: 0 <= i < |clocks| ==> Forward(clocks[i]))
    && forall i, j :: 0 <= i < j < |clocks| ==> clocks[i].second <= clocks[j].checked
  }

  /** The key's row as it was written, or gone because a reading reached its expiry. */
  ghost predicate Lasting(rows: seq<Rows>, clocks: seq<Clock>, j: nat, k: Key, until: real)
    requires j < |rows|
  {
    if k in rows[j] then rows[j][k].expiresAt == until
    else exists n :: 0 <= n < j && n < |clocks| && clocks[n].first >= until
  }

  lemma SparedRow(rows: Rows, op: Op, c: Clock, ttl: Option<int>, k: Key)
    requires Spares(rows, op, c, ttl, k)
    ensures var rows' := AfterRows(rows, op, c, ttl).0;
            && (k in rows' ==> k in rows && rows'[k].expiresAt == rows[k].expiresAt)
            && (k in rows && k !in rows' ==> rows[k].expiresAt <= c.first)
  {
  }

  lemma WrittenRow(rows: Rows, op: Op, c: Clock, ttl: Option<int>, k: Key)
    requires WrittenUntil(rows, op, c, ttl, k).Some?
    ensures var rows' := AfterRows(rows, op, c, ttl).0;
            k in rows' && rows'[k].expiresAt == WrittenUntil(rows, op, c, ttl, k).value
  {
  }

  lemma {:induction false} RowLasts(rows: seq<Rows>, ops: seq<Op>, clocks: seq<Clock>, ttl: Option<int>, k: Key, p: nat, j: nat)
    requires IsRowRun(rows, ops, clocks, ttl) && Ordered(clocks) && p < j <= |ops|
    requires WrittenUntil(rows[p], ops[p], clocks[p], ttl, k).Some?
    requires forall n :: p < n < j ==> Spares(rows[n], ops[n], clocks[n], ttl, k)
    ensures Lasting(rows, clocks, j, k, WrittenUntil(rows[p], ops[p], clocks[p], ttl, k).value)
  {
    if j == p + 1 {
      WrittenRow(rows[p], ops[p], clocks[p], ttl, k);
    } else {
      RowLasts(rows, ops, clocks, ttl, k, p, j - 1);
      SparedRow(rows[j - 1], ops[j - 1], clocks[j - 1], ttl, k);
      hide WrittenUntil, Spares, AfterRows;
      if k in rows[j - 1] && k !in rows[j] {
        assert clocks[j - 1].first >= rows[j - 1][k].expiresAt;
      } else if k !in rows[j] {
        var until := WrittenUntil(rows[p], ops[p], clocks[p], ttl, k).value;
        var n :| 0 <= n < j - 1 && n < |clocks| && clocks[n].first >= until;
      }
    }
  }

  /**
   A row lasts exactly until the expiry its last write gave it: a further claim of the key is
   refused while its prune reads an earlier time, and succeeds from then on.
   */
  lemma RowLastsExactly(rows: seq<Rows>, ops: seq<Op>, clocks: seq<Clock>, ttl: Option<int>, k: Key, p: nat, j: nat)
    requires IsRowRun(rows, ops, clocks, ttl) && Ordered(clocks) && p < j < |ops|
    requires WrittenUntil(rows[p], ops[p], clocks[p], ttl, k).Some?
    requires forall n :: p < n < j ==> Spares(rows[n], ops[n], clocks[n], ttl, k)
    requires ops[j].PutIfAbsent? && ops[j].key == k
    ensures AfterRows(rows[j], ops[j], clocks[j], ttl).1
            == Flag(clocks[j].first >= WrittenUntil(rows[p], ops[p], clocks[p], ttl, k).value)
  {
    RowLasts(rows, ops, clocks, ttl, k, p, j);
    hide WrittenUntil, Spares;
    if k !in rows[j] {
      var until := WrittenUntil(rows[p], ops[p], clocks[p], ttl, k).value;
      var n :| 0 <= n < j && n < |clocks| && clocks[n].first >= until;
    }
  }

  /**
   Replay claims are promised not to expire by a TTL. Overwriting one, as settling does with its
   reference, breaks that in a store with a TTL of n seconds: if nothing else writes or removes the
   key, a second claim succeeds exactly once its prune reads n seconds after the overwrite.
   */
  lemma OverwrittenClaimExpires(rows: seq<Rows>, ops: seq<Op>, clocks: seq<Clock>, n: int, i: nat, p: nat, j: nat)
    requires IsRowRun(rows, ops, clocks, Some(n)) && Ordered(clocks) && i < p < j < |ops|
    requires ops[i].PutIfAbsent? && AfterRows(rows[i], ops[i], clocks[i], Some(n)).1 == Flag(true)
    requires ops[p].Put? && ops[p].key == ops[i].key
    requires forall m :: p < m < j ==> Spares(rows[m], ops[m], clocks[m], Some(n), ops[i].key)
    requires ops[j].PutIfAbsent? && ops[j].key == ops[i].key
    ensures AfterRows(rows[j], ops[j], clocks[j], Some(n)).1
            == Flag(clocks[j].first >= clocks[p].second + n as real)
  {
    RowLastsExactly(rows, ops, clocks, Some(n), ops[i].key, p, j);
  }

  /** A claim that is settled at once is free again sixty seconds later, with that TTL. */
  lemma SettledClaimIsFreed()
    ensures var claimed := AfterRows(map[], PutIfAbsent(0, 1), Clock(0.0, 0.0, 0.0), Some(60));
            var settled := AfterRows(claimed.0, Put(0, 2), Clock(1.0, 1.0, 1.0), Some(60));
            && claimed.1 == Flag(true)
            && AfterRows(settled.0, PutIfAbsent(0, 1), Clock(60.5, 60.5, 60.5), Some(60)).1 == Flag(false)
            && AfterRows(settled.0, PutIfAbsent(0, 1), Clock(61.0, 61.0, 61.0), Some(60)).1 == Flag(true)
  {
  }

  /** The expiry that the last write between a claim and an operation gave the key. */
  function LastExpiry(rows: seq<Rows>, ops: seq<Op>, clocks: seq<Clock>, ttl: Option<int>, k: Key, i: nat, j: nat): real
    requires i < j <= |ops| && |rows| == |ops| + 1 && |clocks| == |ops|
    decreases j
  {
    if j == i + 1 then NO_TTL_EXPIRES_AT
    else
      var until := WrittenUntil(rows[j - 1], ops[j - 1], clocks[j - 1], ttl, k);
      if until.Some? then until.value else LastExpiry(rows, ops, clocks, ttl, k, i, j - 1)
  }

  lemma {:induction false} LastWriter(rows: seq<Rows>, ops: seq<Op>, clocks: seq<Clock>, ttl: Option<int>, k: Key, i: nat, j: nat)
    returns (p: nat)
    requires IsRowRun(rows, ops, clocks, ttl) && i < j <= |ops|
    requires WrittenUntil(rows[i], ops[i], clocks[i], ttl, k) == Some(NO_TTL_EXPIRES_AT)
    requires forall n :: i < n < j ==> !Removes(ops[n], k)
    ensures i <= p < j
    ensures WrittenUntil(rows[p], ops[p], clocks[p], ttl, k) == Some(LastExpiry(rows, ops, clocks, ttl, k, i, j))
    ensures forall n :: p < n < j ==> Spares(rows[n], ops[n], clocks[n], ttl, k)
    decreases j
  {
    if j == i + 1 {
      p := i;
    } else if WrittenUntil(rows[j - 1], ops[j - 1], clocks[j - 1], ttl, k).Some? {
      p := j - 1;
    } else {
      p := LastWriter(rows, ops, clocks, ttl, k, i, j - 1);
      SparesOrWrites(rows[j - 1], ops[j - 1], clocks[j - 1], ttl, k);
      hide WrittenUntil, Spares, Removes;
    }
  }

  lemma SparesOrWrites(rows: Rows, op: Op, c: Clock, ttl: Option<int>, k: Key)
    requires !Removes(op, k) && WrittenUntil(rows, op, c, ttl, k).None?
    ensures Spares(rows, op, c, ttl, k)
  {
  }

  /**
   A claim that is never removed is protected exactly until the expiry of the last write to its
   key: for ever, which is until the sentinel, if it is only claimed again, exchanged, or put
   without a TTL; and only as long as the TTL of the last put otherwise.
   */
  lemma RowClaimIsProtected(rows: seq<Rows>, ops: seq<Op>, clocks: seq<Clock>, ttl: Option<int>, i: nat, j: nat)
    requires IsRowRun(rows, ops, clocks, ttl) && Ordered(clocks) && i < j < |ops|
    requires ops[i].PutIfAbsent? && AfterRows(rows[i], ops[i], clocks[i], ttl).1 == Flag(true)
    requires forall n :: i < n < j ==> !Removes(ops[n], ops[i].key)
    requires ops[j].PutIfAbsent? && ops[j].key == ops[i].key
    ensures AfterRows(rows[j], ops[j], clocks[j], ttl).1
            == Flag(clocks[j].first >= LastExpiry(rows, ops, clocks, ttl, ops[i].key, i, j))
  {
    var p := LastWriter(rows, ops, clocks, ttl, ops[i].key, i, j);
    RowLastsExactly(rows, ops, clocks, ttl, ops[i].key, p, j);
  }
}
