/**
 Remembered EVM claims, each for as long as its authorization can be redeemed: a heap that is
 cleaned lazily and compacted, against a plain map of expiries.
 */
module ClaimCache {
  import opened Wrappers
  import opened ExpiryHeap

  const GRACE: int := 60

  // ---------- The plain map ----------

  /** The claims held, and the expiry of those that have one. */
  datatype Claims<V> = Claims(data: map<string, V>, expires: map<string, int>)

  function Expired(expires: map<string, int>, now: int): set<string> {
    set k | k in expires && expires[k] <= now
  }

  function Prune<V>(c: Claims<V>, now: int): Claims<V> {
    var gone := Expired(c.expires, now);
    Claims(c.data - gone, c.expires - gone)
  }

  datatype Full = Full

  function PutIfAbsent<V>(c: Claims<V>, limit: nat, key: string, value: V, now: int)
    : (Claims<V>, Result<bool, Full>)
  {
    var p := Prune(c, now);
    if key in p.data then (p, Success(false))
    else if |p.data| >= limit then (p, Failure(Full))
    else (p.(data := p.data[key := value]), Success(true))
  }

  function ClaimUntil<V>(c: Claims<V>, key: string, validBefore: int): Claims<V> {
    c.(expires := c.expires[key := validBefore + GRACE])
  }

  function Put<V>(c: Claims<V>, key: string, value: V): Claims<V> {
    c.(data := c.data[key := value])
  }

  function Delete<V>(c: Claims<V>, key: string): Claims<V> {
    Claims(c.data - {key}, c.expires - {key})
  }

  // ---------- The cache ----------

  /** Every tracked expiry has an entry in the heap. */
  ghost predicate Covered(expires: map<string, int>, heap: seq<Entry>) {
    forall k :: k in expires ==> (expires[k], k) in multiset(heap)
  }

  lemma PopKeepsCovered(expires: map<string, int>, heap: seq<Entry>, e: Entry, rest: seq<Entry>)
    requires Covered(expires, heap) && multiset(rest) == multiset(heap) - multiset{e}
    ensures e.1 in expires && expires[e.1] == e.0 ==> Covered(expires - {e.1}, rest)
    ensures !(e.1 in expires && expires[e.1] == e.0) ==> Covered(expires, rest)
  {
  }

  /** `c` is `before` without some of the claims that expire by `now`. */
  ghost predicate Pruning<V>(before: Claims<V>, c: Claims<V>, now: int) {
    && c.expires.Keys <= before.expires.Keys
    && (forall k :: k in c.expires ==> c.expires[k] == before.expires[k])
    && (forall k :: k in before.expires && k !in c.expires ==> before.expires[k] <= now)
    && c.data == before.data - (before.expires.Keys - c.expires.Keys)
  }

  lemma PruneOne<V>(before: Claims<V>, c: Claims<V>, now: int, key: string)
    requires Pruning(before, c, now) && key in c.expires && c.expires[key] <= now
    ensures Pruning(before, Delete(c, key), now)
  {
  }

  lemma PruneEnds<V>(before: Claims<V>, c: Claims<V>, now: int)
    requires Pruning(before, c, now) && forall k :: k in c.expires ==> c.expires[k] > now
    ensures c == Prune(before, now)
  {
  }

  /** Once the root expires later, so does every tracked claim. */
  lemma HeapIsLate(expires: map<string, int>, heap: seq<Entry>, now: int)
    requires IsHeap(heap) && Covered(expires, heap) && (heap == [] || heap[0].0 > now)
    ensures forall k :: k in expires ==> expires[k] > now
  {
    hide IsHeap;
    forall k | k in expires
      ensures expires[k] > now
    {
      assert (expires[k], k) in multiset(heap);
      var i :| 0 <= i < |heap| && heap[i] == (expires[k], k);
      RootIsLeast(heap, i);
    }
  }

  /** An entry per tracked expiry, in any order. */
  method EntriesOf(expires: map<string, int>) returns (entries: seq<Entry>)
    ensures |entries| == |expires| && Covered(expires, entries)
  {
    entries := [];
    var left := expires.Keys;
    while left != {}
      invariant left <= expires.Keys && |entries| + |left| == |expires.Keys|
      invariant forall k :: k in expires.Keys - left ==> (expires[k], k) in multiset(entries)
      decreases |left|
    {
      var k :| k in left;
      left := left - {k};
      entries := entries + [(expires[k], k)];
    }
  }

  class Cache<V> {
    const limit: nat
    var data: map<string, V>
    var expires: map<string, int>
    var heap: seq<Entry>
    // How many times claim_until ran, and how many entries compactions have kept.
    ghost var claimed: nat
    ghost var kept: nat

    ghost predicate Valid()
      reads this
    {
      IsHeap(heap) && Covered(expires, heap) && kept + |heap| <= claimed
    }

    function Model(): Claims<V>
      reads this
    {
      Claims(data, expires)
    }

    constructor (limit: nat)
      ensures Valid() && this.limit == limit && Model() == Claims(map[], map[])
      ensures claimed == 0
    {
      this.limit := limit;
      data, expires, heap := map[], map[], [];
      claimed, kept := 0, 0;
    }

    /** Compaction keeps the heap within twice the tracked claims, and its total cost within the claims made. */
    method TrackUntil(key: string, validBefore: int)
      requires Valid()
      modifies this
      ensures Valid()
      ensures Model() == ClaimUntil(old(Model()), key, validBefore)
      ensures |heap| <= 2 * |expires| + 1024
      ensures claimed == old(claimed) + 1 && kept <= claimed
      ensures kept == old(kept)
              + (if old(|heap|) + 1 > 2 * |expires| + 1024 then |expires| else 0)
    {
      var until := validBefore + GRACE;
      expires := expires[key := until];
      heap := Push(heap, (until, key));
      claimed := claimed + 1;
      if |heap| > 2 * |expires| + 1024 {
        var entries := EntriesOf(expires);
        heap := Heapify(entries);
        kept := kept + |expires|;
      }
    }

    /** Stale heap entries never evict a live claim, and no expired tracked claim survives. */
    method PruneExpired(now: int)
      requires Valid()
      modifies this
      ensures Valid() && Model() == Prune(old(Model()), now)
      ensures claimed == old(claimed) && kept == old(kept)
    {
      assert Pruning(old(Model()), Model(), now);
      hide Pruning, IsHeap, Covered;
      while heap != [] && heap[0].0 <= now
        invariant Valid() && Pruning(old(Model()), Model(), now)
        invariant claimed == old(claimed) && kept == old(kept)
        decreases |heap|
      {
        var e, rest := Pop(heap);
        PopKeepsCovered(expires, heap, e, rest);
        heap := rest;
        if e.1 in expires && expires[e.1] == e.0 {
          PruneOne(old(Model()), Model(), now, e.1);
          expires := expires - {e.1};
          data := data - {e.1};
        }
      }
      HeapIsLate(expires, heap, now);
      PruneEnds(old(Model()), Model(), now);
    }

    method Claim(key: string, value: V, now: int) returns (r: Result<bool, Full>)
      requires Valid()
      modifies this
      ensures Valid()
      ensures (Model(), r) == PutIfAbsent(old(Model()), limit, key, value, now)
      ensures claimed == old(claimed) && kept == old(kept)
    {
      PruneExpired(now);
      if key in data {
        return Success(false);
      }
      if |data| >= limit {
        return Failure(Full.Full);
      }
      data := data[key := value];
      return Success(true);
    }

    /** MemoryStore.put, without a cap or deadlines of its own. */
    method Store(key: string, value: V)
      requires Valid()
      modifies this
      ensures Valid() && Model() == Put(old(Model()), key, value)
      ensures claimed == old(claimed) && kept == old(kept)
    {
      data := data[key := value];
    }

    method Remove(key: string)
      requires Valid()
      modifies this
      ensures Valid() && Model() == Delete(old(Model()), key)
      ensures claimed == old(claimed) && kept == old(kept)
    {
      expires := expires - {key};
      data := data - {key};
    }
  }

  // ---------- Claims over a whole history ----------

  datatype Op<V> =
    | ClaimOp(key: string, value: V, now: int)
    | TrackOp(key: string, validBefore: int)
    | StoreOp(key: string, value: V)
    | RemoveOp(key: string)

  function Step<V>(c: Claims<V>, limit: nat, op: Op<V>): Claims<V> {
    match op
    case ClaimOp(k, v, now) => PutIfAbsent(c, limit, k, v, now).0
    case TrackOp(k, validBefore) => ClaimUntil(c, k, validBefore)
    case StoreOp(k, v) => Put(c, k, v)
    case RemoveOp(k) => Delete(c, k)
  }

  function Replay<V>(c: Claims<V>, limit: nat, ops: seq<Op<V>>): Claims<V>
    decreases |ops|
  {
    if ops == [] then c else Replay(Step(c, limit, ops[0]), limit, ops[1..])
  }

  /** Neither rolled back nor pruned: no removal of the key, and no claim made at its expiry or later. */
  predicate Leaves<V>(op: Op<V>, key: string, until: int) {
    match op
    case ClaimOp(_, _, now) => now < until
    case TrackOp(k, _) => k != key
    case StoreOp(_, _) => true
    case RemoveOp(k) => k != key
  }

  /**
   No payment is forgotten while its authorization can settle: whatever other claims, rollbacks,
   expiries and compactions happen, a tracked claim that is not rolled back is still held before
   its expiry, so claiming it again is refused; at its expiry it is gone, and free to claim.
   */
  lemma {:induction false} TrackedClaimHolds<V>(
    c: Claims<V>, limit: nat, ops: seq<Op<V>>, key: string, value: V, now: int)
    requires key in c.data && key in c.expires
    requires forall i :: 0 <= i < |ops| ==> Leaves(ops[i], key, c.expires[key])
    ensures
      var end := Replay(c, limit, ops);
      && key in end.data
      && key in end.expires && end.expires[key] == c.expires[key]
      && (now < c.expires[key] ==> PutIfAbsent(end, limit, key, value, now).1 == Success(false))
      && (now >= c.expires[key] ==> PutIfAbsent(end, limit, key, value, now).1 != Success(false))
    decreases |ops|
  {
    if ops != [] {
      assert Leaves(ops[0], key, c.expires[key]);
      assert forall i :: 0 <= i < |ops[1..]| ==> ops[1..][i] == ops[i + 1];
      TrackedClaimHolds(Step(c, limit, ops[0]), limit, ops[1..], key, value, now);
    }
  }

  /** So a claim tracked for an authorization is refused to others until exactly a minute after its last second. */
  lemma RefusedUntilGraceEnds<V>(
    c: Claims<V>, limit: nat, ops: seq<Op<V>>, key: string, value: V, validBefore: int, now: int)
    requires key in c.data
    requires forall i :: 0 <= i < |ops| ==> Leaves(ops[i], key, validBefore + 60)
    ensures
      var end := Replay(Step(c, limit, TrackOp(key, validBefore)), limit, ops);
      PutIfAbsent(end, limit, key, value, now).1 == Success(false) <==> now < validBefore + 60
  {
    TrackedClaimHolds(Step(c, limit, TrackOp(key, validBefore)), limit, ops, key, value, now);
  }
}
