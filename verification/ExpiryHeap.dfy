/** A binary min-heap of (expiry, key) entries in a list, ordered as Python orders tuples. */
module ExpiryHeap {

  type Entry = (int, string)

  /** Lexicographic order by code point. */
  predicate TextBefore(a: string, b: string) {
    b != "" && (a == "" || a[0] < b[0] || (a[0] == b[0] && TextBefore(a[1..], b[1..])))
  }

  predicate Before(a: Entry, b: Entry) {
    a.0 < b.0 || (a.0 == b.0 && TextBefore(a.1, b.1))
  }

  lemma {:induction false} TextOrderIsTotal(a: string, b: string)
    ensures TextBefore(a, b) || a == b || TextBefore(b, a)
    ensures !(TextBefore(a, b) && TextBefore(b, a)) && !TextBefore(a, a)
  {
    if a != "" {
      TextOrderIsTotal(a[1..], if b != "" then b[1..] else a[1..]);
      assert a == [a[0]] + a[1..];
    }
    if b != "" {
      assert b == [b[0]] + b[1..];
    }
  }

  /** Of two different entries exactly one comes before the other. */
  lemma OrderIsTotal(a: Entry, b: Entry)
    ensures Before(a, b) || a == b || Before(b, a)
    ensures !(Before(a, b) && Before(b, a)) && !Before(a, a)
  {
    TextOrderIsTotal(a.1, b.1);
    TextOrderIsTotal(a.1, a.1);
  }

  function Parent(i: nat): nat
    requires i > 0
  {
    (i - 1) / 2
  }

  /** No entry whose parent is at `k` or later expires before that parent. */
  predicate HeapFrom(h: seq<Entry>, k: nat) {
    forall i :: 1 <= i < |h| && Parent(i) >= k ==> h[Parent(i)].0 <= h[i].0
  }

  predicate IsHeap(h: seq<Entry>) {
    HeapFrom(h, 0)
  }

  lemma {:induction false} RootIsLeast(h: seq<Entry>, i: nat)
    requires IsHeap(h) && i < |h|
    ensures h[0].0 <= h[i].0
  {
    if i > 0 {
      RootIsLeast(h, Parent(i));
    }
  }

  function Swap(h: seq<Entry>, i: nat, j: nat): seq<Entry>
    requires i < |h| && j < |h|
  {
    h[i := h[j]][j := h[i]]
  }

  lemma SwapKeeps(h: seq<Entry>, i: nat, j: nat)
    requires i < |h| && j < |h|
    ensures multiset(Swap(h, i, j)) == multiset(h)
  {
  }

  /** A heap but for the entry at `i`, whose children its parent could adopt. */
  predicate RisingAt(h: seq<Entry>, i: nat) {
    && (forall j :: 1 <= j < |h| && j != i ==> h[Parent(j)].0 <= h[j].0)
    && (forall j :: 1 <= j < |h| && i > 0 && Parent(j) == i && Parent(i) < |h| ==> h[Parent(i)].0 <= h[j].0)
  }

  lemma RiseStep(h: seq<Entry>, i: nat)
    requires 0 < i < |h| && RisingAt(h, i) && Before(h[i], h[Parent(i)])
    ensures RisingAt(Swap(h, Parent(i), i), Parent(i))
  {
  }

  method Push(h: seq<Entry>, e: Entry) returns (r: seq<Entry>)
    requires IsHeap(h)
    ensures IsHeap(r) && multiset(r) == multiset(h) + multiset{e}
    ensures |r| == |h| + 1
  {
    r := h + [e];
    var i := |h|;
    while i > 0 && Before(r[i], r[Parent(i)])
      invariant 0 <= i < |r| == |h| + 1
      invariant multiset(r) == multiset(h) + multiset{e}
      invariant RisingAt(r, i)
    {
      SwapKeeps(r, Parent(i), i);
      RiseStep(r, i);
      hide RisingAt, Swap;
      r := Swap(r, Parent(i), i);
      i := Parent(i);
    }
  }

  /** A heap from `k` on but for the entry at `i`, whose children its parent could adopt. */
  predicate SinkingAt(h: seq<Entry>, k: nat, i: nat) {
    && (forall j :: 1 <= j < |h| && Parent(j) >= k && Parent(j) != i ==> h[Parent(j)].0 <= h[j].0)
    && (forall j :: 1 <= j < |h| && i > 0 && Parent(i) >= k && Parent(j) == i && Parent(i) < |h|
                    ==> h[Parent(i)].0 <= h[j].0)
  }

  /** `c` is the child of `i` that expires first. */
  predicate FirstChild(h: seq<Entry>, i: nat, c: nat) {
    i < c < |h| && Parent(c) == i && forall j :: 1 <= j < |h| && Parent(j) == i ==> h[c].0 <= h[j].0
  }

  lemma SinkStep(h: seq<Entry>, k: nat, i: nat, c: nat)
    requires k <= i < |h| && SinkingAt(h, k, i) && FirstChild(h, i, c) && Before(h[c], h[i])
    ensures SinkingAt(Swap(h, i, c), k, c)
  {
  }

  lemma SunkIsHeap(h: seq<Entry>, k: nat, i: nat, c: nat)
    requires k <= i < |h| && SinkingAt(h, k, i) && FirstChild(h, i, c) && !Before(h[c], h[i])
    ensures HeapFrom(h, k)
  {
  }

  /** The child the sift compares with: the right one unless the left one comes before it. */
  function SmallerChild(h: seq<Entry>, i: nat): (c: nat)
    requires 2 * i + 1 < |h|
    ensures FirstChild(h, i, c)
  {
    var left := 2 * i + 1;
    var c := if left + 1 < |h| && !Before(h[left], h[left + 1]) then left + 1 else left;
    assert forall j :: 1 <= j < |h| && Parent(j) == i ==> j == left || j == left + 1;
    c
  }

  /** Move the entry at `k` down until both its children expire no earlier. */
  method SiftDown(h: seq<Entry>, k: nat) returns (r: seq<Entry>)
    requires k < |h| && HeapFrom(h, k + 1)
    ensures HeapFrom(r, k) && multiset(r) == multiset(h) && |r| == |h|
  {
    r := h;
    var i := k;
    assert SinkingAt(r, k, i);
    hide SinkingAt, Swap, SmallerChild, FirstChild, HeapFrom;
    while 2 * i + 1 < |r|
      invariant k <= i < |r| == |h| && multiset(r) == multiset(h)
      invariant SinkingAt(r, k, i)
      decreases |r| - i
    {
      var child := SmallerChild(r, i);
      if !Before(r[child], r[i]) {
        SunkIsHeap(r, k, i, child);
        return;
      }
      SwapKeeps(r, i, child);
      SinkStep(r, k, i, child);
      r := Swap(r, i, child);
      i := child;
    }
    LeafIsHeap(r, k, i);
  }

  lemma LeafIsHeap(h: seq<Entry>, k: nat, i: nat)
    requires SinkingAt(h, k, i) && 2 * i + 1 >= |h|
    ensures HeapFrom(h, k)
  {
  }

  method Pop(h: seq<Entry>) returns (e: Entry, r: seq<Entry>)
    requires IsHeap(h) && h != []
    ensures e == h[0] && IsHeap(r) && multiset(r) == multiset(h) - multiset{e}
    ensures |r| == |h| - 1
  {
    e := h[0];
    var last, rest := h[|h| - 1], h[..|h| - 1];
    assert h == rest + [last];
    if rest == [] {
      r := rest;
    } else {
      r := SiftDown(rest[0 := last], 0);
    }
  }

  method Heapify(h: seq<Entry>) returns (r: seq<Entry>)
    ensures IsHeap(r) && multiset(r) == multiset(h) && |r| == |h|
  {
    r := h;
    var k := |h| / 2;
    while k > 0
      invariant 0 <= k <= |h| / 2 && |r| == |h|
      invariant HeapFrom(r, k) && multiset(r) == multiset(h)
    {
      k := k - 1;
      r := SiftDown(r, k);
    }
  }
}
