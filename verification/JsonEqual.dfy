/**
 Equality of decoded JSON values: the recursive definition, and the loop over an explicit stack
 that must give the same answers without recursion. Objects keep their members in insertion order
 and never repeat a key; floating-point numbers include the not-a-number the decoder accepts.
 */
module JsonEqual {

  datatype Float = NaN | PositiveInfinity | NegativeInfinity | Finite(value: real)

  datatype Member = Member(key: string, value: Json)

  datatype Json =
    | Null
    | Bool(flag: bool)
    | Int(number: int)
    | Real(float: Float)
    | Text(text: string)
    | Array(items: seq<Json>)
    | Object(members: seq<Member>)

  function Keys(ms: seq<Member>): set<string> {
    set i | 0 <= i < |ms| :: ms[i].key
  }

  predicate DistinctKeys(ms: seq<Member>) {
    forall i, j :: 0 <= i < j < |ms| ==> ms[i].key != ms[j].key
  }

  /** No object repeats a key. */
  predicate Decoded(j: Json) {
    match j
    case Array(items) => forall i :: 0 <= i < |items| ==> Decoded(items[i])
    case Object(ms) => DistinctKeys(ms) && forall i :: 0 <= i < |ms| ==> Decoded(ms[i].value)
    case _ => true
  }

  /** The member a dictionary lookup finds; Null stands for a missing key. */
  function ValueOf(ms: seq<Member>, key: string): Json {
    if ms == [] then Null else if ms[0].key == key then ms[0].value else ValueOf(ms[1..], key)
  }

  lemma {:induction false} ValueOfFinds(ms: seq<Member>, i: nat)
    requires i < |ms| && DistinctKeys(ms)
    ensures ValueOf(ms, ms[i].key) == ms[i].value
  {
    if i > 0 {
      ValueOfFinds(ms[1..], i - 1);
    }
  }

  /** Numbers compare by value, whatever their type; nothing equals NaN. */
  predicate SameNumber(left: Json, right: Json) {
    match (left, right)
    case (Int(n), Int(m)) => n == m
    case (Int(n), Real(Finite(r))) => n as real == r
    case (Real(Finite(r)), Int(n)) => n as real == r
    case (Real(f), Real(g)) => f == g && f != NaN
    case _ => false
  }

  /** An integer as the floating-point number of the same value. */
  function AsFloat(j: Json): Float
    requires j.Int? || j.Real?
  {
    if j.Int? then Finite(j.number as real) else j.float
  }

  /** Structural equality by recursion; a boolean only equals that boolean. */
  predicate Equal(left: Json, right: Json) {
    if left.Bool? || right.Bool? then left == right
    else if left.Object? && right.Object? then
      && Keys(left.members) == Keys(right.members)
      && forall i :: 0 <= i < |left.members| ==>
           Equal(left.members[i].value, ValueOf(right.members, left.members[i].key))
    else if left.Array? && right.Array? then
      |left.items| == |right.items| && forall i :: 0 <= i < |left.items| ==> Equal(left.items[i], right.items[i])
    else if (left.Int? || left.Real?) && (right.Int? || right.Real?) then SameNumber(left, right)
    else (left.Null? && right.Null?) || (left.Text? && right.Text? && left.text == right.text)
  }

  predicate NaNFree(j: Json) {
    match j
    case Real(f) => f != NaN
    case Array(items) => forall i :: 0 <= i < |items| ==> NaNFree(items[i])
    case Object(ms) => forall i :: 0 <= i < |ms| ==> NaNFree(ms[i].value)
    case _ => true
  }

  /** An integer equals a floating-point number of the same value, and no number equals anything else. */
  lemma NumbersEqualByValue(left: Json, right: Json)
    requires left.Int? || left.Real?
    ensures Equal(left, right) <==> (right.Int? || right.Real?) && AsFloat(left) == AsFloat(right) != NaN
  {
  }

  /** The same comparison where NaN also equals NaN. */
  predicate Matches(left: Json, right: Json) {
    if left.Object? && right.Object? then
      && Keys(left.members) == Keys(right.members)
      && forall i :: 0 <= i < |left.members| ==>
           Matches(left.members[i].value, ValueOf(right.members, left.members[i].key))
    else if left.Array? && right.Array? then
      |left.items| == |right.items| && forall i :: 0 <= i < |left.items| ==> Matches(left.items[i], right.items[i])
    else Equal(left, right) || left == right == Real(NaN)
  }

  /** The recursive equality is the matching one without NaN: they part exactly on aligned NaNs. */
  lemma {:induction false} EqualMatchesWithoutNaN(left: Json, right: Json)
    ensures Equal(left, right) <==> Matches(left, right) && NaNFree(left)
    decreases left
  {
    if left.Object? && right.Object? {
      forall i | 0 <= i < |left.members|
        ensures var value, other := left.members[i].value, ValueOf(right.members, left.members[i].key);
                Equal(value, other) <==> Matches(value, other) && NaNFree(value)
      {
        EqualMatchesWithoutNaN(left.members[i].value, ValueOf(right.members, left.members[i].key));
      }
    } else if left.Array? && right.Array? && |left.items| == |right.items| {
      forall i | 0 <= i < |left.items|
        ensures Equal(left.items[i], right.items[i]) <==> Matches(left.items[i], right.items[i]) && NaNFree(left.items[i])
      {
        EqualMatchesWithoutNaN(left.items[i], right.items[i]);
      }
    }
  }

  lemma {:induction false} MatchesItself(j: Json)
    requires Decoded(j)
    ensures Matches(j, j)
  {
    match j
    case Array(items) =>
      forall i | 0 <= i < |items| ensures Matches(items[i], items[i]) {
        MatchesItself(items[i]);
      }
    case Object(ms) =>
      forall i | 0 <= i < |ms| ensures Matches(ms[i].value, ValueOf(ms, ms[i].key)) {
        ValueOfFinds(ms, i);
        MatchesItself(ms[i].value);
      }
    case _ =>
  }

  /** A decoded value equals itself exactly if it has no NaN inside. */
  lemma EqualToItself(j: Json)
    requires Decoded(j)
    ensures Equal(j, j) <==> NaNFree(j)
  {
    MatchesItself(j);
    EqualMatchesWithoutNaN(j, j);
  }

  lemma KeyAt(ms: seq<Member>, key: string) returns (i: nat)
    requires key in Keys(ms) && DistinctKeys(ms)
    ensures i < |ms| && ms[i].key == key && ValueOf(ms, key) == ms[i].value
  {
    i :| 0 <= i < |ms| && ms[i].key == key;
    ValueOfFinds(ms, i);
  }

  /** Equality is symmetric. */
  lemma {:induction false} MatchesEitherWay(left: Json, right: Json)
    requires Decoded(left) && Decoded(right) && Matches(left, right)
    ensures Matches(right, left)
    decreases left
  {
    if left.Object? && right.Object? {
      forall j | 0 <= j < |right.members|
        ensures Matches(right.members[j].value, ValueOf(left.members, right.members[j].key))
      {
        assert right.members[j].key in Keys(right.members);
        var i := KeyAt(left.members, right.members[j].key);
        ValueOfFinds(right.members, j);
        MatchesEitherWay(left.members[i].value, right.members[j].value);
      }
    } else if left.Array? && right.Array? {
      forall i | 0 <= i < |left.items| ensures Matches(right.items[i], left.items[i]) {
        MatchesEitherWay(left.items[i], right.items[i]);
      }
    }
  }

  /** The members of two lists are the same, in whatever order. */
  ghost predicate Reordered(ms: seq<Member>, ns: seq<Member>) {
    DistinctKeys(ms) && DistinctKeys(ns) && multiset(ms) == multiset(ns)
  }

  /** So together with that it is an equivalence of decoded values. */
  lemma {:induction false} MatchesThrough(a: Json, b: Json, c: Json)
    requires Decoded(a) && Decoded(b) && Decoded(c) && Matches(a, b) && Matches(b, c)
    ensures Matches(a, c)
    decreases a
  {
    if a.Object? && b.Object? && c.Object? {
      forall i | 0 <= i < |a.members|
        ensures Matches(a.members[i].value, ValueOf(c.members, a.members[i].key))
      {
        var key := a.members[i].key;
        assert key in Keys(a.members);
        var j := KeyAt(b.members, key);
        var k := KeyAt(c.members, key);
        ValueOfFinds(b.members, j);
        ValueOfFinds(c.members, k);
        MatchesThrough(a.members[i].value, b.members[j].value, c.members[k].value);
      }
    } else if a.Array? && b.Array? && c.Array? {
      forall i | 0 <= i < |a.items|
        ensures Matches(a.items[i], c.items[i])
      {
        MatchesThrough(a.items[i], b.items[i], c.items[i]);
      }
    }
  }

  lemma KeyIsKept(ms: seq<Member>, ns: seq<Member>, key: string)
    requires Reordered(ms, ns) && key in Keys(ms)
    ensures key in Keys(ns) && ValueOf(ms, key) == ValueOf(ns, key)
  {
    var i := KeyAt(ms, key);
    assert ms[i] in multiset(ms);
    var j :| 0 <= j < |ns| && ns[j] == ms[i];
    ValueOfFinds(ns, j);
  }

  /** A lookup finds the same value in either order, also when it finds none. */
  lemma ReorderedLookup(ms: seq<Member>, ns: seq<Member>, key: string)
    requires Reordered(ms, ns)
    ensures key in Keys(ms) <==> key in Keys(ns)
    ensures ValueOf(ms, key) == ValueOf(ns, key)
  {
    if key in Keys(ms) {
      KeyIsKept(ms, ns, key);
    } else if key in Keys(ns) {
      KeyIsKept(ns, ms, key);
    } else {
      NoValue(ms, key);
      NoValue(ns, key);
    }
  }

  lemma {:induction false} NoValue(ms: seq<Member>, key: string)
    requires key !in Keys(ms)
    ensures ValueOf(ms, key) == Null
  {
    if ms != [] {
      assert ms[0].key in Keys(ms);
      forall k | k in Keys(ms[1..])
        ensures k in Keys(ms)
      {
        var i :| 0 <= i < |ms[1..]| && ms[1..][i].key == k;
        assert ms[i + 1].key == k;
      }
      NoValue(ms[1..], key);
    }
  }

  lemma ReorderedMatches(ms: seq<Member>, ns: seq<Member>, other: Json)
    requires Reordered(ms, ns)
    ensures Matches(Object(ms), other) ==> Matches(Object(ns), other)
    ensures Matches(other, Object(ms)) ==> Matches(other, Object(ns))
  {
    assert Keys(ms) == Keys(ns) by {
      forall k ensures k in Keys(ms) <==> k in Keys(ns) {
        ReorderedLookup(ms, ns, k);
      }
    }
    if other.Object? && Matches(Object(ms), other) {
      forall j | 0 <= j < |ns|
        ensures Matches(ns[j].value, ValueOf(other.members, ns[j].key))
      {
        assert ns[j] in multiset(ms);
        var i :| 0 <= i < |ms| && ms[i] == ns[j];
      }
    }
    if other.Object? && Matches(other, Object(ms)) {
      forall i | 0 <= i < |other.members|
        ensures Matches(other.members[i].value, ValueOf(ns, other.members[i].key))
      {
        ReorderedLookup(ms, ns, other.members[i].key);
      }
    }
  }

  lemma {:induction false} NaNFreeReordered(ms: seq<Member>, ns: seq<Member>)
    requires Reordered(ms, ns)
    ensures NaNFree(Object(ms)) ==> NaNFree(Object(ns))
  {
    forall j | 0 <= j < |ns| && NaNFree(Object(ms))
      ensures NaNFree(ns[j].value)
    {
      assert ns[j] in multiset(ms);
      var i :| 0 <= i < |ms| && ms[i] == ns[j];
    }
  }

  /**
   The order of an object's members never matters, on either side of either equality; and an object
   matches itself reordered.
   */
  lemma MemberOrderIsIrrelevant(ms: seq<Member>, ns: seq<Member>, other: Json)
    requires Reordered(ms, ns)
    ensures Matches(Object(ms), other) <==> Matches(Object(ns), other)
    ensures Matches(other, Object(ms)) <==> Matches(other, Object(ns))
    ensures Equal(Object(ms), other) <==> Equal(Object(ns), other)
    ensures Equal(other, Object(ms)) <==> Equal(other, Object(ns))
    ensures Decoded(Object(ms)) ==> Matches(Object(ms), Object(ns))
  {
    hide Equal, Matches, NaNFree;
    assert Reordered(ns, ms);
    ReorderedMatches(ms, ns, other);
    ReorderedMatches(ns, ms, other);
    NaNFreeReordered(ms, ns);
    NaNFreeReordered(ns, ms);
    EqualMatchesWithoutNaN(Object(ms), other);
    EqualMatchesWithoutNaN(Object(ns), other);
    EqualMatchesWithoutNaN(other, Object(ms));
    EqualMatchesWithoutNaN(other, Object(ns));
    if Decoded(Object(ms)) {
      MatchesItself(Object(ms));
      ReorderedMatches(ms, ns, Object(ms));
    }
  }

  // ---------- The explicit stack ----------

  type Pair = (Json, Json)

  function Size(j: Json): nat {
    match j
    case Array(items) => 1 + ItemsSize(items)
    case Object(ms) => 1 + MembersSize(ms)
    case _ => 1
  }

  function ItemsSize(items: seq<Json>): nat {
    if items == [] then 0 else Size(items[0]) + ItemsSize(items[1..])
  }

  function MembersSize(ms: seq<Member>): nat {
    if ms == [] then 0 else Size(ms[0].value) + MembersSize(ms[1..])
  }

  /** The left-hand values that remain to be compared. */
  function Remaining(stack: seq<Pair>): nat {
    if stack == [] then 0 else Size(stack[0].0) + Remaining(stack[1..])
  }

  function MemberPairs(left: seq<Member>, right: seq<Member>): seq<Pair> {
    if left == [] then [] else [(left[0].value, ValueOf(right, left[0].key))] + MemberPairs(left[1..], right)
  }

  function ItemPairs(left: seq<Json>, right: seq<Json>): seq<Pair>
    requires |left| == |right|
  {
    if left == [] then [] else [(left[0], right[0])] + ItemPairs(left[1..], right[1..])
  }

  predicate AllMatch(stack: seq<Pair>) {
    stack == [] || (Matches(stack[0].0, stack[0].1) && AllMatch(stack[1..]))
  }

  lemma {:induction false} RemainingConcat(s: seq<Pair>, t: seq<Pair>)
    ensures Remaining(s + t) == Remaining(s) + Remaining(t)
    ensures AllMatch(s + t) <==> AllMatch(s) && AllMatch(t)
  {
    if s == [] {
      assert s + t == t;
    } else {
      RemainingConcat(s[1..], t);
      assert (s + t)[1..] == s[1..] + t;
    }
  }

  lemma {:induction false} MemberPairsMatch(left: seq<Member>, right: seq<Member>)
    ensures Remaining(MemberPairs(left, right)) == MembersSize(left)
    ensures AllMatch(MemberPairs(left, right))
            <==> forall i :: 0 <= i < |left| ==> Matches(left[i].value, ValueOf(right, left[i].key))
  {
    if left != [] {
      MemberPairsMatch(left[1..], right);
      hide Matches, Size;
      assert MemberPairs(left, right)[1..] == MemberPairs(left[1..], right);
      assert (forall i :: 0 <= i < |left| ==> Matches(left[i].value, ValueOf(right, left[i].key)))
        <==> Matches(left[0].value, ValueOf(right, left[0].key))
             && forall i :: 0 <= i < |left[1..]| ==> Matches(left[1..][i].value, ValueOf(right, left[1..][i].key)) by {
        assert forall i :: 0 < i < |left| ==> left[i] == left[1..][i - 1];
      }
    }
  }

  lemma {:induction false} ItemPairsMatch(left: seq<Json>, right: seq<Json>)
    requires |left| == |right|
    ensures Remaining(ItemPairs(left, right)) == ItemsSize(left)
    ensures AllMatch(ItemPairs(left, right)) <==> forall i :: 0 <= i < |left| ==> Matches(left[i], right[i])
  {
    if left != [] {
      ItemPairsMatch(left[1..], right[1..]);
      hide Matches, Size;
      assert ItemPairs(left, right)[1..] == ItemPairs(left[1..], right[1..]);
      assert forall i :: 0 < i < |left| ==> left[i] == left[1..][i - 1] && right[i] == right[1..][i - 1];
    }
  }

  /** The comparison with an explicit stack: it terminates, and it is the matching equality. */
  method EqualByStack(a: Json, b: Json) returns (equal: bool)
    ensures equal <==> Matches(a, b)
    ensures NaNFree(a) ==> (equal <==> Equal(a, b))
  {
    EqualMatchesWithoutNaN(a, b);
    var stack := [(a, b)];
    while stack != []
      invariant Matches(a, b) <==> AllMatch(stack)
      decreases Remaining(stack)
    {
      hide AllMatch, Remaining, MemberPairs, ItemPairs, Equal, NaNFree, ValueOf;
      var left, right := stack[|stack| - 1].0, stack[|stack| - 1].1;
      ghost var before := stack;
      stack := stack[..|stack| - 1];
      Popped(before);
      if left.Bool? || right.Bool? {
        ScalarsMatch(left, right);
        if left != right {
          return false;
        }
      } else if left.Object? && right.Object? {
        if Keys(left.members) != Keys(right.members) {
          return false;
        }
        MemberPairsMatch(left.members, right.members);
        RemainingConcat(stack, MemberPairs(left.members, right.members));
        stack := stack + MemberPairs(left.members, right.members);
      } else if left.Array? && right.Array? {
        if |left.items| != |right.items| {
          return false;
        }
        ItemPairsMatch(left.items, right.items);
        RemainingConcat(stack, ItemPairs(left.items, right.items));
        stack := stack + ItemPairs(left.items, right.items);
      } else if left.Object? || left.Array? || right.Object? || right.Array? {
        ScalarsMatch(left, right);
        return false;
      } else {
        ScalarsMatch(left, right);
        if !SameScalar(left, right) && !(left.Real? && right.Real? && left.float == NaN && right.float == NaN) {
          return false;
        }
      }
    }
    return true;
  }

  /** Python's equality of two values that are neither containers nor booleans. */
  predicate SameScalar(left: Json, right: Json) {
    SameNumber(left, right) || (left.Null? && right.Null?) || (left.Text? && right.Text? && left.text == right.text)
  }

  lemma ScalarsMatch(left: Json, right: Json)
    requires !(left.Object? && right.Object?) && !(left.Array? && right.Array?)
    ensures left.Bool? || right.Bool? ==> (Matches(left, right) <==> left == right)
    ensures left.Object? || left.Array? || right.Object? || right.Array? ==> !Matches(left, right)
    ensures !left.Bool? && !right.Bool? && !(left.Object? || left.Array? || right.Object? || right.Array?) ==>
              (Matches(left, right) <==> SameScalar(left, right) || left == right == Real(NaN))
  {
  }

  lemma Popped(stack: seq<Pair>)
    requires stack != []
    ensures var rest, top := stack[..|stack| - 1], stack[|stack| - 1];
            && Remaining(stack) == Remaining(rest) + Size(top.0)
            && (AllMatch(stack) <==> AllMatch(rest) && Matches(top.0, top.1))
  {
    var rest, top := stack[..|stack| - 1], stack[|stack| - 1];
    RemainingConcat(rest, [top]);
    assert stack == rest + [top];
    assert [top][1..] == [];
  }
}
