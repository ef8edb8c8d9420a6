/** Stable grouping by a key: groups appear in the order of their first element and each keeps its
    elements in their order (the section map of src/lib/software-document.ts). */
module StableGrouping {
  /** Keys in the order of their first element. */
  function Order<T, K(==)>(key: T -> K, xs: seq<T>): seq<K> {
    if xs == [] then []
    else
      var before, k := Order(key, xs[..|xs| - 1]), key(xs[|xs| - 1]);
      if k in before then before else before + [k]
  }

  /** The elements of one group, in their order. */
  function Group<T, K(==)>(key: T -> K, xs: seq<T>, k: K): seq<T> {
    if xs == [] then []
    else Group(key, xs[..|xs| - 1], k) + (if key(xs[|xs| - 1]) == k then [xs[|xs| - 1]] else [])
  }

  function Gather<T, K(==)>(key: T -> K, xs: seq<T>, order: seq<K>): seq<T> {
    if order == [] then [] else Group(key, xs, order[0]) + Gather(key, xs, order[1..])
  }

  function Grouped<T, K(==)>(key: T -> K, xs: seq<T>): seq<T> { Gather(key, xs, Order(key, xs)) }

  lemma StepOfGrouping<T, K(!new)>(key: T -> K, xs: seq<T>, i: nat)
    requires i < |xs|
    ensures Order(key, xs[..i + 1])
         == Order(key, xs[..i]) + (if key(xs[i]) in Order(key, xs[..i]) then [] else [key(xs[i])])
    ensures forall k :: Group(key, xs[..i + 1], k) ==
                        if k == key(xs[i]) then Group(key, xs[..i], k) + [xs[i]] else Group(key, xs[..i], k)
  {
    var now := xs[..i + 1];
    assert now[..|now| - 1] == xs[..i] && now[|now| - 1] == xs[i];
    forall k
      ensures Group(key, now, k) == if k == key(xs[i]) then Group(key, xs[..i], k) + [xs[i]] else Group(key, xs[..i], k)
    {
      assert Group(key, xs[..i], k) + [] == Group(key, xs[..i], k);
    }
  }

  /** What the map holds: exactly the elements of each group, and no entry for an empty one. */
  ghost predicate Holds<T, K(!new)>(m: map<K, seq<T>>, key: T -> K, xs: seq<T>) {
    forall k :: Group(key, xs, k) == if k in m then m[k] else []
  }

  method GroupBy<T, K(==, !new)>(key: T -> K, xs: seq<T>) returns (order: seq<K>, groups: map<K, seq<T>>)
    ensures order == Order(key, xs)
    ensures Holds(groups, key, xs) && forall k :: k in groups <==> k in order
  {
    groups, order := map[], [];
    var i := 0;
    while i < |xs|
      invariant i <= |xs| && order == Order(key, xs[..i])
      invariant forall k :: k in groups <==> k in order
      invariant Holds(groups, key, xs[..i])
    {
      var k := key(xs[i]);
      if k !in groups {
        order := order + [k];
        groups := groups[k := []];
      }
      groups := groups[k := groups[k] + [xs[i]]];
      StepOfGrouping(key, xs, i);
      i := i + 1;
    }
    assert xs[..i] == xs;
  }

  // What the grouping is

  predicate NoRepeats<K(==)>(s: seq<K>) { s == [] || (s[0] !in s[1..] && NoRepeats(s[1..])) }

  lemma {:induction false} NoRepeatsAppend<K>(s: seq<K>, x: K)
    requires NoRepeats(s) && x !in s
    ensures NoRepeats(s + [x])
    decreases |s|
  {
    if s != [] {
      assert (s + [x])[1..] == s[1..] + [x];
      NoRepeatsAppend(s[1..], x);
    }
  }

  lemma {:induction false} OrderShape<T, K(!new)>(key: T -> K, xs: seq<T>)
    ensures NoRepeats(Order(key, xs))
    ensures forall k :: k in Order(key, xs) <==> Group(key, xs, k) != []
    decreases |xs|
  {
    if xs != [] {
      var before, k := Order(key, xs[..|xs| - 1]), key(xs[|xs| - 1]);
      OrderShape(key, xs[..|xs| - 1]);
      if k !in before { NoRepeatsAppend(before, k); }
    }
  }

  predicate AllOf<T, K(==)>(key: T -> K, xs: seq<T>, k: K) { forall i: nat :: i < |xs| ==> key(xs[i]) == k }

  lemma {:induction false} GroupMembers<T, K>(key: T -> K, xs: seq<T>, k: K)
    ensures AllOf(key, Group(key, xs, k), k)
    decreases |xs|
  {
    if xs != [] { GroupMembers(key, xs[..|xs| - 1], k); }
  }

  lemma {:induction false} GroupConcat<T, K>(key: T -> K, a: seq<T>, b: seq<T>, k: K)
    ensures Group(key, a + b, k) == Group(key, a, k) + Group(key, b, k)
    decreases |b|
  {
    if b == [] {
      assert a + b == a;
    } else {
      assert (a + b)[..|a + b| - 1] == a + b[..|b| - 1];
      GroupConcat(key, a, b[..|b| - 1], k);
    }
  }

  lemma {:induction false} GroupOfUniform<T, K>(key: T -> K, xs: seq<T>, own: K, k: K)
    requires AllOf(key, xs, own)
    ensures Group(key, xs, k) == if k == own then xs else []
    decreases |xs|
  {
    if xs != [] {
      assert AllOf(key, xs[..|xs| - 1], own);
      GroupOfUniform(key, xs[..|xs| - 1], own, k);
      assert xs == xs[..|xs| - 1] + [xs[|xs| - 1]];
    }
  }

  lemma {:induction false} GroupOfGathered<T, K>(key: T -> K, xs: seq<T>, order: seq<K>, k: K)
    requires NoRepeats(order)
    ensures Group(key, Gather(key, xs, order), k) == if k in order then Group(key, xs, k) else []
    decreases |order|
  {
    if order != [] {
      var first := Group(key, xs, order[0]);
      GroupConcat(key, first, Gather(key, xs, order[1..]), k);
      GroupMembers(key, xs, order[0]);
      GroupOfUniform(key, first, order[0], k);
      GroupOfGathered(key, xs, order[1..], k);
      assert k in order <==> k == order[0] || k in order[1..];
    }
  }

  lemma {:induction false} OrderExtends<T, K>(key: T -> K, a: seq<T>, b: seq<T>, k: K)
    requires b != [] && k !in Order(key, a) && AllOf(key, b, k)
    ensures Order(key, a + b) == Order(key, a) + [k]
    decreases |b|
  {
    assert (a + b)[..|a + b| - 1] == a + b[..|b| - 1];
    if |b| == 1 {
      assert a + b[..|b| - 1] == a;
    } else {
      assert AllOf(key, b[..|b| - 1], k);
      OrderExtends(key, a, b[..|b| - 1], k);
    }
  }

  /** Each key of `order` has elements in `xs` and none in `prefix`. */
  predicate Pending<T(==), K(==)>(key: T -> K, xs: seq<T>, order: seq<K>, prefix: seq<T>) {
    forall k :: k in order ==> Group(key, xs, k) != [] && k !in Order(key, prefix)
  }

  lemma PendingStep<T, K>(key: T -> K, xs: seq<T>, order: seq<K>, prefix: seq<T>)
    requires order != [] && NoRepeats(order) && Pending(key, xs, order, prefix)
    ensures Order(key, prefix + Group(key, xs, order[0])) == Order(key, prefix) + [order[0]]
    ensures Pending(key, xs, order[1..], prefix + Group(key, xs, order[0]))
  {
    var k := order[0];
    GroupMembers(key, xs, k);
    OrderExtends(key, prefix, Group(key, xs, k), k);
    assert forall r :: r in order[1..] ==> r in order && r != k;
  }

  lemma ConcatAssociates<T>(a: seq<T>, b: seq<T>, c: seq<T>)
    ensures a + (b + c) == a + b + c
  {
  }

  /** The order of what was gathered is the order it was gathered in. */
  lemma {:induction false} GatherOrder<T, K>(key: T -> K, xs: seq<T>, order: seq<K>, prefix: seq<T>)
    requires NoRepeats(order) && Pending(key, xs, order, prefix)
    ensures Order(key, prefix + Gather(key, xs, order)) == Order(key, prefix) + order
    decreases |order|
  {
    if order == [] {
      assert prefix + Gather(key, xs, order) == prefix && Order(key, prefix) + order == Order(key, prefix);
    } else {
      var first, others := Group(key, xs, order[0]), Gather(key, xs, order[1..]);
      PendingStep(key, xs, order, prefix);
      GatherOrder(key, xs, order[1..], prefix + first);
      ConcatAssociates(prefix, first, others);
      ConcatAssociates(Order(key, prefix), [order[0]], order[1..]);
      assert [order[0]] + order[1..] == order;
    }
  }

  lemma {:induction false} CountInGroup<T, K>(key: T -> K, xs: seq<T>, x: T)
    ensures multiset(xs)[x] == multiset(Group(key, xs, key(x)))[x]
    decreases |xs|
  {
    if xs != [] {
      CountInGroup(key, xs[..|xs| - 1], x);
      assert xs == xs[..|xs| - 1] + [xs[|xs| - 1]];
    }
  }

  /** The grouping keeps, group by group, the same elements in the same order, and the groups in the
      order in which they first appear. Nothing is lost or added. */
  lemma GroupingIsStable<T(!new), K(!new)>(key: T -> K, xs: seq<T>)
    ensures forall k :: Group(key, Grouped(key, xs), k) == Group(key, xs, k)
    ensures Order(key, Grouped(key, xs)) == Order(key, xs)
    ensures multiset(Grouped(key, xs)) == multiset(xs)
  {
    OrderShape(key, xs);
    forall k ensures Group(key, Grouped(key, xs), k) == Group(key, xs, k) {
      GroupOfGathered(key, xs, Order(key, xs), k);
    }
    assert [] + Grouped(key, xs) == Grouped(key, xs) && [] + Order(key, xs) == Order(key, xs);
    GatherOrder(key, xs, Order(key, xs), []);
    forall x ensures multiset(Grouped(key, xs))[x] == multiset(xs)[x] {
      CountInGroup(key, Grouped(key, xs), x);
      CountInGroup(key, xs, x);
    }
  }

  lemma {:induction false} GatherCongruent<T, K(!new)>(key: T -> K, a: seq<T>, b: seq<T>, order: seq<K>)
    requires forall k :: Group(key, a, k) == Group(key, b, k)
    ensures Gather(key, a, order) == Gather(key, b, order)
    decreases |order|
  {
    if order != [] { GatherCongruent(key, a, b, order[1..]); }
  }

  /** Groups come out contiguous: grouping again changes nothing. */
  lemma GroupingTwice<T(!new), K(!new)>(key: T -> K, xs: seq<T>)
    ensures Grouped(key, Grouped(key, xs)) == Grouped(key, xs)
  {
    GroupingIsStable(key, xs);
    GatherCongruent(key, Grouped(key, xs), xs, Order(key, xs));
  }
}
