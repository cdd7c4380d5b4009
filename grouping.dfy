/** The `defaultdict(list)` grouping that every splitter performs: values
    tagged with a key are appended to their key's list, and the dictionary
    remembers the order in which keys first appeared. */
module Grouping {
  import opened Seqs

  /** The keys that occur in the tagged values. */
  function KeySet<K(==), V(==)>(pairs: seq<(K, V)>): set<K> {
    set j | 0 <= j < |pairs| :: pairs[j].0
  }

  lemma {:induction false} KeySetAppend<K, V>(pairs: seq<(K, V)>)
    requires |pairs| > 0
    ensures KeySet(pairs) == KeySet(pairs[..|pairs| - 1]) + {pairs[|pairs| - 1].0}
  {
    var init := pairs[..|pairs| - 1];
    forall j | 0 <= j < |init| ensures init[j] == pairs[j] { }
  }

  /** The keys in order of first appearance: the key order of the dictionary. */
  function KeysInOrder<K(==), V(==)>(pairs: seq<(K, V)>): (keys: seq<K>)
    ensures Distinct(keys)
    ensures Elems(keys) == KeySet(pairs)
  {
    if |pairs| == 0 then []
    else
      var p := KeysInOrder(pairs[..|pairs| - 1]);
      var k := pairs[|pairs| - 1].0;
      KeySetAppend(pairs);
      if k in p then p else p + [k]
  }

  /** The values whose key is in `keys`, in their original order. */
  function ValuesWithKeyIn<K(==), V(==)>(pairs: seq<(K, V)>, keys: set<K>): seq<V> {
    if |pairs| == 0 then []
    else
      var x := pairs[|pairs| - 1];
      ValuesWithKeyIn(pairs[..|pairs| - 1], keys) + (if x.0 in keys then [x.1] else [])
  }

  /** All the values, in their original order. */
  function Values<K(==), V(==)>(pairs: seq<(K, V)>): (vs: seq<V>)
    ensures |vs| == |pairs| && forall j :: 0 <= j < |vs| ==> vs[j] == pairs[j].1
  {
    if |pairs| == 0 then [] else Values(pairs[..|pairs| - 1]) + [pairs[|pairs| - 1].1]
  }

  /** The dictionary the grouping loop builds: its keys in first-appearance
      order, and under each key that key's values in their original order. */
  predicate IsGrouping<K(==), V(==)>(pairs: seq<(K, V)>, keys: seq<K>, groups: map<K, seq<V>>) {
    && keys == KeysInOrder(pairs)
    && groups.Keys == Elems(keys)
    && forall k :: k in groups ==> groups[k] == ValuesWithKeyIn(pairs, {k})
  }

  /** A key that does not occur has no values. */
  lemma {:induction false} ValuesWithKeyInAbsent<K, V>(pairs: seq<(K, V)>, k: K)
    requires k !in KeySet(pairs)
    ensures ValuesWithKeyIn(pairs, {k}) == []
  {
    if |pairs| > 0 {
      KeySetAppend(pairs);
      ValuesWithKeyInAbsent(pairs[..|pairs| - 1], k);
    }
  }

  /** One step of the loop, `groups[k].append(v)`, keeps the grouping of the
      values seen so far. */
  lemma {:induction false} GroupingStep<K, V>(prefix: seq<(K, V)>, k: K, v: V, keys: seq<K>, groups: map<K, seq<V>>)
    requires IsGrouping(prefix, keys, groups)
    ensures var g0 := if k in groups then groups else groups[k := []];
      IsGrouping(prefix + [(k, v)], if k in groups then keys else keys + [k], g0[k := g0[k] + [v]])
  {
    var all := prefix + [(k, v)];
    assert all[..|all| - 1] == prefix;
    var keys' := if k in groups then keys else keys + [k];
    var g0 := if k in groups then groups else groups[k := []];
    var g1 := g0[k := g0[k] + [v]];
    assert KeysInOrder(all) == keys';
    if k !in groups {
      ValuesWithKeyInAbsent(prefix, k);
    }
    forall k2 | k2 in g1 ensures g1[k2] == ValuesWithKeyIn(all, {k2}) {
      assert ValuesWithKeyIn(all, {k2}) == ValuesWithKeyIn(prefix, {k2}) + (if k in {k2} then [v] else []);
    }
  }

  /** Selecting by a union of disjoint key sets adds up the multisets. */
  lemma {:induction false} ValuesWithKeyInUnion<K, V>(pairs: seq<(K, V)>, a: set<K>, b: set<K>)
    requires a !! b
    ensures multiset(ValuesWithKeyIn(pairs, a + b)) == multiset(ValuesWithKeyIn(pairs, a)) + multiset(ValuesWithKeyIn(pairs, b))
  {
    if |pairs| > 0 {
      ValuesWithKeyInUnion(pairs[..|pairs| - 1], a, b);
    }
  }

  /** Selecting by a set that holds every key keeps every value. */
  lemma {:induction false} ValuesWithKeyInAll<K, V>(pairs: seq<(K, V)>, keys: set<K>)
    requires KeySet(pairs) <= keys
    ensures ValuesWithKeyIn(pairs, keys) == Values(pairs)
  {
    if |pairs| > 0 {
      KeySetAppend(pairs);
      ValuesWithKeyInAll(pairs[..|pairs| - 1], keys);
    }
  }

  lemma {:induction false} ValuesWithKeyInEmpty<K, V>(pairs: seq<(K, V)>)
    ensures ValuesWithKeyIn(pairs, {}) == []
  {
    if |pairs| > 0 {
      ValuesWithKeyInEmpty(pairs[..|pairs| - 1]);
    }
  }

  /** Concatenating the groups of some distinct keys, in any order, gives (as
      a multiset) the values whose key is one of them. */
  lemma {:induction false} GroupsConcatenated<K, V>(pairs: seq<(K, V)>, keys: seq<K>, groups: map<K, seq<V>>)
    requires Distinct(keys)
    requires forall k :: k in keys ==> k in groups && groups[k] == ValuesWithKeyIn(pairs, {k})
    ensures multiset(Concat(keys, groups)) == multiset(ValuesWithKeyIn(pairs, Elems(keys)))
  {
    if |keys| == 0 {
      assert Elems(keys) == {};
      ValuesWithKeyInEmpty(pairs);
    } else {
      var init := keys[..|keys| - 1];
      var k := keys[|keys| - 1];
      assert keys == init + [k];
      DistinctHalves(init, [k]);
      GroupsConcatenated(pairs, init, groups);
      assert Concat(keys, groups) == Concat(init, groups) + groups[k];
      assert Elems(keys) == Elems(init) + {k};
      ValuesWithKeyInUnion(pairs, Elems(init), {k});
    }
  }

  /** `groups[k]` read from a defaultdict(list): a key never appended to
      reads as the empty list. */
  function GroupOf<K(==), V(==)>(groups: map<K, seq<V>>, k: K): seq<V> {
    if k in groups then groups[k] else []
  }

  /** The groups of `keys`, one after the other. */
  function Concat<K(==), V(==)>(keys: seq<K>, groups: map<K, seq<V>>): seq<V> {
    if |keys| == 0 then [] else Concat(keys[..|keys| - 1], groups) + GroupOf(groups, keys[|keys| - 1])
  }

  /** Concatenating the groups of a + b is concatenating those of a, then
      those of b. */
  lemma {:induction false} ConcatAppend<K, V>(a: seq<K>, b: seq<K>, groups: map<K, seq<V>>)
    ensures Concat(a + b, groups) == Concat(a, groups) + Concat(b, groups)
    decreases |b|
  {
    if |b| == 0 {
      assert a + b == a;
    } else {
      var init := b[..|b| - 1];
      assert (a + b)[..|a + b| - 1] == a + init;
      ConcatAppend(a, init, groups);
    }
  }

  /** A value whose entry is the only one carrying it is in the group of its
      own key and in no other. */
  lemma {:induction false} ValueInGroup<K, V>(pairs: seq<(K, V)>, j: int, k: K)
    requires 0 <= j < |pairs|
    requires forall i :: 0 <= i < |pairs| && i != j ==> pairs[i].1 != pairs[j].1
    ensures pairs[j].1 in ValuesWithKeyIn(pairs, {k}) <==> k == pairs[j].0
  {
    var init := pairs[..|pairs| - 1];
    if j < |pairs| - 1 {
      ValueInGroup(init, j, k);
    } else {
      ValueNotIn(init, pairs[j].1, k);
    }
  }

  lemma {:induction false} ValueNotIn<K, V>(pairs: seq<(K, V)>, v: V, k: K)
    requires forall i :: 0 <= i < |pairs| ==> pairs[i].1 != v
    ensures v !in ValuesWithKeyIn(pairs, {k})
  {
    if |pairs| > 0 {
      ValueNotIn(pairs[..|pairs| - 1], v, k);
    }
  }
}
