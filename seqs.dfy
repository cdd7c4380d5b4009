/** Python list slicing, int() truncation and a few sequence facts used by the
    three splitters. */
module Seqs {

  predicate Distinct<T(==)>(s: seq<T>) {
    forall i, j :: 0 <= i < j < |s| ==> s[i] != s[j]
  }

  /** A slice bound as Python normalises it: negative bounds count from the
      end, and every bound is clamped to 0..n. */
  function PyIndex(i: int, n: nat): (r: nat)
    ensures r <= n
    ensures 0 <= i <= n ==> r == i
    ensures i > n ==> r == n
  {
    if i < 0 then (if i + n < 0 then 0 else i + n)
    else if i > n then n
    else i
  }

  /** s[i:j] with Python semantics. */
  function PySlice<T>(s: seq<T>, i: int, j: int): seq<T> {
    var a := PyIndex(i, |s|);
    var b := PyIndex(j, |s|);
    if a < b then s[a..b] else []
  }

  function Min(a: int, b: int): int { if a <= b then a else b }

  /** For non-negative bounds a slice is the plain sub-sequence between the
      bounds, each clamped at the end of the list. */
  lemma {:induction false} PySliceNonNegative<T>(s: seq<T>, i: int, j: int)
    requires 0 <= i <= j
    ensures PySlice(s, i, j) == s[Min(i, |s|)..Min(j, |s|)]
  {
  }

  /** s[:a] + s[a:a+b] + s[a+b:] == s whenever a and b are not negative:
      the three slices partition the list. */
  lemma {:induction false} PySlicesPartition<T>(s: seq<T>, a: int, b: int)
    requires 0 <= a && 0 <= b
    ensures PySlice(s, 0, a) + PySlice(s, a, a + b) + PySlice(s, a + b, |s|) == s
  {
    var n := |s|;
    PySliceNonNegative(s, 0, a);
    PySliceNonNegative(s, a, a + b);
    var x, y := Min(a, n), Min(a + b, n);
    assert PySlice(s, a + b, n) == s[y..n];
    assert s[..x] + s[x..y] + s[y..n] == s;
  }

  /** int(q / d) in Python for a rational q/d: truncation toward zero (Dafny's
      own division rounds toward negative infinity for a negative dividend). */
  function TruncDiv(q: int, d: int): (r: int)
    requires d > 0
  {
    if q >= 0 then q / d else -((-q) / d)
  }

  /** A distinct sequence rearranged keeps distinct. */
  lemma {:induction false} DistinctPermutation<T>(s: seq<T>, t: seq<T>)
    requires Distinct(s) && multiset(s) == multiset(t)
    ensures Distinct(t)
  {
    forall i, j | 0 <= i < j < |t| ensures t[i] != t[j] {
      if t[i] == t[j] {
        CountedTwice(t, i, j);
        DistinctCountsOnce(s, t[i]);
        assert false;
      }
    }
  }

  /** An element at two positions occurs at least twice. */
  lemma {:induction false} CountedTwice<T>(t: seq<T>, i: int, j: int)
    requires 0 <= i < j < |t| && t[i] == t[j]
    ensures multiset(t)[t[i]] >= 2
  {
    var x := t[i];
    assert t == t[..i] + [x] + t[i + 1..j] + [x] + t[j + 1..];
    assert multiset(t) == multiset(t[..i]) + multiset([x]) + multiset(t[i + 1..j]) + multiset([x]) + multiset(t[j + 1..]);
  }

  lemma {:induction false} DistinctCountsOnce<T>(s: seq<T>, x: T)
    requires Distinct(s)
    ensures multiset(s)[x] <= 1
  {
    if |s| > 0 {
      var init := s[..|s| - 1];
      assert s == init + [s[|s| - 1]];
      DistinctCountsOnce(init, x);
      if s[|s| - 1] == x {
        assert x !in init;
      }
    }
  }

  /** set(s). */
  function Elems<T>(s: seq<T>): set<T> {
    set x | x in s
  }

  /** The parts of a duplicate-free list share no element. */
  lemma {:induction false} DistinctPartsDisjoint<T>(a: seq<T>, b: seq<T>)
    requires Distinct(a + b)
    ensures Elems(a) !! Elems(b)
  {
    forall i, j | 0 <= i < |a| && 0 <= j < |b| ensures a[i] != b[j] {
      assert (a + b)[i] == a[i];
      assert (a + b)[|a| + j] == b[j];
    }
  }

  /** Both halves of a duplicate-free list are duplicate-free. */
  lemma {:induction false} DistinctHalves<T>(a: seq<T>, b: seq<T>)
    requires Distinct(a + b)
    ensures Distinct(a) && Distinct(b)
  {
    forall i, j | 0 <= i < j < |a| ensures a[i] != a[j] {
      assert (a + b)[i] == a[i];
      assert (a + b)[j] == a[j];
    }
    forall i, j | 0 <= i < j < |b| ensures b[i] != b[j] {
      assert (a + b)[|a| + i] == b[i];
      assert (a + b)[|a| + j] == b[j];
    }
  }

  lemma {:induction false} ElemsConcat<T>(a: seq<T>, b: seq<T>)
    ensures Elems(a + b) == Elems(a) + Elems(b)
  {
  }

  /** A rearrangement has the same elements. */
  lemma {:induction false} ElemsPermutation<T>(s: seq<T>, t: seq<T>)
    requires multiset(s) == multiset(t)
    ensures Elems(s) == Elems(t)
  {
    forall x ensures x in s <==> x in t {
      assert x in s <==> x in multiset(s);
      assert x in t <==> x in multiset(t);
    }
  }

  /** Cutting a duplicate-free list in three gives pairwise disjoint sets whose
      union is the set of the whole list. */
  lemma {:induction false} DistinctThreeParts<T>(s1: seq<T>, s2: seq<T>, s3: seq<T>)
    requires Distinct(s1 + s2 + s3)
    ensures Elems(s1) !! Elems(s2) && Elems(s1) !! Elems(s3) && Elems(s2) !! Elems(s3)
    ensures Elems(s1) + Elems(s2) + Elems(s3) == Elems(s1 + s2 + s3)
  {
    assert s1 + s2 + s3 == s1 + (s2 + s3);
    DistinctPartsDisjoint(s1, s2 + s3);
    DistinctHalves(s1, s2 + s3);
    DistinctPartsDisjoint(s2, s3);
    ElemsConcat(s2, s3);
    ElemsConcat(s1, s2 + s3);
  }

  /** s[:a], s[a:a+b] and s[a+b:] of a rearrangement of a duplicate-free list,
      for a and b not negative: pairwise disjoint sets that together hold every
      element of the list. */
  /** The three slices s[:a], s[a:a+b], s[a+b:] for bounds that are not
      negative, as plain sub-sequences with each bound clamped. */
  lemma {:induction false} ThreeSlices<T>(s: seq<T>, a: int, b: int)
    requires 0 <= a && 0 <= b
    ensures PySlice(s, 0, a) == s[..Min(a, |s|)]
    ensures PySlice(s, a, a + b) == s[Min(a, |s|)..Min(a + b, |s|)]
    ensures PySlice(s, a + b, |s|) == s[Min(a + b, |s|)..]
  {
    PySliceNonNegative(s, 0, a);
    PySliceNonNegative(s, a, a + b);
    if a + b <= |s| {
      PySliceNonNegative(s, a + b, |s|);
    }
  }

  lemma {:induction false} ShuffledSlicesPartition<T>(ids: seq<T>, s: seq<T>, a: int, b: int)
    requires 0 <= a && 0 <= b
    requires Distinct(ids) && multiset(s) == multiset(ids)
    ensures var s1, s2, s3 := Elems(PySlice(s, 0, a)), Elems(PySlice(s, a, a + b)), Elems(PySlice(s, a + b, |s|));
      && s1 !! s2 && s1 !! s3 && s2 !! s3
      && s1 + s2 + s3 == Elems(ids)
  {
    PySlicesPartition(s, a, b);
    DistinctPermutation(ids, s);
    ElemsPermutation(ids, s);
    DistinctThreeParts(PySlice(s, 0, a), PySlice(s, a, a + b), PySlice(s, a + b, |s|));
  }
}
