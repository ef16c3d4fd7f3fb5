/**
 * Ordering the cities by position. `SortCities` is the reference order (an
 * insertion sort on values); `SortByPosition` sorts the road's array in place
 * and stands for the qsort call of `getEstrada`. `SortedUnique` ties the two:
 * a sorted permutation of cities with distinct positions is unique.
 */
module Sorting {
  import opened Cities

  function Insert(x: City, s: seq<City>): (r: seq<City>)
    ensures |r| == |s| + 1
    ensures multiset(r) == multiset(s) + multiset{x}
  {
    if s == [] || x.position <= s[0].position then [x] + s
    else
      assert s == [s[0]] + s[1..];
      [s[0]] + Insert(x, s[1..])
  }

  function SortCities(s: seq<City>): (r: seq<City>)
    ensures |r| == |s|
    ensures multiset(r) == multiset(s)
  {
    if s == [] then []
    else
      assert s == [s[0]] + s[1..];
      Insert(s[0], SortCities(s[1..]))
  }

  /** Inserting a city whose position is new keeps a strictly increasing sequence so. */
  lemma {:induction false} InsertIncreasing(x: City, s: seq<City>)
    requires StrictlyIncreasing(s)
    requires forall k :: 0 <= k < |s| ==> s[k].position != x.position
    ensures StrictlyIncreasing(Insert(x, s))
  {
    if s == [] || x.position <= s[0].position {
    } else {
      InsertIncreasing(x, s[1..]);
      var r := Insert(x, s[1..]);
      forall k | 0 <= k < |r|
        ensures s[0].position < r[k].position
      {
        assert r[k] in multiset(r);
        if r[k] != x {
          assert r[k] in multiset(s[1..]);
        }
      }
    }
  }

  /** Sorting cities with distinct positions yields a strictly increasing sequence. */
  lemma {:induction false} SortCitiesIncreasing(s: seq<City>)
    requires DistinctPositions(s)
    ensures StrictlyIncreasing(SortCities(s))
  {
    if s != [] {
      var tail := SortCities(s[1..]);
      SortCitiesIncreasing(s[1..]);
      forall k | 0 <= k < |tail|
        ensures tail[k].position != s[0].position
      {
        assert tail[k] in multiset(s[1..]);
        var m :| 0 <= m < |s[1..]| && s[1..][m] == tail[k];
        assert s[m + 1] == tail[k];
      }
      InsertIncreasing(s[0], tail);
    }
  }

  /** A permutation of cities that lie inside the road lies inside the road. */
  lemma PermutationInside(a: seq<City>, b: seq<City>, t: int)
    requires multiset(a) == multiset(b)
    requires Inside(b, t)
    ensures Inside(a, t)
  {
    forall k | 0 <= k < |a|
      ensures 0 < a[k].position < t
    {
      assert a[k] in multiset(b);
    }
  }

  /** Two sorted permutations of each other, one strictly increasing, start alike. */
  lemma HeadsEqual(a: seq<City>, b: seq<City>)
    requires StrictlyIncreasing(a)
    requires Sorted(b)
    requires multiset(a) == multiset(b)
    requires a != []
    ensures b != [] && a[0] == b[0]
  {
    assert a[0] in multiset(b);
    assert b[0] in multiset(a);
    var j :| 0 <= j < |a| && a[j] == b[0];
    var k :| 0 <= k < |b| && b[k] == a[0];
    assert b[0].position <= b[k].position;
  }

  /** Two sorted permutations of each other, one strictly increasing, are equal. */
  lemma {:induction false} SortedUnique(a: seq<City>, b: seq<City>)
    requires StrictlyIncreasing(a)
    requires Sorted(b)
    requires multiset(a) == multiset(b)
    ensures a == b
  {
    assert |a| == |multiset(a)| == |multiset(b)| == |b|;
    if a != [] {
      HeadsEqual(a, b);
      var a', b' := a[1..], b[1..];
      assert a == [a[0]] + a';
      assert b == [b[0]] + b';
      assert multiset(a) == multiset{a[0]} + multiset(a');
      assert multiset(b) == multiset{a[0]} + multiset(b');
      assert multiset(a') == multiset(a) - multiset{a[0]};
      assert multiset(b') == multiset(b) - multiset{a[0]};
      SortedUnique(a', b');
    }
  }

  /** The first index in a[from..] holding a city of least position. */
  method IndexOfMinimum(a: array<City>, from: nat) returns (m: nat)
    requires from < a.Length
    ensures from <= m < a.Length
    ensures forall q :: from <= q < a.Length ==> a[m].position <= a[q].position
  {
    m := from;
    var j := from + 1;
    while j < a.Length
      invariant from <= m < a.Length
      invariant from < j <= a.Length
      invariant forall q :: from <= q < j ==> a[m].position <= a[q].position
    {
      if CompareCities(a[j], a[m]) < 0 {
        m := j;
      }
      j := j + 1;
    }
  }

  method Swap(a: array<City>, i: nat, j: nat)
    requires i < a.Length && j < a.Length
    modifies a
    ensures a[..] == old(a[..])[i := old(a[j])][j := old(a[i])]
    ensures multiset(a[..]) == multiset(old(a[..]))
  {
    a[i], a[j] := a[j], a[i];
  }

  /** The first i places of s hold its i least positions, in order. */
  predicate SortedUpTo(s: seq<City>, i: int) {
    forall p, q :: 0 <= p < q < |s| && p < i ==> s[p].position <= s[q].position
  }

  /** Moving a least city of s[i..] to place i extends the sorted prefix by one. */
  lemma SelectionStep(s: seq<City>, i: nat, m: nat)
    requires i <= m < |s|
    requires SortedUpTo(s, i)
    requires forall q :: i <= q < |s| ==> s[m].position <= s[q].position
    ensures SortedUpTo(s[i := s[m]][m := s[i]], i + 1)
  {
  }

  /** The qsort of `getEstrada`: sorts `a` in place under `compararCidades`.
      A selection sort; it consults the comparator only through its sign. */
  method SortByPosition(a: array<City>)
    modifies a
    ensures Sorted(a[..])
    ensures multiset(a[..]) == multiset(old(a[..]))
  {
    var i := 0;
    while i < a.Length
      invariant 0 <= i <= a.Length
      invariant SortedUpTo(a[..], i)
      invariant multiset(a[..]) == multiset(old(a[..]))
    {
      var m := IndexOfMinimum(a, i);
      SelectionStep(a[..], i, m);
      Swap(a, i, m);
      i := i + 1;
    }
  }
}
