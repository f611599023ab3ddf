/** Stable sorting by a pair of numbers, as Array.prototype.sort and ORDER BY do it. */
module Ordering {
  import opened Prelude

  type Key = (nat, nat)

  predicate KeyLe(a: Key, b: Key) {
    a.0 < b.0 || (a.0 == b.0 && a.1 <= b.1)
  }

  predicate KeyLess(a: Key, b: Key) {
    KeyLe(a, b) && a != b
  }

  /** Puts x behind every element that is not greater. */
  function Place<T>(s: seq<T>, x: T, key: T -> Key): seq<T> {
    if s == [] || KeyLe(key(s[|s| - 1]), key(x)) then s + [x]
    else Place(s[..|s| - 1], x, key) + [s[|s| - 1]]
  }

  function StableSort<T>(s: seq<T>, key: T -> Key): seq<T> {
    if s == [] then [] else Place(StableSort(s[..|s| - 1], key), s[|s| - 1], key)
  }

  ghost predicate SortedBy<T>(s: seq<T>, key: T -> Key) {
    forall i, j :: 0 <= i < j < |s| ==> KeyLe(key(s[i]), key(s[j]))
  }

  ghost predicate StrictlySortedBy<T>(s: seq<T>, key: T -> Key) {
    forall i, j :: 0 <= i < j < |s| ==> KeyLess(key(s[i]), key(s[j]))
  }

  lemma {:induction false} PlaceElements<T>(s: seq<T>, x: T, key: T -> Key)
    ensures multiset(Place(s, x, key)) == multiset(s) + multiset{x}
  {
    if s == [] || KeyLe(key(s[|s| - 1]), key(x)) {
    } else {
      PlaceElements(s[..|s| - 1], x, key);
      assert s == s[..|s| - 1] + [s[|s| - 1]];
    }
  }

  lemma {:induction false} PlaceSorted<T>(s: seq<T>, x: T, key: T -> Key)
    requires SortedBy(s, key)
    ensures SortedBy(Place(s, x, key), key)
  {
    if s == [] || KeyLe(key(s[|s| - 1]), key(x)) {
    } else {
      var front, last := s[..|s| - 1], s[|s| - 1];
      PlaceSorted(front, x, key);
      PlaceElements(front, x, key);
      var placed := Place(front, x, key);
      forall y | y in placed ensures KeyLe(key(y), key(last)) {
        assert y in multiset(placed);
        assert y in multiset(front) || y == x;
      }
    }
  }

  lemma {:induction false} SortIsSorted<T>(s: seq<T>, key: T -> Key)
    ensures SortedBy(StableSort(s, key), key)
    ensures multiset(StableSort(s, key)) == multiset(s)
  {
    if s != [] {
      var front := s[..|s| - 1];
      SortIsSorted(front, key);
      PlaceSorted(StableSort(front, key), s[|s| - 1], key);
      PlaceElements(StableSort(front, key), s[|s| - 1], key);
      assert s == front + [s[|s| - 1]];
    }
  }

  lemma SameMultisetSameElements<T>(a: seq<T>, b: seq<T>)
    requires multiset(a) == multiset(b)
    ensures |a| == |b| && forall x :: x in a <==> x in b
  {
    assert |multiset(a)| == |a| && |multiset(b)| == |b|;
    forall x ensures x in a <==> x in b {
      assert x in multiset(a) <==> x in multiset(b);
    }
  }

  lemma {:induction false} SortOfSorted<T>(s: seq<T>, key: T -> Key)
    requires SortedBy(s, key)
    ensures StableSort(s, key) == s
  {
    if s != [] {
      SortOfSorted(s[..|s| - 1], key);
      assert s == s[..|s| - 1] + [s[|s| - 1]];
      if |s| > 1 {
        assert KeyLe(key(s[|s| - 2]), key(s[|s| - 1]));
      }
    }
  }

  lemma StrictMeansDistinct<T>(s: seq<T>, key: T -> Key)
    requires StrictlySortedBy(s, key)
    ensures forall i, j :: 0 <= i < j < |s| ==> s[i] != s[j]
    ensures |Elements(s)| == |s|
  {
    forall i, j | 0 <= i < j < |s| ensures s[i] != s[j] {
      assert KeyLess(key(s[i]), key(s[j]));
    }
    DistinctSize(s);
  }

  /** The last element is the greatest, so it is the same in two sequences of equal elements. */
  lemma SameLast<T>(a: seq<T>, b: seq<T>, key: T -> Key)
    requires StrictlySortedBy(a, key) && StrictlySortedBy(b, key)
    requires Elements(a) == Elements(b) && a != [] && b != []
    ensures a[|a| - 1] == b[|b| - 1]
  {
    var x, y := a[|a| - 1], b[|b| - 1];
    assert x in Elements(a) && y in Elements(b);
    var i: nat :| i < |b| && b[i] == x;
    var j: nat :| j < |a| && a[j] == y;
    BelowLast(b, i, key);
    BelowLast(a, j, key);
  }

  lemma BelowLast<T>(s: seq<T>, i: nat, key: T -> Key)
    requires StrictlySortedBy(s, key) && i < |s|
    ensures KeyLe(key(s[i]), key(s[|s| - 1])) && (s[i] == s[|s| - 1] || KeyLess(key(s[i]), key(s[|s| - 1])))
  {
  }

  lemma DropLast<T>(s: seq<T>)
    requires s != [] && forall i, j :: 0 <= i < j < |s| ==> s[i] != s[j]
    ensures Elements(s[..|s| - 1]) == Elements(s) - {s[|s| - 1]}
  {
    assert s == s[..|s| - 1] + [s[|s| - 1]];
  }

  /** A strictly sorted sequence is determined by its elements. */
  lemma {:induction false} StrictlySortedUnique<T>(a: seq<T>, b: seq<T>, key: T -> Key)
    requires StrictlySortedBy(a, key) && StrictlySortedBy(b, key)
    requires Elements(a) == Elements(b)
    ensures a == b
    decreases |a|
  {
    StrictMeansDistinct(a, key);
    StrictMeansDistinct(b, key);
    if a != [] {
      SameLast(a, b, key);
      DropLast(a);
      DropLast(b);
      StrictlySortedUnique(a[..|a| - 1], b[..|b| - 1], key);
      assert a == a[..|a| - 1] + [a[|a| - 1]] && b == b[..|b| - 1] + [b[|b| - 1]];
    }
  }

  // --------------------------------------------------------------- stability

  /** The elements with key k, in their order. */
  function WithKey<T>(s: seq<T>, key: T -> Key, k: Key): seq<T> {
    if s == [] then []
    else
      var front := WithKey(s[..|s| - 1], key, k);
      if key(s[|s| - 1]) == k then front + [s[|s| - 1]] else front
  }

  /** t is s in order, equal keys in the order they have in s. */
  ghost predicate IsStableSort<T(!new)>(s: seq<T>, t: seq<T>, key: T -> Key) {
    SortedBy(t, key) && multiset(t) == multiset(s) && forall k {:trigger WithKey(t, key, k)} :: WithKey(t, key, k) == WithKey(s, key, k)
  }

  lemma {:induction false} PlaceWithKey<T>(s: seq<T>, x: T, key: T -> Key, k: Key)
    ensures WithKey(Place(s, x, key), key, k) == WithKey(s, key, k) + if key(x) == k then [x] else []
  {
    if s == [] || KeyLe(key(s[|s| - 1]), key(x)) {
      assert (s + [x])[..|s|] == s;
    } else {
      var placed := Place(s[..|s| - 1], x, key);
      PlaceWithKey(s[..|s| - 1], x, key, k);
      assert (placed + [s[|s| - 1]])[..|placed|] == placed;
    }
  }

  lemma {:induction false} SortWithKey<T>(s: seq<T>, key: T -> Key, k: Key)
    ensures WithKey(StableSort(s, key), key, k) == WithKey(s, key, k)
  {
    if s != [] {
      SortWithKey(s[..|s| - 1], key, k);
      PlaceWithKey(StableSort(s[..|s| - 1], key), s[|s| - 1], key, k);
    }
  }

  /** The sort is stable, on every input. */
  lemma SortIsStable<T(!new)>(s: seq<T>, key: T -> Key)
    ensures IsStableSort(s, StableSort(s, key), key)
  {
    SortIsSorted(s, key);
    forall k
      ensures WithKey(StableSort(s, key), key, k) == WithKey(s, key, k)
    {
      SortWithKey(s, key, k);
    }
  }

  lemma {:induction false} WithKeyHas<T>(s: seq<T>, key: T -> Key, k: Key)
    ensures WithKey(s, key, k) != [] <==> exists i :: 0 <= i < |s| && key(s[i]) == k
  {
    if s != [] {
      WithKeyHas(s[..|s| - 1], key, k);
    }
  }

  lemma LastWithKey<T>(s: seq<T>, key: T -> Key)
    requires s != []
    ensures WithKey(s, key, key(s[|s| - 1])) != [] && WithKey(s, key, key(s[|s| - 1]))[|WithKey(s, key, key(s[|s| - 1]))| - 1] == s[|s| - 1]
  {
  }

  lemma SameGreatest<T>(a: seq<T>, b: seq<T>, key: T -> Key)
    requires SortedBy(a, key) && SortedBy(b, key) && a != [] && b != []
    requires forall k {:trigger WithKey(a, key, k)} {:trigger WithKey(b, key, k)} :: WithKey(a, key, k) == WithKey(b, key, k)
    ensures a[|a| - 1] == b[|b| - 1]
  {
    var ka, kb := key(a[|a| - 1]), key(b[|b| - 1]);
    LastWithKey(a, key);
    LastWithKey(b, key);
    WithKeyHas(b, key, ka);
    WithKeyHas(a, key, kb);
    var i :| 0 <= i < |b| && key(b[i]) == ka;
    var j :| 0 <= j < |a| && key(a[j]) == kb;
    assert i < |b| - 1 ==> KeyLe(ka, kb);
    assert j < |a| - 1 ==> KeyLe(kb, ka);
  }

  /** Order and stability determine the result. */
  lemma {:induction false} SameSorted<T>(a: seq<T>, b: seq<T>, key: T -> Key)
    requires SortedBy(a, key) && SortedBy(b, key)
    requires forall k {:trigger WithKey(a, key, k)} {:trigger WithKey(b, key, k)} :: WithKey(a, key, k) == WithKey(b, key, k)
    ensures a == b
    decreases |a|
  {
    if a == [] || b == [] {
      if a != [] {
        LastWithKey(a, key);
      }
      if b != [] {
        LastWithKey(b, key);
      }
    } else {
      SameGreatest(a, b, key);
      var front, other, last := a[..|a| - 1], b[..|b| - 1], a[|a| - 1];
      forall k
        ensures WithKey(front, key, k) == WithKey(other, key, k)
      {
        assert WithKey(a, key, k) == WithKey(b, key, k);
        var x, y := WithKey(front, key, k), WithKey(other, key, k);
        if key(last) == k {
          assert x + [last] == y + [last];
          assert x == (x + [last])[..|x + [last]| - 1] && y == (y + [last])[..|y + [last]| - 1];
        }
      }
      SameSorted(front, other, key);
      assert a == front + [last] && b == other + [last];
    }
  }

  lemma StableSortIsTheOne<T(!new)>(s: seq<T>, t: seq<T>, key: T -> Key)
    ensures IsStableSort(s, t, key) <==> t == StableSort(s, key)
  {
    SortIsStable(s, key);
    if IsStableSort(s, t, key) {
      SameSorted(t, StableSort(s, key), key);
    }
  }

  // -------------------------------------------------------------- selections

  /** t holds the elements of s that meet p, all of them, at increasing positions of s. */
  ghost predicate IsSelection<T(!new)>(s: seq<T>, t: seq<T>, p: T -> bool, at: seq<nat>) {
    && |at| == |t| && Increasing(at)
    && (forall k :: 0 <= k < |at| ==> at[k] < |s| && t[k] == s[at[k]])
    && (forall i: nat {:trigger s[i]} :: i < |s| ==> (p(s[i]) <==> i in at))
  }

  lemma PositionsBefore<T(!new)>(s: seq<T>, t: seq<T>, p: T -> bool, at: seq<nat>)
    requires IsSelection(s, t, p, at)
    ensures |s| !in at && forall k :: 0 <= k < |at| ==> at[k] < |s|
  {
  }

  lemma SelectSkips<T(!new)>(s: seq<T>, last: T, t: seq<T>, p: T -> bool, at: seq<nat>)
    requires IsSelection(s, t, p, at) && !p(last)
    ensures IsSelection(s + [last], t, p, at)
  {
    PositionsBefore(s, t, p, at);
    var more := s + [last];
    forall i: nat | i < |more|
      ensures p(more[i]) <==> i in at
    {
      assert i < |s| ==> more[i] == s[i];
    }
  }

  lemma SelectTakes<T(!new)>(s: seq<T>, last: T, t: seq<T>, p: T -> bool, at: seq<nat>)
    requires IsSelection(s, t, p, at) && p(last)
    ensures IsSelection(s + [last], t + [last], p, at + [|s|])
  {
    PositionsBefore(s, t, p, at);
    var more, positions := s + [last], at + [|s|];
    assert forall i: nat :: i in positions <==> i in at || i == |s|;
    forall i: nat | i < |more|
      ensures p(more[i]) <==> i in positions
    {
      assert i < |s| ==> more[i] == s[i];
    }
    assert Increasing(positions);
  }

  lemma SelectNext<T(!new)>(s: seq<T>, last: T, t: seq<T>, p: T -> bool, at: seq<nat>)
    requires IsSelection(s, t, p, at)
    ensures if p(last) then IsSelection(s + [last], t + [last], p, at + [|s|]) else IsSelection(s + [last], t, p, at)
  {
    if p(last) {
      SelectTakes(s, last, t, p, at);
    } else {
      SelectSkips(s, last, t, p, at);
    }
  }

  /** A selection of a sorted sequence is sorted. */
  lemma SelectionStaysSorted<T(!new)>(s: seq<T>, t: seq<T>, p: T -> bool, at: seq<nat>, key: T -> Key)
    requires IsSelection(s, t, p, at) && SortedBy(s, key)
    ensures SortedBy(t, key)
  {
    forall i, j | 0 <= i < j < |t|
      ensures KeyLe(key(t[i]), key(t[j]))
    {
      assert at[i] < at[j];
    }
  }
}
