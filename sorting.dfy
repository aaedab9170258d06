/** The stable sort the candidate ranking relies on (Array.prototype.sort with
    a comparator that orders by games, then by time). */
module Sorting {
  /** The comparator's two criteria: projected games, then projected time. */
  datatype Key = Key(games: int, time: int)

  /** The comparator's order: games first, time breaks ties. */
  predicate KeyLe(a: Key, b: Key)
  {
    a.games < b.games || (a.games == b.games && a.time <= b.time)
  }

  predicate SortedBy<T>(s: seq<T>, key: T -> Key)
  {
    forall i, j :: 0 <= i < j < |s| ==> KeyLe(key(s[i]), key(s[j]))
  }

  /** The elements of `s` whose key is `k`, in their order in `s`. */
  function WithKey<T>(s: seq<T>, key: T -> Key, k: Key): seq<T>
  {
    if s == [] then []
    else WithKey(s[..|s| - 1], key, k) + (if key(s[|s| - 1]) == k then [s[|s| - 1]] else [])
  }

  predicate DistinctBy<T, U(==)>(s: seq<T>, f: T -> U)
  {
    forall i, j :: 0 <= i < j < |s| ==> f(s[i]) != f(s[j])
  }

  /** Places `x` after every element of `t` whose key is not greater than its own. */
  function Insert<T>(t: seq<T>, x: T, key: T -> Key): (r: seq<T>)
    ensures multiset(r) == multiset(t) + multiset{x}
    ensures |r| == |t| + 1
  {
    if t == [] then [x]
    else if KeyLe(key(t[|t| - 1]), key(x)) then t + [x]
    else
      assert t == t[..|t| - 1] + [t[|t| - 1]];
      Insert(t[..|t| - 1], x, key) + [t[|t| - 1]]
  }

  /** Insertion sort, taking elements from the front in order. */
  function SortBy<T>(s: seq<T>, key: T -> Key): (r: seq<T>)
    ensures multiset(r) == multiset(s)
    ensures |r| == |s|
  {
    if s == [] then []
    else
      assert s == s[..|s| - 1] + [s[|s| - 1]];
      Insert(SortBy(s[..|s| - 1], key), s[|s| - 1], key)
  }

  lemma InInsert<T>(t: seq<T>, x: T, key: T -> Key, y: T)
    requires y in Insert(t, x, key)
    ensures y in t || y == x
  {
    assert y in multiset(Insert(t, x, key));
  }

  lemma {:induction false} InsertSorted<T>(t: seq<T>, x: T, key: T -> Key)
    requires SortedBy(t, key)
    ensures SortedBy(Insert(t, x, key), key)
  {
    if t != [] && !KeyLe(key(t[|t| - 1]), key(x)) {
      var init, last := t[..|t| - 1], t[|t| - 1];
      InsertSorted(init, x, key);
      var r := Insert(init, x, key);
      forall i | 0 <= i < |r|
        ensures KeyLe(key(r[i]), key(last))
      {
        InInsert(init, x, key, r[i]);
        if r[i] in init {
          var j :| 0 <= j < |init| && init[j] == r[i];
          assert t[j] == r[i];
        }
      }
    }
  }

  lemma {:induction false} InsertWithKey<T>(t: seq<T>, x: T, key: T -> Key, k: Key)
    ensures WithKey(Insert(t, x, key), key, k) == WithKey(t, key, k) + (if key(x) == k then [x] else [])
  {
    if t == [] {
      assert WithKey([x], key, k) == WithKey([], key, k) + (if key(x) == k then [x] else []) by {
        assert [x][..0] == [];
      }
    } else if KeyLe(key(t[|t| - 1]), key(x)) {
      assert (t + [x])[..|t|] == t;
    } else {
      var init, last := t[..|t| - 1], t[|t| - 1];
      InsertWithKey(init, x, key, k);
      var r := Insert(init, x, key);
      assert (r + [last])[..|r|] == r;
      assert key(x) != key(last);
    }
  }

  lemma {:induction false} InsertDistinct<T, U>(t: seq<T>, x: T, key: T -> Key, f: T -> U)
    requires DistinctBy(t, f)
    requires forall y :: y in t ==> f(y) != f(x)
    ensures DistinctBy(Insert(t, x, key), f)
  {
    if t != [] && !KeyLe(key(t[|t| - 1]), key(x)) {
      var init, last := t[..|t| - 1], t[|t| - 1];
      assert forall y :: y in init ==> y in t;
      InsertDistinct(init, x, key, f);
      var r := Insert(init, x, key);
      forall i | 0 <= i < |r|
        ensures f(r[i]) != f(last)
      {
        InInsert(init, x, key, r[i]);
        if r[i] in init {
          var j :| 0 <= j < |init| && init[j] == r[i];
          assert t[j] == r[i];
        }
      }
    }
  }

  lemma {:induction false} InsertCongruent<T>(t: seq<T>, x: T, k1: T -> Key, k2: T -> Key)
    requires forall y :: y in t ==> k1(y) == k2(y)
    requires k1(x) == k2(x)
    ensures Insert(t, x, k1) == Insert(t, x, k2)
  {
    if t != [] {
      var init := t[..|t| - 1];
      assert forall y :: y in init ==> y in t;
      InsertCongruent(init, x, k1, k2);
    }
  }

  /** The sort's output is ordered by the key. */
  lemma {:induction false} SortBySorted<T>(s: seq<T>, key: T -> Key)
    ensures SortedBy(SortBy(s, key), key)
  {
    if s != [] {
      SortBySorted(s[..|s| - 1], key);
      InsertSorted(SortBy(s[..|s| - 1], key), s[|s| - 1], key);
    }
  }

  /** The sort is stable: elements with equal keys keep their relative order. */
  lemma {:induction false} SortByStable<T>(s: seq<T>, key: T -> Key, k: Key)
    ensures WithKey(SortBy(s, key), key, k) == WithKey(s, key, k)
  {
    if s != [] {
      SortByStable(s[..|s| - 1], key, k);
      InsertWithKey(SortBy(s[..|s| - 1], key), s[|s| - 1], key, k);
    }
  }

  /** Sorting never creates two elements with the same projection. */
  lemma {:induction false} SortByDistinct<T, U>(s: seq<T>, key: T -> Key, f: T -> U)
    requires DistinctBy(s, f)
    ensures DistinctBy(SortBy(s, key), f)
  {
    if s != [] {
      var init, last := s[..|s| - 1], s[|s| - 1];
      assert DistinctBy(init, f);
      SortByDistinct(init, key, f);
      var t := SortBy(init, key);
      forall y | y in t
        ensures f(y) != f(last)
      {
        assert y in multiset(init);
        var j :| 0 <= j < |init| && init[j] == y;
        assert s[j] == y;
      }
      InsertDistinct(t, last, key, f);
    }
  }

  /** Two keys that agree on every element sort the same way. */
  lemma {:induction false} SortByCongruent<T>(s: seq<T>, k1: T -> Key, k2: T -> Key)
    requires forall y :: y in s ==> k1(y) == k2(y)
    ensures SortBy(s, k1) == SortBy(s, k2)
  {
    if s != [] {
      var init := s[..|s| - 1];
      assert forall y :: y in init ==> y in s;
      SortByCongruent(init, k1, k2);
      var t := SortBy(init, k1);
      forall y | y in t
        ensures k1(y) == k2(y)
      {
        assert y in multiset(init);
      }
      InsertCongruent(t, s[|s| - 1], k1, k2);
    }
  }
}
