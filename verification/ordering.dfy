/**
 Stable ordering by an integer key, as `Array.prototype.sort` does with a numeric comparator
 (the sort is stable since ECMAScript 2019: elements that compare equal keep their input order).
 */
module Ordering {

  /** Does a key `x` belong no later than a key `y` in the requested direction? */
  predicate InOrder(x: int, y: int, descending: bool) {
    if descending then x >= y else x <= y
  }

  /** Every earlier element's key is in order with every later element's key. */
  predicate Sorted<T>(s: seq<T>, key: T -> int, descending: bool) {
    forall i, j :: 0 <= i < j < |s| ==> InOrder(key(s[i]), key(s[j]), descending)
  }

  /** The elements of `s` whose key is `v`, in the order they appear in `s`. */
  function WithKey<T>(s: seq<T>, key: T -> int, v: int): seq<T> {
    if s == [] then []
    else (if key(s[0]) == v then [s[0]] else []) + WithKey(s[1..], key, v)
  }

  /** Places `x` in front of the first element it is in order with. */
  function Insert<T>(x: T, t: seq<T>, key: T -> int, descending: bool): (r: seq<T>)
    ensures multiset(r) == multiset([x] + t)
  {
    if t == [] || InOrder(key(x), key(t[0]), descending) then [x] + t
    else
      assert t == [t[0]] + t[1..];
      [t[0]] + Insert(x, t[1..], key, descending)
  }

  /** Inserting into a sorted list gives a sorted list. */
  lemma {:induction false} InsertSorted<T>(x: T, t: seq<T>, key: T -> int, descending: bool)
    requires Sorted(t, key, descending)
    ensures Sorted(Insert(x, t, key, descending), key, descending)
    decreases |t|
  {
    if t == [] || InOrder(key(x), key(t[0]), descending) {
      ConsSorted(x, t, key, descending);
    } else {
      var rest := Insert(x, t[1..], key, descending);
      InsertSorted(x, t[1..], key, descending);
      HeadBeforeInserted(x, t, rest, key, descending);
      ConsSorted(t[0], rest, key, descending);
    }
  }

  /** A key in order with the head of a sorted list can go in front of it. */
  lemma ConsSorted<T>(x: T, t: seq<T>, key: T -> int, descending: bool)
    requires Sorted(t, key, descending)
    requires t == [] || InOrder(key(x), key(t[0]), descending)
    ensures Sorted([x] + t, key, descending)
  {
    var r := [x] + t;
    forall i, j | 0 <= i < j < |r| ensures InOrder(key(r[i]), key(r[j]), descending) {
      if i > 0 {
        assert r[i] == t[i - 1] && r[j] == t[j - 1];
      } else if j > 1 {
        assert InOrder(key(t[0]), key(t[j - 1]), descending);
      }
    }
  }

  /** The head of a sorted list stays in order with every element of the tail with `x` inserted. */
  lemma HeadBeforeInserted<T>(x: T, t: seq<T>, rest: seq<T>, key: T -> int, descending: bool)
    requires Sorted(t, key, descending) && t != []
    requires !InOrder(key(x), key(t[0]), descending)
    requires multiset(rest) == multiset([x] + t[1..])
    ensures rest == [] || InOrder(key(t[0]), key(rest[0]), descending)
  {
    if rest != [] {
      assert rest[0] in multiset([x] + t[1..]);
      if rest[0] != x {
        assert rest[0] in t[1..];
        var k :| 0 <= k < |t[1..]| && t[1..][k] == rest[0];
        assert t[k + 1] == rest[0];
      }
    }
  }

  /** Stable insertion sort: the order `sort` produces with a comparator on `key`. */
  function SortBy<T>(s: seq<T>, key: T -> int, descending: bool): (r: seq<T>)
    ensures Sorted(r, key, descending)
    ensures multiset(r) == multiset(s)
  {
    if s == [] then []
    else
      assert s == [s[0]] + s[1..];
      InsertSorted(s[0], SortBy(s[1..], key, descending), key, descending);
      Insert(s[0], SortBy(s[1..], key, descending), key, descending)
  }

  lemma WithKeyCons<T>(x: T, t: seq<T>, key: T -> int, v: int)
    ensures WithKey([x] + t, key, v) == (if key(x) == v then [x] else []) + WithKey(t, key, v)
  {
    assert ([x] + t)[1..] == t;
  }

  /** Inserting `x` in front of a sorted list keeps the relative order of each class of equal keys. */
  lemma {:induction false} InsertStable<T>(x: T, t: seq<T>, key: T -> int, descending: bool, v: int)
    ensures WithKey(Insert(x, t, key, descending), key, v) == WithKey([x] + t, key, v)
    decreases |t|
  {
    if t == [] || InOrder(key(x), key(t[0]), descending) {
    } else {
      assert t == [t[0]] + t[1..];
      InsertStable(x, t[1..], key, descending, v);
      WithKeyCons(t[0], Insert(x, t[1..], key, descending), key, v);
      WithKeyCons(x, t[1..], key, v);
      WithKeyCons(x, t, key, v);
      WithKeyCons(t[0], t[1..], key, v);
    }
  }

  /** The sort is stable: for every key value, the elements carrying it keep their input order. */
  lemma {:induction false} SortStable<T>(s: seq<T>, key: T -> int, descending: bool, v: int)
    ensures WithKey(SortBy(s, key, descending), key, v) == WithKey(s, key, v)
  {
    if s != [] {
      SortStable(s[1..], key, descending, v);
      InsertStable(s[0], SortBy(s[1..], key, descending), key, descending, v);
      WithKeyCons(s[0], SortBy(s[1..], key, descending), key, v);
      WithKeyCons(s[0], s[1..], key, v);
      assert s == [s[0]] + s[1..];
    }
  }

  /** An input that is already in order comes back unchanged. */
  lemma {:induction false} SortSortedIsIdentity<T>(s: seq<T>, key: T -> int, descending: bool)
    requires Sorted(s, key, descending)
    ensures SortBy(s, key, descending) == s
  {
    if s != [] {
      assert Sorted(s[1..], key, descending);
      SortSortedIsIdentity(s[1..], key, descending);
      assert s == [s[0]] + s[1..];
    }
  }
}
