/** A stable sort by a key, as Python's `list.sort` is. */
module Sorting {
  /** `x` goes behind everything whose key is no larger. */
  function Insert<T>(key: T -> real, s: seq<T>, x: T): (r: seq<T>)
    ensures |r| == |s| + 1 && multiset(r) == multiset(s) + multiset{x}
    decreases |s|
  {
    if s == [] || key(s[|s| - 1]) <= key(x) then s + [x]
    else
      assert s == s[..|s| - 1] + [s[|s| - 1]];
      Insert(key, s[..|s| - 1], x) + [s[|s| - 1]]
  }

  function SortBy<T>(key: T -> real, s: seq<T>): (r: seq<T>)
    ensures |r| == |s| && multiset(r) == multiset(s)
    decreases |s|
  {
    if s == [] then []
    else
      assert s == s[..|s| - 1] + [s[|s| - 1]];
      Insert(key, SortBy(key, s[..|s| - 1]), s[|s| - 1])
  }

  ghost predicate Sorted<T>(key: T -> real, s: seq<T>) {
    forall i, j :: 0 <= i < j < |s| ==> key(s[i]) <= key(s[j])
  }

  lemma {:induction false} InsertSorts<T>(key: T -> real, s: seq<T>, x: T)
    requires Sorted(key, s)
    ensures Sorted(key, Insert(key, s, x))
    ensures forall y :: y in Insert(key, s, x) ==> y in s || y == x
    decreases |s|
  {
    if s != [] && key(s[|s| - 1]) > key(x) {
      var front, last := s[..|s| - 1], s[|s| - 1];
      InsertSorts(key, front, x);
      var r := Insert(key, front, x);
      forall i | 0 <= i < |r| ensures key(r[i]) <= key(last) {
        assert r[i] in front || r[i] == x;
      }
    }
  }

  lemma {:induction false} SortBySorts<T>(key: T -> real, s: seq<T>)
    ensures Sorted(key, SortBy(key, s))
    ensures forall y :: y in SortBy(key, s) ==> y in s
    decreases |s|
  {
    if s != [] {
      SortBySorts(key, s[..|s| - 1]);
      InsertSorts(key, SortBy(key, s[..|s| - 1]), s[|s| - 1]);
    }
  }

  /** Those with one key, in the order they stand. */
  function Sharing<T>(key: T -> real, s: seq<T>, k: real): seq<T>
    decreases |s|
  {
    if s == [] then []
    else Sharing(key, s[..|s| - 1], k) + (if key(s[|s| - 1]) == k then [s[|s| - 1]] else [])
  }

  lemma SharingSnoc<T>(key: T -> real, s: seq<T>, x: T, k: real)
    ensures Sharing(key, s + [x], k) == Sharing(key, s, k) + (if key(x) == k then [x] else [])
  {
    assert (s + [x])[..|s|] == s;
  }

  lemma {:induction false} InsertIsStable<T>(key: T -> real, s: seq<T>, x: T, k: real)
    requires Sorted(key, s)
    ensures Sharing(key, Insert(key, s, x), k) == Sharing(key, s, k) + (if key(x) == k then [x] else [])
    decreases |s|
  {
    var n := |s|;
    if n == 0 || key(s[n - 1]) <= key(x) {
      SharingSnoc(key, s, x, k);
    } else {
      InsertIsStable(key, s[..n - 1], x, k);
      SharingSnoc(key, Insert(key, s[..n - 1], x), s[n - 1], k);
    }
  }

  /** Entries that share a key keep their order. */
  lemma {:induction false} SortByIsStable<T>(key: T -> real, s: seq<T>, k: real)
    ensures Sharing(key, SortBy(key, s), k) == Sharing(key, s, k)
    decreases |s|
  {
    if s != [] {
      SortByIsStable(key, s[..|s| - 1], k);
      SortBySorts(key, s[..|s| - 1]);
      InsertIsStable(key, SortBy(key, s[..|s| - 1]), s[|s| - 1], k);
    }
  }

  function Map<T, U>(f: T -> U, s: seq<T>): (r: seq<U>)
    ensures |r| == |s| && forall i :: 0 <= i < |s| ==> r[i] == f(s[i])
    decreases |s|
  {
    if s == [] then [] else Map(f, s[..|s| - 1]) + [f(s[|s| - 1])]
  }

  lemma MapSnoc<T, U>(f: T -> U, s: seq<T>, x: T)
    ensures Map(f, s + [x]) == Map(f, s) + [f(x)]
  {
    assert (s + [x])[..|s|] == s;
  }

  lemma InsertSnoc<T>(key: T -> real, s: seq<T>, last: T, x: T)
    ensures Insert(key, s + [last], x)
            == if key(last) <= key(x) then s + [last] + [x] else Insert(key, s, x) + [last]
  {
    assert (s + [last])[..|s|] == s;
  }

  ghost predicate KeysKept<T(!new), U>(key: T -> real, keyed: U -> real, f: T -> U) { forall y :: keyed(f(y)) == key(y) }

  lemma {:induction false} InsertMapped<T(!new), U>(key: T -> real, keyed: U -> real, f: T -> U, s: seq<T>, x: T)
    requires KeysKept(key, keyed, f)
    ensures Insert(keyed, Map(f, s), f(x)) == Map(f, Insert(key, s, x))
    decreases |s|
  {
    if s == [] {
      MapSnoc(f, s, x);
    } else {
      var front, last := s[..|s| - 1], s[|s| - 1];
      assert s == front + [last];
      MapSnoc(f, front, last);
      InsertSnoc(key, front, last, x);
      InsertSnoc(keyed, Map(f, front), f(last), f(x));
      if key(last) <= key(x) {
        MapSnoc(f, s, x);
      } else {
        InsertMapped(key, keyed, f, front, x);
        MapSnoc(f, Insert(key, front, x), last);
      }
    }
  }

  /** Renaming what is sorted, keys apart, does not change where it goes. */
  lemma {:induction false} SortMapped<T(!new), U>(key: T -> real, keyed: U -> real, f: T -> U, s: seq<T>)
    requires KeysKept(key, keyed, f)
    ensures SortBy(keyed, Map(f, s)) == Map(f, SortBy(key, s))
    decreases |s|
  {
    if s != [] {
      var front, last := s[..|s| - 1], s[|s| - 1];
      SortMapped(key, keyed, f, front);
      InsertMapped(key, keyed, f, SortBy(key, front), last);
      var m := Map(f, s);
      assert m[..|s| - 1] == Map(f, front) && m[|s| - 1] == f(last);
    }
  }

  lemma SortOne<T>(key: T -> real, x: T)
    ensures SortBy(key, [x]) == [x]
  {
    assert [x][..0] == [];
  }

  lemma SortTwo<T>(key: T -> real, x: T, y: T)
    ensures SortBy(key, [x, y]) == if key(x) <= key(y) then [x, y] else [y, x]
  {
    SortOne(key, x);
    assert [x, y][..1] == [x];
    InsertSnoc(key, [], x, y);
    assert [] + [x] == [x];
  }
}
