/** A sum in which each further weight counts half as much as the one before. */
module Discount {
  import opened Reals

  function Half(i: nat): real { if i == 0 then 1.0 else Half(i - 1) * 0.5 }

  function SumTo(s: seq<real>, k: nat): real
    requires k <= |s|
  {
    if k == 0 then 0.0 else SumTo(s, k - 1) + Times(s[k - 1], Half(k - 1))
  }

  function Discounted(s: seq<real>): real { SumTo(s, |s|) }

  /** Largest first, and none negative. */
  ghost predicate Falling(s: seq<real>) {
    && (forall i, j :: 0 <= i < j < |s| ==> s[i] >= s[j])
    && forall i :: 0 <= i < |s| ==> s[i] >= 0.0
  }

  function Insert(s: seq<real>, x: real): (r: seq<real>)
    ensures |r| == |s| + 1 && multiset(r) == multiset(s) + multiset{x}
  {
    if s == [] || x >= s[0] then [x] + s
    else
      assert s == [s[0]] + s[1..];
      [s[0]] + Insert(s[1..], x)
  }

  lemma {:induction false} InsertFalls(s: seq<real>, x: real)
    requires Falling(s) && x >= 0.0
    ensures Falling(Insert(s, x)) && forall y :: y in Insert(s, x) ==> y in s || y == x
  {
    if s != [] && x < s[0] {
      InsertFalls(s[1..], x);
      var r := Insert(s[1..], x);
      forall i | 0 <= i < |r| ensures r[i] <= s[0] {
        assert r[i] in s[1..] || r[i] == x;
      }
    }
  }

  lemma HalfTimes(w: real, h: real)
    ensures Times(w, h * 0.5) == Times(w, h) * 0.5
  {
  }

  lemma {:induction false} SumOfCons(x: real, s: seq<real>, k: nat)
    requires k <= |s|
    ensures SumTo([x] + s, k + 1) == x + SumTo(s, k) * 0.5
  {
    var xs := [x] + s;
    if k == 0 {
      assert SumTo(xs, 1) == SumTo(xs, 0) + Times(x, 1.0);
    } else {
      SumOfCons(x, s, k - 1);
      HalfTimes(s[k - 1], Half(k - 1));
      assert xs[k] == s[k - 1];
    }
  }

  lemma DiscountedCons(s: seq<real>)
    requires s != []
    ensures Discounted(s) == s[0] + Discounted(s[1..]) * 0.5
  {
    SumOfCons(s[0], s[1..], |s| - 1);
    assert [s[0]] + s[1..] == s;
  }

  lemma DiscountedFront(x: real, s: seq<real>)
    ensures Discounted([x] + s) == x + Discounted(s) * 0.5
  {
    SumOfCons(x, s, |s|);
  }

  /** However many there are, the sum stays under twice the largest. */
  lemma {:induction false} UnderTwice(s: seq<real>, top: real)
    requires Falling(s) && (s == [] || s[0] <= top) && top > 0.0
    ensures 0.0 <= Discounted(s) < 2.0 * top
  {
    if s != [] {
      DiscountedCons(s);
      UnderTwice(s[1..], top);
    }
  }

  /** One more weight makes the sum larger. */
  lemma {:induction false} InsertAdds(s: seq<real>, x: real)
    requires Falling(s) && x > 0.0
    ensures Discounted(Insert(s, x)) > Discounted(s)
  {
    if s == [] || x >= s[0] {
      UnderTwice(s, x);
      DiscountedFront(x, s);
    } else {
      InsertAdds(s[1..], x);
      DiscountedFront(s[0], Insert(s[1..], x));
      DiscountedCons(s);
    }
  }

  /** A larger weight in place of a smaller one makes it no smaller. */
  lemma {:induction false} InsertInOrder(s: seq<real>, x: real, y: real)
    requires Falling(s) && 0.0 < x <= y
    ensures Discounted(Insert(s, x)) <= Discounted(Insert(s, y))
  {
    if s == [] || x >= s[0] {
      DiscountedFront(x, s);
      DiscountedFront(y, s);
    } else {
      var rest := s[1..];
      DiscountedFront(s[0], Insert(rest, x));
      if y >= s[0] {
        DiscountedFront(y, s);
        DiscountedCons(s);
        InsertNearTop(rest, x, s[0]);
      } else {
        InsertInOrder(rest, x, y);
        DiscountedFront(s[0], Insert(rest, y));
      }
    }
  }

  /** Putting in something below the top adds at most half of what is missing to twice the top. */
  lemma {:induction false} InsertNearTop(s: seq<real>, x: real, top: real)
    requires Falling(s) && (s == [] || s[0] <= top) && 0.0 < x <= top
    ensures Discounted(Insert(s, x)) <= top + Discounted(s) * 0.5
  {
    if s == [] || x >= s[0] {
      DiscountedFront(x, s);
    } else {
      InsertNearTop(s[1..], x, s[0]);
      DiscountedFront(s[0], Insert(s[1..], x));
      DiscountedCons(s);
    }
  }

  /** It adds no more than itself, */
  lemma {:induction false} InsertAtMost(s: seq<real>, x: real)
    requires Falling(s) && x > 0.0
    ensures Discounted(Insert(s, x)) <= Discounted(s) + x
  {
    if s == [] || x >= s[0] {
      UnderTwice(s, x);
      DiscountedFront(x, s);
    } else {
      InsertAtMost(s[1..], x);
      DiscountedFront(s[0], Insert(s[1..], x));
      DiscountedCons(s);
    }
  }

  /** and behind `p` larger ones no more than it counts there. */
  lemma {:induction false} InsertBehind(s: seq<real>, x: real, p: nat)
    requires Falling(s) && x > 0.0 && p <= |s| && forall k :: 0 <= k < p ==> s[k] > x
    ensures Discounted(Insert(s, x)) <= Discounted(s) + Times(x, Half(p))
  {
    if p == 0 {
      InsertAtMost(s, x);
      assert Half(0) == 1.0 && Times(x, 1.0) == x;
    } else {
      InsertBehind(s[1..], x, p - 1);
      HalfTimes(x, Half(p - 1));
      DiscountedFront(s[0], Insert(s[1..], x));
      DiscountedCons(s);
    }
  }

  lemma {:induction false} CopiesBefore(s: seq<real>, w: real, k: nat)
    requires k <= |s| && forall j :: k <= j < |s| ==> s[j] < w
    ensures multiset(s)[w] <= k
  {
    if s != [] {
      var n := |s| - 1;
      assert s == s[..n] + [s[n]];
      CopiesBefore(s[..n], w, if k <= n then k else n);
    }
  }

  /** Where there are `n` copies of a weight, the first `n` places hold no smaller one. */
  lemma CopiesAtTop(s: seq<real>, w: real, n: nat, k: nat)
    requires Falling(s) && multiset(s)[w] >= n && k < n
    ensures k < |s| && s[k] >= w
  {
    CopiesBefore(s, w, |s|);
    if k < |s| && s[k] < w {
      CopiesBefore(s, w, k);
    }
  }

  lemma {:induction false} HalfSmall(i: nat)
    requires i >= 6
    ensures 0.0 < Half(i) <= 1.0 / 64.0
  {
    if i == 6 {
      assert Half(1) == 0.5 && Half(2) == 0.25 && Half(3) == 0.125 && Half(4) == 0.0625 && Half(5) == 0.03125;
    } else {
      HalfSmall(i - 1);
    }
  }

  lemma SameLength(s: seq<real>, r: seq<real>)
    requires multiset(s) == multiset(r)
    ensures |s| == |r|
  {
    assert |multiset(s)| == |s| && |multiset(r)| == |r|;
  }

  lemma TopIsMost(s: seq<real>, r: seq<real>)
    requires Falling(s) && multiset(s) == multiset(r) && r != [] && s != []
    ensures r[0] <= s[0]
  {
    assert r[0] in multiset(s);
    var i :| 0 <= i < |s| && s[i] == r[0];
  }

  lemma RestOf(s: seq<real>)
    requires s != []
    ensures multiset(s[1..]) == multiset(s) - multiset{s[0]}
  {
    assert s == [s[0]] + s[1..];
  }

  /** Falling lists of the same weights are the same list. */
  lemma {:induction false} FallingIsUnique(s: seq<real>, r: seq<real>)
    requires Falling(s) && Falling(r) && multiset(s) == multiset(r)
    ensures s == r
  {
    SameLength(s, r);
    if s != [] {
      TopIsMost(s, r);
      TopIsMost(r, s);
      RestOf(s);
      RestOf(r);
      FallingIsUnique(s[1..], r[1..]);
      assert s == [s[0]] + s[1..] && r == [r[0]] + r[1..];
    }
  }
}
