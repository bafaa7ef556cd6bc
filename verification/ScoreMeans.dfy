/** What the fallback score comes to, in numbers (homesoc/cli.py). */
module ScoreMeans {
  import opened Discount
  import opened Reals
  import opened Rounding
  import opened Scoring
  import opened Sets

  /** Which findings are open at a severity. */
  ghost function OpenOnes(t: seq<Finding>, severity: string): set<nat> {
    set i | 0 <= i < |t| && t[i].status == "open" && t[i].severity == severity
  }

  lemma {:induction false} OpenCounts(t: seq<Finding>, severity: string)
    ensures Open(t, severity) == |OpenOnes(t, severity)|
  {
    if t == [] {
      SameSet(OpenOnes(t, severity), {});
    } else {
      var n := |t| - 1;
      OpenCounts(t[..n], severity);
      assert t == t[..n] + [t[n]];
      OpenOneMore(t[..n], t[n], severity);
      OneMore(OpenOnes(t, severity), OpenOnes(t[..n], severity), n);
    }
  }

  /** The score is what the curve makes of the penalty, rounded, but never below 0 nor above 100, 79 with
      something high open, 34 with one critical open, 20 with more: and then it is just that. */
  lemma ScoreIs(t: seq<Finding>, curve: real -> real)
    ensures var v, critical := curve(Penalty(t)), |OpenOnes(t, "critical")|;
            var most := if critical >= 2 then 20 else if critical == 1 then 34
                        else if OpenOnes(t, "high") != {} then 79 else 100;
            Score(t, curve) == if v <= 0.0 then 0 else if v >= most as real then most else Round(v)
  {
    OpenCounts(t, "critical");
    OpenCounts(t, "high");
    RoundTies(0);
    RoundTies(20);
    RoundTies(34);
    RoundTies(79);
    RoundTies(100);
  }

  // ---- copies ----

  function Copies<T>(x: T, n: nat): (s: seq<T>)
    ensures |s| == n && forall i :: 0 <= i < n ==> s[i] == x
  {
    seq(n, _ => x)
  }

  lemma OneCopyMore<T>(x: T, n: nat)
    ensures Copies(x, n + 1) == [x] + Copies(x, n) == Copies(x, n) + [x]
  {
  }

  lemma {:induction false} CopiesCounted<T>(x: T, n: nat)
    ensures multiset(Copies(x, n))[x] == n
  {
    if n == 0 {
      assert Copies(x, 0) == [];
    } else {
      CopiesCounted(x, n - 1);
      OneCopyMore(x, n - 1);
    }
  }

  lemma Summed(w: real, h: real)
    ensures w + Times(w, 2.0 - 2.0 * h) * 0.5 == Times(w, 2.0 - 2.0 * (h * 0.5))
  {
  }

  /** Each weight counts half as much as the one before it: the sum of `n` alike lacks of twice the first
      what the last still counts for. */
  lemma {:induction false} CopiesDiscounted(w: real, n: nat)
    ensures Discounted(Copies(w, n)) == Times(w, 2.0 - 2.0 * Half(n))
  {
    if n == 0 {
      assert Copies(w, 0) == [] && Times(w, 0.0) == 0.0;
    } else {
      CopiesDiscounted(w, n - 1);
      OneCopyMore(w, n - 1);
      DiscountedFront(w, Copies(w, n - 1));
      Summed(w, Half(n - 1));
    }
  }

  lemma CopiesCut<T>(x: T, n: nat, k: nat)
    requires k <= n
    ensures Copies(x, n)[..k] == Copies(x, k)
  {
  }

  lemma InsertCopy(w: real, n: nat)
    ensures Insert(Copies(w, n), w) == Copies(w, n + 1)
  {
    OneCopyMore(w, n);
    if n > 0 {
      assert Copies(w, n)[0] == w;
    }
  }

  lemma {:induction false} CopiesListed(f: Finding, n: nat, k: nat)
    requires k <= n && Weight(f) > 0.0
    ensures Listed(Copies(f, n), f.id, k) == Copies(Weight(f), if k < 64 then k else 64)
    decreases k
  {
    if k == 0 {
      assert Copies(Weight(f), 0) == [];
    } else {
      CopiesListed(f, n, k - 1);
      CopiesCut(f, n, k - 1);
      CopiesCounted(f, k - 1);
      if k <= 64 {
        InsertCopy(Weight(f), k - 1);
      }
    }
  }

  lemma {:induction false} CopiesIds(f: Finding, n: nat, k: nat)
    requires 0 < k <= n
    ensures Ids(Copies(f, n), k) == [f.id]
    decreases k
  {
    if k > 1 {
      CopiesIds(f, n, k - 1);
    }
  }

  lemma SumOfOne<T>(cost: T -> real, x: T)
    ensures SumOver(cost, [x]) == cost(x)
  {
    assert [x][..0] == [];
  }

  /** The penalty of `n` findings alike: twice the weight of one, less twice what a further one would
      count for, and from the sixty-fifth on no more. */
  lemma CopiesPenalty(f: Finding, n: nat)
    requires n > 0 && Weight(f) > 0.0
    ensures Penalty(Copies(f, n)) == Times(Weight(f), 2.0 - 2.0 * Half(if n < 64 then n else 64))
  {
    var t := Copies(f, n);
    CopiesIds(f, n, n);
    SumOfOne((id: string) => Cost(t, id), f.id);
    CopiesListed(f, n, n);
    CopiesDiscounted(Weight(f), if n < 64 then n else 64);
  }

  /** What one finding costs, of each severity, open or acknowledged. */
  lemma LoneFinding(f: Finding)
    ensures Penalty([]) == 0.0
    ensures var w := if f.severity == "critical" then 30.0 else if f.severity == "high" then 12.0
                     else if f.severity == "medium" then 5.0 else if f.severity == "low" then 1.5 else 0.0;
            Penalty([f]) == if f.status == "open" then w else if f.status == "acknowledged" then w / 4.0 else 0.0
  {
    assert Copies(f, 1) == [f];
    CopiesIds(f, 1, 1);
    SumOfOne((id: string) => Cost([f], id), f.id);
    if Weight(f) > 0.0 {
      CopiesListed(f, 1, 1);
      CopiesDiscounted(Weight(f), 1);
      assert Half(1) == 0.5 && Times(Weight(f), 1.0) == Weight(f);
    } else {
      assert Listed([f], f.id, 1) == Listed([f], f.id, 0);
    }
  }
}
