/** How the score answers to findings that come, go or are acknowledged (homesoc/cli.py). */
module ScoreChanges {
  import opened Discount
  import opened Reals
  import opened Rounding
  import opened Scoring

  // ---- one finding more ----

  lemma {:induction false} ListedPrefix(t: seq<Finding>, f: Finding, id: string, k: nat)
    requires k <= |t|
    ensures Listed(t + [f], id, k) == Listed(t, id, k)
  {
    if k > 0 {
      ListedPrefix(t, f, id, k - 1);
      var u := t + [f];
      assert u[..k - 1] == t[..k - 1] && u[k - 1] == t[k - 1];
    }
  }

  predicate Pays(t: seq<Finding>, f: Finding) { Weight(f) > 0.0 && multiset(t)[f] < MOST_COPIES }

  lemma ListedOneMore(t: seq<Finding>, f: Finding, id: string)
    ensures Listed(t + [f], id, |t| + 1) == Charged(Listed(t, id, |t|), multiset(t), id, f)
  {
    ListedPrefix(t, f, id, |t|);
    assert (t + [f])[..|t|] == t;
  }

  lemma CostOneMore(t: seq<Finding>, f: Finding, id: string)
    ensures Cost(t + [f], id) == Discounted(Charged(Listed(t, id, |t|), multiset(t), id, f))
  {
    ListedOneMore(t, f, id);
  }

  lemma ChargedCosts(list: seq<real>, counts: multiset<Finding>, id: string, f: Finding)
    requires Falling(list)
    ensures f.id == id && Weight(f) > 0.0 && counts[f] < MOST_COPIES ==>
              Discounted(Charged(list, counts, id, f)) > Discounted(list)
  {
    if f.id == id && Weight(f) > 0.0 && counts[f] < MOST_COPIES {
      InsertAdds(list, Weight(f));
    }
  }

  lemma AddedCost(t: seq<Finding>, f: Finding, id: string)
    ensures id != f.id || !Pays(t, f) ==> Cost(t + [f], id) == Cost(t, id)
    ensures id == f.id && Pays(t, f) ==> Cost(t + [f], id) > Cost(t, id)
  {
    CostOneMore(t, f, id);
    ListedTallies(t, id, |t|);
    ChargedCosts(Listed(t, id, |t|), multiset(t), id, f);
  }

  /** A finding more never lowers the penalty, and raises it just when it is not the sixty-fifth of
      its kind and weighs something. */
  lemma AddedPenalty(t: seq<Finding>, f: Finding)
    ensures Penalty(t) <= Penalty(t + [f])
    ensures Penalty(t) < Penalty(t + [f]) <==> Pays(t, f)
  {
    forall id | id != f.id ensures Cost(t, id) == Cost(t + [f], id) {
      AddedCost(t, f, id);
    }
    AddedCost(t, f, f.id);
    PenaltyFollows(t, t + [f], f.id);
  }

  /** Adding a finding, open or acknowledged, never raises the score. */
  lemma AddingNeverRaises(t: seq<Finding>, f: Finding, curve: real -> real)
    requires Antitone(curve)
    ensures Score(t + [f], curve) <= Score(t, curve)
  {
    AddedPenalty(t, f);
    assert NeverUp(curve, Penalty(t), Penalty(t + [f]));
    OpenOneMore(t, f, "critical");
    OpenOneMore(t, f, "high");
    CappedFollows(curve(Penalty(t + [f])), curve(Penalty(t)),
                  Ceiling(Open(t + [f], "critical"), Open(t + [f], "high")), Ceiling(Open(t, "critical"), Open(t, "high")));
  }

  // ---- order does not matter ----

  function Without(t: seq<Finding>, i: nat): seq<Finding>
    requires i < |t|
  {
    t[..i] + t[i + 1..]
  }

  lemma MovedLast(t: seq<Finding>, i: nat, f: Finding)
    requires i < |t|
    ensures multiset(t[i := f]) == multiset(Without(t, i) + [f])
    ensures multiset(t) == multiset(Without(t, i)) + multiset{t[i]}
  {
    assert t == t[..i] + [t[i]] + t[i + 1..];
    assert t[i := f] == t[..i] + [f] + t[i + 1..];
  }

  lemma SameScore(t: seq<Finding>, i: nat, f: Finding, curve: real -> real)
    requires i < |t|
    ensures Score(t[i := f], curve) == Score(Without(t, i) + [f], curve)
    ensures Penalty(t[i := f]) == Penalty(Without(t, i) + [f])
    ensures Open(t[i := f], "critical") == Open(Without(t, i) + [f], "critical")
    ensures Open(t[i := f], "high") == Open(Without(t, i) + [f], "high")
  {
    var u, v := t[i := f], Without(t, i) + [f];
    MovedLast(t, i, f);
    forall id ensures Cost(u, id) == Cost(v, id) {
      SameCost(u, v, id);
    }
    PenaltyFollows(u, v, "");
    assert Without(u, i) == Without(t, i);
    OpenWithout(u, "critical", i);
    OpenWithout(u, "high", i);
  }

  /** Removing a finding never lowers the score. */
  lemma RemovingNeverLowers(t: seq<Finding>, i: nat, curve: real -> real)
    requires i < |t| && Antitone(curve)
    ensures Score(Without(t, i), curve) >= Score(t, curve)
  {
    assert t[i := t[i]] == t;
    SameScore(t, i, t[i], curve);
    AddingNeverRaises(Without(t, i), t[i], curve);
  }

  // ---- a finding made lighter ----

  /** The same type, in a bucket that weighs no more and is under no lower ceiling. */
  predicate Lighter(f: Finding, g: Finding) {
    && g.id == f.id && g != f && Weight(g) <= Weight(f)
    && (g.status == "open" ==> f.status == "open")
  }

  /** Making `f` into `g` cannot hurt: the bucket it leaves is not over-full, the one it joins is full
      already, or it then weighs nothing. */
  predicate Safe(t: seq<Finding>, f: Finding, g: Finding) {
    multiset(t)[f] <= MOST_COPIES || multiset(t)[g] >= MOST_COPIES || Weight(g) == 0.0
  }

  lemma ChargedLess(list: seq<real>, counts: multiset<Finding>, f: Finding, g: Finding)
    requires Falling(list) && g.id == f.id
    requires 0.0 < Weight(g) <= Weight(f) && counts[f] < MOST_COPIES && counts[g] < MOST_COPIES
    ensures Discounted(Charged(list, counts, f.id, g)) <= Discounted(Charged(list, counts, f.id, f))
  {
    InsertInOrder(list, Weight(g), Weight(f));
  }

  lemma SwappedCost(rest: seq<Finding>, f: Finding, g: Finding)
    requires Lighter(f, g) && (Pays(rest, f) || !Pays(rest, g))
    ensures Cost(rest + [g], f.id) <= Cost(rest + [f], f.id)
  {
    if Pays(rest, f) && Pays(rest, g) {
      CostOneMore(rest, f, f.id);
      CostOneMore(rest, g, f.id);
      ListedTallies(rest, f.id, |rest|);
      ChargedLess(Listed(rest, f.id, |rest|), multiset(rest), f, g);
    } else {
      AddedCost(rest, f, f.id);
      AddedCost(rest, g, f.id);
    }
  }

  lemma SwappedPenalty(rest: seq<Finding>, f: Finding, g: Finding)
    requires Lighter(f, g)
    ensures Penalty(rest + [g]) <= Penalty(rest + [f]) <==> Pays(rest, f) || !Pays(rest, g)
  {
    if Pays(rest, f) || !Pays(rest, g) {
      forall id | id != f.id ensures Cost(rest + [g], id) == Cost(rest + [f], id) {
        AddedCost(rest, f, id);
        AddedCost(rest, g, id);
      }
      SwappedCost(rest, f, g);
      PenaltyFollows(rest + [g], rest + [f], f.id);
    } else {
      AddedPenalty(rest, f);
      AddedPenalty(rest, g);
    }
  }

  lemma SafeExactly(t: seq<Finding>, i: nat, g: Finding)
    requires i < |t| && Lighter(t[i], g)
    ensures Safe(t, t[i], g) <==> Pays(Without(t, i), t[i]) || !Pays(Without(t, i), g)
  {
    MovedLast(t, i, t[i]);
  }

  lemma LighterPenalty(t: seq<Finding>, i: nat, g: Finding)
    requires i < |t| && Lighter(t[i], g)
    ensures Safe(t, t[i], g) <==> Penalty(t[i := g]) <= Penalty(t)
  {
    assert t[i := t[i]] == t;
    SameScore(t, i, t[i], x => 0.0);
    SameScore(t, i, g, x => 0.0);
    SafeExactly(t, i, g);
    SwappedPenalty(Without(t, i), t[i], g);
  }

  function CeilingOf(t: seq<Finding>): real { Ceiling(Open(t, "critical"), Open(t, "high")) }

  lemma OpenSwapped(t: seq<Finding>, i: nat, g: Finding, severity: string)
    requires i < |t| && severity in ["critical", "high"]
    ensures Open(t[i := g], severity) + (if OpenAs(t[i], severity) then 1 else 0)
            == Open(t, severity) + (if OpenAs(g, severity) then 1 else 0)
  {
    assert t[i := t[i]] == t;
    SameScore(t, i, t[i], x => 0.0);
    SameScore(t, i, g, x => 0.0);
    OpenOneMore(Without(t, i), t[i], severity);
    OpenOneMore(Without(t, i), g, severity);
  }

  lemma LighterCeiling(t: seq<Finding>, i: nat, g: Finding)
    requires i < |t| && Lighter(t[i], g)
    ensures CeilingOf(t[i := g]) >= CeilingOf(t)
  {
    OpenSwapped(t, i, g, "critical");
    OpenSwapped(t, i, g, "high");
    OpenMilder(t[i], g);
  }

  lemma OpenMilder(f: Finding, g: Finding)
    requires Lighter(f, g)
    ensures OpenAs(g, "critical") ==> OpenAs(f, "critical")
    ensures OpenAs(g, "high") ==> OpenAs(f, "high") || OpenAs(f, "critical")
    ensures !(OpenAs(g, "critical") && OpenAs(g, "high")) && !(OpenAs(f, "critical") && OpenAs(f, "high"))
  {
  }

  lemma LighterSafely(t: seq<Finding>, i: nat, g: Finding, curve: real -> real)
    requires i < |t| && Lighter(t[i], g) && Safe(t, t[i], g) && Antitone(curve)
    ensures Score(t[i := g], curve) >= Score(t, curve)
  {
    LighterPenalty(t, i, g);
    LighterCeiling(t, i, g);
    assert NeverUp(curve, Penalty(t[i := g]), Penalty(t));
    CappedFollows(curve(Penalty(t)), curve(Penalty(t[i := g])), CeilingOf(t), CeilingOf(t[i := g]));
  }

  /** All or nothing, on either side of a penalty. */
  function Cliff(edge: real): real -> real { x => if x <= edge then 100.0 else 0.0 }

  lemma CliffDrops(t: seq<Finding>, u: seq<Finding>)
    requires Penalty(t) < Penalty(u)
    ensures Antitone(Cliff(Penalty(t))) && Score(u, Cliff(Penalty(t))) < Score(t, Cliff(Penalty(t)))
  {
    forall x, y ensures NeverUp(Cliff(Penalty(t)), x, y) {
    }
    assert Capped(0.0, CeilingOf(u)) == 0;
    CappedFollows(20.0, 100.0, 20.0, CeilingOf(t));
    assert Capped(20.0, 20.0) == 20;
  }

  /** Making a finding lighter never lowers the score, on any falling curve however steep, just when it
      is safe: out of a bucket with more than sixty-four it takes no weight away and may still add one. */
  lemma LighterExactly(t: seq<Finding>, i: nat, g: Finding)
    requires i < |t| && Lighter(t[i], g)
    ensures Safe(t, t[i], g) <==>
            forall curve :: Antitone(curve) ==> Score(t[i := g], curve) >= Score(t, curve)
  {
    if Safe(t, t[i], g) {
      forall curve | Antitone(curve) ensures Score(t[i := g], curve) >= Score(t, curve) {
        LighterSafely(t, i, g, curve);
      }
    } else {
      LighterPenalty(t, i, g);
      CliffDrops(t, t[i := g]);
    }
  }

  // ---- how much, when it is not safe ----

  lemma BehindTheCopies(rest: seq<Finding>, f: Finding, g: Finding)
    requires Lighter(f, g) && Weight(g) > 0.0 && multiset(rest)[f] >= MOST_COPIES
    ensures var list := Listed(rest, f.id, |rest|);
            |list| >= MOST_COPIES && forall k :: 0 <= k < MOST_COPIES ==> list[k] > Weight(g)
  {
    var list := Listed(rest, f.id, |rest|);
    ListedTallies(rest, f.id, |rest|);
    assert rest[..|rest|] == rest;
    assert Tallied(list, multiset(rest), f);
    if Weight(f) == Weight(g) {
      WeightTells(f, g);
    }
    CopiesAtTop(list, Weight(f), MOST_COPIES, MOST_COPIES - 1);
    forall k | 0 <= k < MOST_COPIES ensures list[k] > Weight(g) {
      CopiesAtTop(list, Weight(f), MOST_COPIES, k);
    }
  }

  /** The penalty then grows by less than nothing one could see: by at most what the lighter weight
      counts for in the sixty-fifth place. */
  lemma UnsafeIsSlight(t: seq<Finding>, i: nat, g: Finding)
    requires i < |t| && Lighter(t[i], g) && !Safe(t, t[i], g)
    ensures 0.0 < Penalty(t[i := g]) - Penalty(t) <= Times(Weight(g), Half(MOST_COPIES))
  {
    var f, rest := t[i], Without(t, i);
    LighterPenalty(t, i, g);
    assert t[i := f] == t;
    SameScore(t, i, f, x => 0.0);
    SameScore(t, i, g, x => 0.0);
    SafeExactly(t, i, g);
    MovedLast(t, i, f);
    SlightlyDearer(rest, f, g);
  }

  lemma SlightlyDearer(rest: seq<Finding>, f: Finding, g: Finding)
    requires Lighter(f, g) && !Pays(rest, f) && Pays(rest, g) && multiset(rest)[f] >= MOST_COPIES
    ensures Penalty(rest + [g]) - Penalty(rest + [f]) <= Times(Weight(g), Half(MOST_COPIES))
  {
    var list := Listed(rest, f.id, |rest|);
    forall id | id != f.id ensures Cost(rest + [g], id) == Cost(rest + [f], id) {
      AddedCost(rest, f, id);
      AddedCost(rest, g, id);
    }
    PenaltyFollows(rest + [f], rest + [g], f.id);
    AddedCost(rest, f, f.id);
    CostOneMore(rest, g, f.id);
    BehindTheCopies(rest, f, g);
    ListedTallies(rest, f.id, |rest|);
    InsertBehind(list, Weight(g), MOST_COPIES);
  }

  predicate SlowlyDown(curve: real -> real, x: real, y: real) { x <= y ==> curve(x) - curve(y) <= 2.0 * (y - x) }

  /** A curve that falls by at most two points a unit of penalty.  By its formula the program's, which
      halves from 100 every 60 units, falls by less than 1.16. */
  ghost predicate Gradual(curve: real -> real) { forall x, y :: SlowlyDown(curve, x, y) }

  lemma WeightOfHalf(w: real, h: real)
    requires 0.0 <= w <= 30.0 && 0.0 < h <= 1.0 / 64.0
    ensures Times(w, h) <= 30.0 / 64.0
  {
    assert (30.0 - w) * h >= 0.0;
    assert 30.0 * h <= 30.0 / 64.0;
  }

  lemma CappedNearby(v: real, w: real, x: real, y: real)
    requires v - 60.0 / 64.0 <= w && x <= y
    ensures Capped(w, y) >= Capped(v, x) - 1
  {
    var a, b := Max(0.0, Min(100.0, Min(v, x))), Max(0.0, Min(100.0, Min(w, y)));
    assert a - 60.0 / 64.0 <= b;
    RoundNear(a);
    RoundNear(b);
  }

  /** So on a curve as gradual as the program's, safe or not, making a finding lighter never costs more
      than the one point rounding can. */
  lemma AtMostOnePoint(t: seq<Finding>, i: nat, g: Finding, curve: real -> real)
    requires i < |t| && Lighter(t[i], g) && Antitone(curve) && Gradual(curve)
    ensures Score(t[i := g], curve) >= Score(t, curve) - 1
    ensures Safe(t, t[i], g) ==> Score(t[i := g], curve) >= Score(t, curve)
  {
    if Safe(t, t[i], g) {
      LighterSafely(t, i, g, curve);
    } else {
      UnsafeIsSlight(t, i, g);
      HalfSmall(MOST_COPIES);
      WeightOfHalf(Weight(g), Half(MOST_COPIES));
      LighterCeiling(t, i, g);
      assert SlowlyDown(curve, Penalty(t), Penalty(t[i := g]));
      CappedNearby(curve(Penalty(t)), curve(Penalty(t[i := g])), CeilingOf(t), CeilingOf(t[i := g]));
    }
  }

  // ---- acknowledging, and downgrading ----

  function Acknowledged(f: Finding): Finding { f.(status := "acknowledged") }

  /** Acknowledging an open finding never lowers the score exactly when at most sixty-four like it are
      open, sixty-four are acknowledged already, or its severity weighs nothing. */
  lemma AcknowledgingExactly(t: seq<Finding>, i: nat)
    requires i < |t| && t[i].status == "open"
    ensures (multiset(t)[t[i]] <= MOST_COPIES || multiset(t)[Acknowledged(t[i])] >= MOST_COPIES || Weight(t[i]) == 0.0)
            <==> forall curve :: Antitone(curve) ==> Score(t[i := Acknowledged(t[i])], curve) >= Score(t, curve)
  {
    LighterExactly(t, i, Acknowledged(t[i]));
  }

  const WORST_FIRST := ["critical", "high", "medium", "low", "info"]

  /** So with a milder severity, of the five there are. */
  lemma DowngradingExactly(t: seq<Finding>, i: nat, a: nat, b: nat)
    requires i < |t| && a < b < |WORST_FIRST| && t[i].severity == WORST_FIRST[a]
    ensures var g := t[i].(severity := WORST_FIRST[b]);
            Safe(t, t[i], g) <==> forall curve :: Antitone(curve) ==> Score(t[i := g], curve) >= Score(t, curve)
  {
    MilderWeighsLess(t[i], a, b);
    LighterExactly(t, i, t[i].(severity := WORST_FIRST[b]));
  }

  lemma MilderWeighsLess(f: Finding, a: nat, b: nat)
    requires a < b < |WORST_FIRST| && f.severity == WORST_FIRST[a]
    ensures Lighter(f, f.(severity := WORST_FIRST[b]))
    ensures SeverityWeight(WORST_FIRST[b]) < SeverityWeight(WORST_FIRST[a])
  {
    assert WORST_FIRST[a] == "critical" || WORST_FIRST[a] == "high" || WORST_FIRST[a] == "medium"
           || WORST_FIRST[a] == "low";
  }
}
