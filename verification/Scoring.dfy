/** The security score the command line falls back on (homesoc/cli.py).  The halving curve is any
    function that never rises with the penalty. */
module Scoring {
  import opened Discount
  import opened Reals
  import opened Rounding
  import opened Sequences

  datatype Finding = Finding(id: string, severity: string, status: string)

  const MOST_COPIES := 64
  const ACKNOWLEDGED := 0.25

  function SeverityWeight(severity: string): real {
    if severity == "critical" then 30.0
    else if severity == "high" then 12.0
    else if severity == "medium" then 5.0
    else if severity == "low" then 1.5
    else 0.0
  }

  function Weight(f: Finding): (w: real)
    ensures 0.0 <= w <= 30.0
  {
    if f.status == "open" then SeverityWeight(f.severity)
    else if f.status == "acknowledged" then SeverityWeight(f.severity) * ACKNOWLEDGED
    else 0.0
  }

  lemma WeightTells(f: Finding, g: Finding)
    requires f.id == g.id && Weight(f) == Weight(g) > 0.0
    ensures f == g
  {
  }

  /** What one finding more does to its type's list of weights. */
  function Charged(list: seq<real>, counts: multiset<Finding>, id: string, f: Finding): seq<real> {
    if f.id == id && Weight(f) > 0.0 && counts[f] < MOST_COPIES then Insert(list, Weight(f)) else list
  }

  /** The weights one finding type pays: at most sixty-four of each severity and status. */
  function Listed(t: seq<Finding>, id: string, k: nat): seq<real>
    requires k <= |t|
  {
    if k == 0 then [] else Charged(Listed(t, id, k - 1), multiset(t[..k - 1]), id, t[k - 1])
  }

  function Cost(t: seq<Finding>, id: string): real { Discounted(Listed(t, id, |t|)) }

  /** The finding types present. */
  function Ids(t: seq<Finding>, k: nat): seq<string>
    requires k <= |t|
  {
    if k == 0 then []
    else if t[k - 1].id in Ids(t, k - 1) then Ids(t, k - 1) else Ids(t, k - 1) + [t[k - 1].id]
  }

  function SumOver<T>(cost: T -> real, ids: seq<T>): real {
    if ids == [] then 0.0 else SumOver(cost, ids[..|ids| - 1]) + cost(ids[|ids| - 1])
  }

  function Penalty(t: seq<Finding>): real { SumOver((id: string) => Cost(t, id), Ids(t, |t|)) }

  predicate OpenAs(f: Finding, severity: string) { f.status == "open" && f.severity == severity }

  function OpenTo(t: seq<Finding>, severity: string, k: nat): nat
    requires k <= |t|
  {
    if k == 0 then 0
    else OpenTo(t, severity, k - 1) + (if OpenAs(t[k - 1], severity) then 1 else 0)
  }

  function Open(t: seq<Finding>, severity: string): nat { OpenTo(t, severity, |t|) }

  /** The hard ceilings. */
  function Ceiling(critical: nat, high: nat): real {
    if critical >= 2 then 20.0 else if critical == 1 then 34.0 else if high > 0 then 79.0 else 100.0
  }

  function Capped(value: real, ceiling: real): int { Round(Max(0.0, Min(100.0, Min(value, ceiling)))) }

  function Final(value: real, critical: nat, high: nat): int { Capped(value, Ceiling(critical, high)) }

  function Score(t: seq<Finding>, curve: real -> real): int {
    Final(curve(Penalty(t)), Open(t, "critical"), Open(t, "high"))
  }

  predicate NeverUp(curve: real -> real, x: real, y: real) { x <= y ==> curve(y) <= curve(x) }

  ghost predicate Antitone(curve: real -> real) { forall x, y :: NeverUp(curve, x, y) }

  lemma CappedFollows(v: real, w: real, x: real, y: real)
    requires v <= w && x <= y
    ensures Capped(v, x) <= Capped(w, y)
  {
    RoundInOrder(Max(0.0, Min(100.0, Min(v, x))), Max(0.0, Min(100.0, Min(w, y))));
  }

  /** The score is a whole number from 0 to 100, and never over the ceiling of what is open. */
  lemma ScoreUnderCeiling(t: seq<Finding>, curve: real -> real)
    ensures 0 <= Score(t, curve) <= 100
    ensures Open(t, "critical") >= 2 ==> Score(t, curve) <= 20
    ensures Open(t, "critical") == 1 ==> Score(t, curve) <= 34
    ensures Open(t, "high") >= 1 ==> Score(t, curve) <= 79
  {
    var ceiling := Ceiling(Open(t, "critical"), Open(t, "high"));
    var capped := Max(0.0, Min(100.0, Min(curve(Penalty(t)), ceiling)));
    RoundInOrder(0.0, capped);
    RoundInOrder(capped, ceiling);
    RoundInOrder(ceiling, 100.0);
  }

  // ---- what a list of weights says ----

  function Fewer(a: nat, b: nat): nat { if a < b then a else b }

  ghost predicate Tallied(list: seq<real>, counts: multiset<Finding>, f: Finding) {
    Weight(f) > 0.0 ==> multiset(list)[Weight(f)] == Fewer(MOST_COPIES, counts[f])
  }

  ghost predicate Owed(w: real, id: string) { exists f: Finding :: f.id == id && Weight(f) == w && w > 0.0 }

  /** The list holds, of each severity and status of `id`, as many as there are, up to sixty-four,
      and nothing else; the largest come first. */
  ghost predicate Tallies(list: seq<real>, id: string, counts: multiset<Finding>) {
    && Falling(list)
    && (forall f: Finding :: f.id == id ==> Tallied(list, counts, f))
    && (forall w :: w in list ==> Owed(w, id))
  }

  /** That leaves no choice. */
  lemma TallyIsUnique(a: seq<real>, b: seq<real>, id: string, counts: multiset<Finding>)
    requires Tallies(a, id, counts) && Tallies(b, id, counts)
    ensures a == b
  {
    forall w ensures multiset(a)[w] == multiset(b)[w] {
      if w in a || w in b {
        assert Owed(w, id);
        var f: Finding :| f.id == id && Weight(f) == w && w > 0.0;
        assert Tallied(a, counts, f) && Tallied(b, counts, f);
      }
    }
    FallingIsUnique(a, b);
  }

  lemma Upto(t: seq<Finding>, k: nat)
    requires 0 < k <= |t|
    ensures multiset(t[..k]) == multiset(t[..k - 1]) + multiset{t[k - 1]}
  {
    assert t[..k] == t[..k - 1] + [t[k - 1]];
  }

  lemma TallyMore(list: seq<real>, id: string, counts: multiset<Finding>, g: Finding)
    requires Tallies(list, id, counts)
    ensures Tallies(Charged(list, counts, id, g), id, counts + multiset{g})
  {
    if g.id == id && Weight(g) > 0.0 && counts[g] < MOST_COPIES {
      InsertFalls(list, Weight(g));
      var more := Insert(list, Weight(g));
      forall f: Finding | f.id == id ensures Tallied(more, counts + multiset{g}, f) {
        assert Tallied(list, counts, f);
        if Weight(f) == Weight(g) {
          WeightTells(f, g);
        }
      }
      forall w | w in more ensures Owed(w, id) {
        assert w in list || w == Weight(g);
      }
    } else {
      forall f: Finding | f.id == id ensures Tallied(list, counts + multiset{g}, f) {
        assert Tallied(list, counts, f);
      }
    }
  }

  lemma {:induction false} ListedTallies(t: seq<Finding>, id: string, k: nat)
    requires k <= |t|
    ensures Tallies(Listed(t, id, k), id, multiset(t[..k]))
  {
    if k == 0 {
      forall f: Finding | f.id == id ensures Tallied([], multiset(t[..0]), f) {
      }
    } else {
      ListedTallies(t, id, k - 1);
      Upto(t, k);
      TallyMore(Listed(t, id, k - 1), id, multiset(t[..k - 1]), t[k - 1]);
    }
  }

  /** What a type costs depends only on how many findings of each kind there are. */
  lemma SameCost(t: seq<Finding>, u: seq<Finding>, id: string)
    requires multiset(t) == multiset(u)
    ensures Listed(t, id, |t|) == Listed(u, id, |u|) && Cost(t, id) == Cost(u, id)
  {
    ListedTallies(t, id, |t|);
    ListedTallies(u, id, |u|);
    assert t[..|t|] == t && u[..|u|] == u;
    TallyIsUnique(Listed(t, id, |t|), Listed(u, id, |u|), id, multiset(t));
  }

  /** One type costs less than twice its largest weight, however many copies there are. */
  lemma OneTypeIsBounded(t: seq<Finding>, id: string, top: real)
    requires top > 0.0 && forall f :: f in t && f.id == id ==> Weight(f) <= top
    ensures 0.0 <= Cost(t, id) < 2.0 * top
  {
    ListedTallies(t, id, |t|);
    var list := Listed(t, id, |t|);
    assert t[..|t|] == t;
    if list != [] {
      assert list[0] in list && Owed(list[0], id);
      var f: Finding :| f.id == id && Weight(f) == list[0] && list[0] > 0.0;
      assert Tallied(list, multiset(t), f);
      assert f in multiset(t);
    }
    UnderTwice(list, top);
  }

  // ---- sums over types ----

  lemma {:induction false} SumWithout<T>(cost: T -> real, s: seq<T>, i: nat)
    requires i < |s|
    ensures SumOver(cost, s) == SumOver(cost, s[..i] + s[i + 1..]) + cost(s[i])
    decreases |s|
  {
    var n := |s| - 1;
    if i == n {
      assert s[..i] + s[i + 1..] == s[..n];
    } else {
      SumWithout(cost, s[..n], i);
      var r := s[..i] + s[i + 1..];
      assert r[..|r| - 1] == s[..n][..i] + s[..n][i + 1..];
    }
  }

  lemma Dropped<T>(s: seq<T>, i: nat)
    requires i < |s| && Distinct(s)
    ensures var r := s[..i] + s[i + 1..]; Distinct(r) && forall y :: y in r <==> y in s && y != s[i]
  {
    var r := s[..i] + s[i + 1..];
    forall y | y in s && y != s[i] ensures y in r {
      var j :| 0 <= j < |s| && s[j] == y;
      assert r[if j < i then j else j - 1] == y;
    }
  }

  /** What is in `a` alone costs nothing. */
  ghost predicate Covered<T>(cost: T -> real, a: seq<T>, b: seq<T>) { forall x :: x in a && x !in b ==> cost(x) == 0.0 }

  lemma CoveredWithout<T>(cost: T -> real, rest: seq<T>, x: T, b: seq<T>, i: nat)
    requires Distinct(rest + [x]) && Distinct(b) && i < |b| && b[i] == x
    requires Covered(cost, rest + [x], b) && Covered(cost, b, rest + [x])
    ensures var less := b[..i] + b[i + 1..];
            Distinct(rest) && Distinct(less) && Covered(cost, rest, less) && Covered(cost, less, rest)
  {
    Dropped(b, i);
    var whole := rest + [x];
    forall j, k | 0 <= j < k < |rest| ensures rest[j] != rest[k] {
      assert whole[j] != whole[k];
    }
    forall y | y in rest ensures y in whole && y != x {
      var j :| 0 <= j < |rest| && rest[j] == y;
      assert whole[j] == y && whole[|rest|] == x;
    }
  }

  /** Two lists of types give one sum if what is in one alone costs nothing. */
  lemma {:induction false} SumsMatch<T>(cost: T -> real, a: seq<T>, b: seq<T>)
    requires Distinct(a) && Distinct(b) && Covered(cost, a, b) && Covered(cost, b, a)
    ensures SumOver(cost, a) == SumOver(cost, b)
    decreases |a| + |b|
  {
    if a == [] {
      if b != [] {
        assert b[|b| - 1] in b;
        SumsMatch(cost, a, b[..|b| - 1]);
      }
    } else {
      var x, rest := a[|a| - 1], a[..|a| - 1];
      assert a == rest + [x];
      if x in b {
        var i :| 0 <= i < |b| && b[i] == x;
        SumWithout(cost, b, i);
        CoveredWithout(cost, rest, x, b, i);
        SumsMatch(cost, rest, b[..i] + b[i + 1..]);
      } else {
        assert cost(x) == 0.0;
        SumsMatch(cost, rest, b);
      }
    }
  }

  lemma {:induction false} IdsPresent(t: seq<Finding>, k: nat)
    requires k <= |t|
    ensures Distinct(Ids(t, k)) && forall id :: id in Ids(t, k) <==> exists i :: 0 <= i < k && t[i].id == id
  {
    if k > 0 {
      IdsPresent(t, k - 1);
    }
  }

  /** A type that is not there costs nothing. */
  lemma {:induction false} AbsentIsFree(t: seq<Finding>, id: string, k: nat)
    requires k <= |t| && forall i :: 0 <= i < k ==> t[i].id != id
    ensures Listed(t, id, k) == []
  {
    if k > 0 {
      AbsentIsFree(t, id, k - 1);
    }
  }

  /** The penalty, over any list of types that misses none that is there. */
  lemma PenaltyOver(t: seq<Finding>, ids: seq<string>)
    requires Distinct(ids) && forall i :: 0 <= i < |t| ==> t[i].id in ids
    ensures Penalty(t) == SumOver((id: string) => Cost(t, id), ids)
  {
    IdsPresent(t, |t|);
    forall id | id in ids && id !in Ids(t, |t|) ensures Cost(t, id) == 0.0 {
      AbsentIsFree(t, id, |t|);
    }
    SumsMatch((id: string) => Cost(t, id), Ids(t, |t|), ids);
  }

  predicate AsDear<T>(a: T -> real, b: T -> real, x: T) { a(x) == b(x) }

  lemma {:induction false} SumsEqual<T>(a: T -> real, b: T -> real, ids: seq<T>)
    requires forall x :: x in ids ==> AsDear(a, b, x)
    ensures SumOver(a, ids) == SumOver(b, ids)
  {
    if ids != [] {
      var n := |ids| - 1;
      SumsEqual(a, b, ids[..n]);
      assert ids[n] in ids && AsDear(a, b, ids[n]);
    }
  }

  lemma SumsDiffer<T>(a: T -> real, b: T -> real, ids: seq<T>, i: nat)
    requires i < |ids| && Distinct(ids)
    requires forall x :: x in ids && x != ids[i] ==> AsDear(a, b, x)
    ensures SumOver(b, ids) - SumOver(a, ids) == b(ids[i]) - a(ids[i])
  {
    SumWithout(a, ids, i);
    SumWithout(b, ids, i);
    var rest := ids[..i] + ids[i + 1..];
    forall x | x in rest ensures AsDear(a, b, x) {
      assert x in ids && x != ids[i];
    }
    SumsEqual(a, b, rest);
  }

  /** If one type's cost changes and no other's, the penalty changes by as much. */
  lemma PenaltyFollows(t: seq<Finding>, u: seq<Finding>, id: string)
    requires forall x :: x != id ==> Cost(t, x) == Cost(u, x)
    ensures Penalty(u) - Penalty(t) == Cost(u, id) - Cost(t, id)
  {
    var ids := Ids(t + u + [Finding(id, "", "")], |t| + |u| + 1);
    AllIds(t, u, id);
    PenaltyOver(t, ids);
    PenaltyOver(u, ids);
    var i :| 0 <= i < |ids| && ids[i] == id;
    SumsDiffer((x: string) => Cost(t, x), (x: string) => Cost(u, x), ids, i);
  }

  lemma AllIds(t: seq<Finding>, u: seq<Finding>, id: string)
    ensures var ids := Ids(t + u + [Finding(id, "", "")], |t| + |u| + 1);
            && Distinct(ids) && id in ids
            && (forall i :: 0 <= i < |t| ==> t[i].id in ids) && (forall i :: 0 <= i < |u| ==> u[i].id in ids)
  {
    var all := t + u + [Finding(id, "", "")];
    IdsPresent(all, |all|);
    forall i | 0 <= i < |t| ensures t[i].id in Ids(all, |all|) {
      assert all[i] == t[i];
    }
    forall i | 0 <= i < |u| ensures u[i].id in Ids(all, |all|) {
      assert all[|t| + i] == u[i];
    }
    assert all[|t| + |u|].id == id;
  }

  // ---- open findings, counted ----

  lemma {:induction false} OpenJoined(t: seq<Finding>, f: Finding, severity: string, k: nat)
    requires k <= |t|
    ensures OpenTo(t + [f], severity, k) == OpenTo(t, severity, k)
  {
    if k > 0 {
      OpenJoined(t, f, severity, k - 1);
    }
  }

  lemma OpenOneMore(t: seq<Finding>, f: Finding, severity: string)
    ensures Open(t + [f], severity) == Open(t, severity) + (if OpenAs(f, severity) then 1 else 0)
  {
    OpenJoined(t, f, severity, |t|);
  }

  lemma {:induction false} OpenWithout(t: seq<Finding>, severity: string, i: nat)
    requires i < |t|
    ensures Open(t, severity) == Open(t[..i] + t[i + 1..] + [t[i]], severity)
    decreases |t|
  {
    var n := |t| - 1;
    var front, last := t[..n], t[n];
    assert t == front + [last];
    OpenOneMore(front, last, severity);
    OpenOneMore(t[..i] + t[i + 1..], t[i], severity);
    if i == n {
      assert t[..i] + t[i + 1..] == front;
    } else {
      OpenWithout(front, severity, i);
      OpenOneMore(front[..i] + front[i + 1..], t[i], severity);
      OpenOneMore(front[..i] + front[i + 1..], last, severity);
      assert t[..i] + t[i + 1..] == front[..i] + front[i + 1..] + [last];
    }
  }
}
