/** `fallback_score` over the rows of its query (homesoc/cli.py). */
module FallbackScore {
  import opened Discount
  import opened Scoring
  import opened Sequences

  /** One row of the query: a type, severity and status, and how many findings share them. */
  datatype Row = Row(finding: Finding, n: nat)

  predicate Asked(f: Finding) { f.status == "open" || f.status == "acknowledged" }

  ghost predicate Has(rows: seq<Row>, k: nat, f: Finding)
    requires k <= |rows|
  {
    exists i :: 0 <= i < k && rows[i].finding == f
  }

  /** The findings grouped and counted, in any order. */
  ghost predicate Groups(rows: seq<Row>, t: seq<Finding>) {
    && (forall i :: 0 <= i < |rows| ==> Asked(rows[i].finding) && rows[i].n == multiset(t)[rows[i].finding] > 0)
    && (forall i, j :: 0 <= i < j < |rows| ==> rows[i].finding != rows[j].finding)
    && (forall f :: f in t && Asked(f) ==> Has(rows, |rows|, f))
  }

  // ---- the lists the rows build ----

  function Repeated(w: real, n: nat): (r: seq<real>)
    ensures |r| == n && forall x :: multiset(r)[x] == if x == w then n else 0
  {
    if n == 0 then [] else Repeated(w, n - 1) + [w]
  }

  function Extended(list: seq<real>, row: Row): seq<real> {
    list + Repeated(Weight(row.finding), Fewer(row.n, MOST_COPIES))
  }

  predicate Charges(row: Row, id: string) { row.finding.id == id && Weight(row.finding) > 0.0 && row.n > 0 }

  function Grouped(rows: seq<Row>, id: string, k: nat): seq<real>
    requires k <= |rows|
  {
    if k == 0 then []
    else if Charges(rows[k - 1], id) then Extended(Grouped(rows, id, k - 1), rows[k - 1])
    else Grouped(rows, id, k - 1)
  }

  function Seen(rows: seq<Row>, k: nat, f: Finding): nat
    requires k <= |rows|
  {
    if k == 0 then 0 else Seen(rows, k - 1, f) + (if rows[k - 1].finding == f then rows[k - 1].n else 0)
  }

  lemma {:induction false} SeenOnce(rows: seq<Row>, t: seq<Finding>, k: nat, f: Finding)
    requires Groups(rows, t) && k <= |rows|
    ensures Seen(rows, k, f) == if Has(rows, k, f) then multiset(t)[f] else 0
  {
    if k > 0 {
      SeenOnce(rows, t, k - 1, f);
      if rows[k - 1].finding == f {
        assert !Has(rows, k - 1, f);
        assert Has(rows, k, f);
      } else {
        assert Has(rows, k, f) <==> Has(rows, k - 1, f);
      }
    }
  }

  lemma ExtendedTallies(list: seq<real>, row: Row, x: real)
    ensures multiset(Extended(list, row))[x]
            == multiset(list)[x] + (if x == Weight(row.finding) then Fewer(row.n, MOST_COPIES) else 0)
  {
    var more := Repeated(Weight(row.finding), Fewer(row.n, MOST_COPIES));
    assert multiset(Extended(list, row)) == multiset(list) + multiset(more);
  }

  /** Of a kind that weighs something, the list holds as many as the rows so far say, up to sixty-four. */
  lemma {:induction false} GroupedHolds(rows: seq<Row>, t: seq<Finding>, id: string, k: nat, f: Finding)
    requires Groups(rows, t) && k <= |rows| && f.id == id && Weight(f) > 0.0
    ensures multiset(Grouped(rows, id, k))[Weight(f)] == Fewer(MOST_COPIES, Seen(rows, k, f))
  {
    if k > 0 {
      GroupedHolds(rows, t, id, k - 1, f);
      var row := rows[k - 1];
      if Charges(row, id) {
        ExtendedTallies(Grouped(rows, id, k - 1), row, Weight(f));
        if row.finding == f {
          SeenOnce(rows, t, k - 1, f);
          assert !Has(rows, k - 1, f);
        } else if Weight(row.finding) == Weight(f) {
          WeightTells(row.finding, f);
        }
      }
    }
  }

  lemma {:induction false} GroupedOwed(rows: seq<Row>, id: string, k: nat)
    requires k <= |rows|
    ensures forall w :: w in Grouped(rows, id, k) ==> Owed(w, id)
  {
    if k > 0 {
      GroupedOwed(rows, id, k - 1);
      if Charges(rows[k - 1], id) {
        var w := Weight(rows[k - 1].finding);
        var more := Repeated(w, Fewer(rows[k - 1].n, MOST_COPIES));
        assert Owed(w, id);
        forall x | x in more ensures x == w {
          assert multiset(more)[x] > 0;
        }
      }
    }
  }

  /** `sort(reverse=True)` */
  function SortDown(s: seq<real>): (r: seq<real>)
    ensures multiset(r) == multiset(s)
  {
    if s == [] then []
    else
      assert s == [s[0]] + s[1..];
      Insert(SortDown(s[1..]), s[0])
  }

  lemma {:induction false} SortDownFalls(s: seq<real>)
    requires forall i :: 0 <= i < |s| ==> s[i] >= 0.0
    ensures Falling(SortDown(s))
  {
    if s != [] {
      SortDownFalls(s[1..]);
      InsertFalls(SortDown(s[1..]), s[0]);
    }
  }

  lemma GroupTallied(rows: seq<Row>, t: seq<Finding>, id: string, f: Finding)
    requires Groups(rows, t) && f.id == id
    ensures Tallied(Grouped(rows, id, |rows|), multiset(t), f)
  {
    if Weight(f) > 0.0 {
      GroupedHolds(rows, t, id, |rows|, f);
      SeenOnce(rows, t, |rows|, f);
      assert f in t ==> Has(rows, |rows|, f);
    }
  }

  lemma SortedTallies(group: seq<real>, id: string, counts: multiset<Finding>)
    requires forall f: Finding :: f.id == id ==> Tallied(group, counts, f)
    requires forall w :: w in group ==> Owed(w, id)
    ensures Tallies(SortDown(group), id, counts)
  {
    var sorted := SortDown(group);
    forall i | 0 <= i < |group| ensures group[i] >= 0.0 {
      assert Owed(group[i], id);
    }
    SortDownFalls(group);
    forall f: Finding | f.id == id ensures Tallied(sorted, counts, f) {
      assert Tallied(group, counts, f);
    }
    forall w | w in sorted ensures Owed(w, id) {
      assert w in multiset(sorted) && w in multiset(group);
    }
  }

  /** Sorted, a type's group is the list of weights the findings themselves give. */
  lemma GroupIsListed(rows: seq<Row>, t: seq<Finding>, id: string)
    requires Groups(rows, t)
    ensures SortDown(Grouped(rows, id, |rows|)) == Listed(t, id, |t|)
  {
    GroupedOwed(rows, id, |rows|);
    forall f: Finding | f.id == id ensures Tallied(Grouped(rows, id, |rows|), multiset(t), f) {
      GroupTallied(rows, t, id, f);
    }
    SortedTallies(Grouped(rows, id, |rows|), id, multiset(t));
    ListedTallies(t, id, |t|);
    assert t[..|t|] == t;
    TallyIsUnique(SortDown(Grouped(rows, id, |rows|)), Listed(t, id, |t|), id, multiset(t));
  }

  // ---- the open ones ----

  function OpenRows(rows: seq<Row>, severity: string, k: nat): nat
    requires k <= |rows|
  {
    if k == 0 then 0
    else OpenRows(rows, severity, k - 1) + (if OpenAs(rows[k - 1].finding, severity) then rows[k - 1].n else 0)
  }

  /** The open findings among the first `j` whose kind is in the first `k` rows. */
  ghost function Among(rows: seq<Row>, t: seq<Finding>, severity: string, k: nat, j: nat): nat
    requires k <= |rows| && j <= |t|
  {
    if j == 0 then 0
    else Among(rows, t, severity, k, j - 1) + (if OpenAs(t[j - 1], severity) && Has(rows, k, t[j - 1]) then 1 else 0)
  }

  lemma {:induction false} AmongNextRow(rows: seq<Row>, t: seq<Finding>, severity: string, k: nat, j: nat)
    requires k < |rows| && j <= |t| && !Has(rows, k, rows[k].finding)
    ensures Among(rows, t, severity, k + 1, j)
            == Among(rows, t, severity, k, j)
               + (if OpenAs(rows[k].finding, severity) then multiset(t[..j])[rows[k].finding] else 0)
  {
    if j > 0 {
      AmongNextRow(rows, t, severity, k, j - 1);
      Upto(t, j);
      assert Has(rows, k + 1, t[j - 1]) <==> Has(rows, k, t[j - 1]) || rows[k].finding == t[j - 1];
    }
  }

  lemma {:induction false} OpenRowsAmong(rows: seq<Row>, t: seq<Finding>, severity: string, k: nat)
    requires Groups(rows, t) && k <= |rows|
    ensures OpenRows(rows, severity, k) == Among(rows, t, severity, k, |t|)
  {
    if k == 0 {
      NoneAmong(rows, t, severity, |t|);
    } else {
      OpenRowsAmong(rows, t, severity, k - 1);
      assert !Has(rows, k - 1, rows[k - 1].finding);
      AmongNextRow(rows, t, severity, k - 1, |t|);
      assert t[..|t|] == t;
    }
  }

  lemma {:induction false} NoneAmong(rows: seq<Row>, t: seq<Finding>, severity: string, j: nat)
    requires j <= |t|
    ensures Among(rows, t, severity, 0, j) == 0
  {
    if j > 0 {
      NoneAmong(rows, t, severity, j - 1);
    }
  }

  lemma {:induction false} AllAmong(rows: seq<Row>, t: seq<Finding>, severity: string, j: nat)
    requires Groups(rows, t) && j <= |t|
    ensures Among(rows, t, severity, |rows|, j) == OpenTo(t, severity, j)
  {
    if j > 0 {
      AllAmong(rows, t, severity, j - 1);
      assert t[j - 1] in t;
    }
  }

  lemma OpenRowsExact(rows: seq<Row>, t: seq<Finding>, severity: string)
    requires Groups(rows, t)
    ensures OpenRows(rows, severity, |rows|) == Open(t, severity)
  {
    OpenRowsAmong(rows, t, severity, |rows|);
    AllAmong(rows, t, severity, |t|);
  }

  // ---- the function itself ----

  /** The dictionary after `k` rows: every type that has been charged, in the order first seen. */
  ghost predicate Gathered(rows: seq<Row>, k: nat, order: seq<string>, groups: map<string, seq<real>>)
    requires k <= |rows|
  {
    && Distinct(order) && (forall id :: id in groups <==> id in order)
    && (forall id :: id in groups ==> groups[id] == Grouped(rows, id, k))
    && (forall id :: id !in groups ==> Grouped(rows, id, k) == [])
  }

  lemma GatherMore(rows: seq<Row>, k: nat, order: seq<string>, groups: map<string, seq<real>>)
    requires k < |rows| && Gathered(rows, k, order, groups)
    ensures var id := rows[k].finding.id;
            if !Charges(rows[k], id) then Gathered(rows, k + 1, order, groups)
            else if id in groups then Gathered(rows, k + 1, order, groups[id := Extended(groups[id], rows[k])])
            else Gathered(rows, k + 1, order + [id], groups[id := Extended([], rows[k])])
  {
    var id := rows[k].finding.id;
    forall x ensures x != id ==> Grouped(rows, x, k + 1) == Grouped(rows, x, k) {
    }
  }

  method Gather(rows: seq<Row>) returns (order: seq<string>, groups: map<string, seq<real>>, critical: nat, high: nat)
    ensures Gathered(rows, |rows|, order, groups)
    ensures critical == OpenRows(rows, "critical", |rows|) && high == OpenRows(rows, "high", |rows|)
  {
    order, groups, critical, high := [], map[], 0, 0;
    for k := 0 to |rows|
      invariant Gathered(rows, k, order, groups)
      invariant critical == OpenRows(rows, "critical", k) && high == OpenRows(rows, "high", k)
    {
      var row := rows[k];
      var id := row.finding.id;
      GatherMore(rows, k, order, groups);
      if Weight(row.finding) > 0.0 && row.n > 0 {
        if id in groups {
          groups := groups[id := Extended(groups[id], row)];
        } else {
          order, groups := order + [id], groups[id := Extended([], row)];
        }
      }
      if row.finding.status == "open" && row.finding.severity == "critical" {
        critical := critical + row.n;
      } else if row.finding.status == "open" && row.finding.severity == "high" {
        high := high + row.n;
      }
    }
  }

  /** `fallback_score`: the same whatever order the rows come in. */
  method FallbackScore(rows: seq<Row>, curve: real -> real, ghost t: seq<Finding>) returns (score: int)
    requires Groups(rows, t)
    ensures score == Score(t, curve)
  {
    var order, groups, critical, high := Gather(rows);
    var penalty := 0.0;
    ghost var cost := (id: string) => Cost(t, id);
    for i := 0 to |order|
      invariant penalty == SumOver(cost, order[..i])
    {
      var weights := SortDown(groups[order[i]]);
      penalty := penalty + Discounted(weights);
      GroupIsListed(rows, t, order[i]);
      assert order[..i + 1][..i] == order[..i];
    }
    assert order[..|order|] == order;
    PenaltyOf(rows, t, order, groups);
    OpenRowsExact(rows, t, "critical");
    OpenRowsExact(rows, t, "high");
    score := Final(curve(penalty), critical, high);
  }

  lemma PenaltyOf(rows: seq<Row>, t: seq<Finding>, order: seq<string>, groups: map<string, seq<real>>)
    requires Groups(rows, t) && Gathered(rows, |rows|, order, groups)
    ensures Penalty(t) == SumOver((id: string) => Cost(t, id), order)
  {
    IdsPresent(t, |t|);
    forall id ensures id !in order ==> Cost(t, id) == 0.0 {
      GroupIsListed(rows, t, id);
    }
    forall id | id in order && id !in Ids(t, |t|) ensures Cost(t, id) == 0.0 {
      AbsentIsFree(t, id, |t|);
    }
    SumsMatch((id: string) => Cost(t, id), Ids(t, |t|), order);
  }
}
