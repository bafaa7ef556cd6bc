/** Cutting busy intervals out of a hold (video/compose.py). */
module FreeSpans {
  import Sorting

  /** From `lo` up to, not including, `hi`. */
  datatype Span = Span(lo: real, hi: real)

  const SLIVER := 0.01

  predicate Within(s: Span, x: real) { s.lo <= x < s.hi }

  ghost predicate Inside(spans: seq<Span>, x: real) { exists s :: s in spans && Within(s, x) }

  predicate Proper(s: Span) { s.lo <= s.hi }

  ghost predicate AllProper(spans: seq<Span>) { forall i :: 0 <= i < |spans| ==> Proper(spans[i]) }

  /** In order, and apart from one another. */
  ghost predicate Ordered(spans: seq<Span>) {
    AllProper(spans) && forall i, j :: 0 <= i < j < |spans| ==> spans[i].hi <= spans[j].lo
  }

  ghost predicate Between(spans: seq<Span>, lo: real, hi: real) { forall s :: s in spans ==> lo <= s.lo && s.hi <= hi }

  /** One interval cut out of one span. */
  function CutSpan(s: Span, b: Span): seq<Span> {
    if b.hi <= s.lo || b.lo >= s.hi then [s]
    else (if b.lo > s.lo then [Span(s.lo, b.lo)] else []) + (if b.hi < s.hi then [Span(b.hi, s.hi)] else [])
  }

  /** One interval cut out of the first `n` spans. */
  function CutOne(spans: seq<Span>, b: Span, n: nat): seq<Span>
    requires n <= |spans|
  {
    if n == 0 then [] else CutOne(spans, b, n - 1) + CutSpan(spans[n - 1], b)
  }

  function CutAll(hold: Span, busy: seq<Span>, n: nat): seq<Span>
    requires n <= |busy|
  {
    if n == 0 then [hold]
    else var before := CutAll(hold, busy, n - 1); CutOne(before, busy[n - 1], |before|)
  }

  /** Pairs in the order of their starts, and of their ends where the starts are the same. */
  function InOrder(busy: seq<Span>): seq<Span> {
    Sorting.SortBy((b: Span) => b.lo, Sorting.SortBy((b: Span) => b.hi, busy))
  }

  function Longer(spans: seq<Span>, n: nat): (r: seq<Span>)
    requires n <= |spans|
    ensures forall s :: s in r <==> s in spans[..n] && s.hi - s.lo > SLIVER
  {
    if n == 0 then []
    else
      assert spans[..n] == spans[..n - 1] + [spans[n - 1]];
      Longer(spans, n - 1) + (if spans[n - 1].hi - spans[n - 1].lo > SLIVER then [spans[n - 1]] else [])
  }

  /** `_free_spans` before and after slivers are dropped. */
  function Uncut(hold: Span, busy: seq<Span>): seq<Span> { CutAll(hold, InOrder(busy), |busy|) }

  function Free(hold: Span, busy: seq<Span>): seq<Span> { Longer(Uncut(hold, busy), |Uncut(hold, busy)|) }

  method CutPieces(s: Span, b: Span) returns (pieces: seq<Span>)
    ensures pieces == CutSpan(s, b)
  {
    pieces := [s];
    if b.hi > s.lo && b.lo < s.hi {
      pieces := if b.lo > s.lo then [Span(s.lo, b.lo)] else [];
      if b.hi < s.hi {
        pieces := pieces + [Span(b.hi, s.hi)];
      }
    }
  }

  method CutOut(spans: seq<Span>, b: Span) returns (out: seq<Span>)
    ensures out == CutOne(spans, b, |spans|)
  {
    out := [];
    for i := 0 to |spans|
      invariant out == CutOne(spans, b, i)
    {
      var pieces := CutPieces(spans[i], b);
      out := out + pieces;
    }
  }

  method FreeSpans(hold: Span, busy: seq<Span>) returns (spans: seq<Span>)
    ensures spans == Free(hold, busy)
  {
    var sorted := InOrder(busy);
    spans := [hold];
    for n := 0 to |sorted|
      invariant spans == CutAll(hold, sorted, n)
    {
      spans := CutOut(spans, sorted[n]);
    }
    spans := Longer(spans, |spans|);
  }

  // ---- exactly the hold without what is busy ----

  lemma InsideJoined(a: seq<Span>, b: seq<Span>, x: real)
    ensures Inside(a + b, x) <==> Inside(a, x) || Inside(b, x)
  {
    if s :| s in a && Within(s, x) {
      assert s in a + b;
    }
    if s :| s in b && Within(s, x) {
      assert s in a + b;
    }
  }

  lemma CutSpanExact(s: Span, b: Span, x: real)
    requires Proper(b)
    ensures Inside(CutSpan(s, b), x) <==> Within(s, x) && !Within(b, x)
  {
    if Within(s, x) && !Within(b, x) {
      var piece := if b.hi <= s.lo || b.lo >= s.hi then s else if x < b.lo then Span(s.lo, b.lo) else Span(b.hi, s.hi);
      assert piece in CutSpan(s, b) && Within(piece, x);
    }
  }

  lemma InsideOneMore(spans: seq<Span>, n: nat, x: real)
    requires 0 < n <= |spans|
    ensures Inside(spans[..n], x) <==> Inside(spans[..n - 1], x) || Within(spans[n - 1], x)
  {
    assert spans[..n] == spans[..n - 1] + [spans[n - 1]];
    InsideJoined(spans[..n - 1], [spans[n - 1]], x);
    assert Inside([spans[n - 1]], x) <==> Within(spans[n - 1], x) by { assert spans[n - 1] in [spans[n - 1]]; }
  }

  lemma {:induction false} CutOneExact(spans: seq<Span>, b: Span, n: nat, x: real)
    requires n <= |spans| && Proper(b)
    ensures Inside(CutOne(spans, b, n), x) <==> Inside(spans[..n], x) && !Within(b, x)
  {
    if n > 0 {
      CutOneExact(spans, b, n - 1, x);
      InsideOneMore(spans, n, x);
      CutSpanExact(spans[n - 1], b, x);
      InsideJoined(CutOne(spans, b, n - 1), CutSpan(spans[n - 1], b), x);
    }
  }

  lemma CutStepExact(before: seq<Span>, busy: seq<Span>, n: nat, x: real, held: bool)
    requires 0 < n <= |busy| && Proper(busy[n - 1])
    requires Inside(before, x) <==> held && !Inside(busy[..n - 1], x)
    ensures Inside(CutOne(before, busy[n - 1], |before|), x) <==> held && !Inside(busy[..n], x)
  {
    CutOneExact(before, busy[n - 1], |before|, x);
    assert before[..|before|] == before;
    InsideOneMore(busy, n, x);
  }

  lemma {:induction false} CutAllExact(hold: Span, busy: seq<Span>, n: nat, x: real)
    requires n <= |busy| && AllProper(busy)
    ensures Inside(CutAll(hold, busy, n), x) <==> Within(hold, x) && !Inside(busy[..n], x)
  {
    if n == 0 {
      assert hold in [hold];
    } else {
      CutAllExact(hold, busy, n - 1, x);
      CutStepExact(CutAll(hold, busy, n - 1), busy, n, x, Within(hold, x));
    }
  }

  lemma InOrderKeeps(busy: seq<Span>)
    ensures |InOrder(busy)| == |busy| && multiset(InOrder(busy)) == multiset(busy)
    ensures forall b :: b in InOrder(busy) <==> b in busy
    ensures AllProper(busy) ==> AllProper(InOrder(busy))
  {
    var sorted := InOrder(busy);
    forall b ensures b in sorted <==> b in busy {
      assert b in multiset(busy) <==> b in multiset(sorted);
    }
    if AllProper(busy) {
      forall i | 0 <= i < |sorted| ensures Proper(sorted[i]) {
        assert sorted[i] in busy;
      }
    }
  }

  /** An instant is in a span just when it is in the hold and nothing is busy then. */
  lemma UncutIsExact(hold: Span, busy: seq<Span>, x: real)
    requires AllProper(busy)
    ensures Inside(Uncut(hold, busy), x) <==> Within(hold, x) && !Inside(busy, x)
  {
    InOrderKeeps(busy);
    var sorted := InOrder(busy);
    CutAllExact(hold, sorted, |busy|, x);
    assert sorted[..|busy|] == sorted;
  }

  // ---- order ----

  lemma {:induction false} CutOneOrdered(spans: seq<Span>, b: Span, n: nat, lo: real, hi: real)
    requires n <= |spans| && Ordered(spans) && Between(spans, lo, hi) && Proper(b)
    ensures Ordered(CutOne(spans, b, n)) && Between(CutOne(spans, b, n), lo, hi)
    ensures n > 0 ==> Between(CutOne(spans, b, n), lo, spans[n - 1].hi)
  {
    if n > 0 {
      CutOneOrdered(spans, b, n - 1, lo, hi);
      var s := spans[n - 1];
      assert s in spans;
      var front, back := CutOne(spans, b, n - 1), CutSpan(s, b);
      assert Ordered(back) && Between(back, s.lo, s.hi);
      assert Between(front, lo, s.lo) by {
        if n > 1 { assert spans[n - 2].hi <= s.lo; }
      }
      OrderedJoined(front, back, s.lo);
    }
  }

  lemma OrderedJoined(front: seq<Span>, back: seq<Span>, mid: real)
    requires Ordered(front) && Ordered(back)
    requires forall s :: s in front ==> s.hi <= mid
    requires forall s :: s in back ==> mid <= s.lo
    ensures Ordered(front + back)
  {
  }

  lemma {:induction false} CutAllOrdered(hold: Span, busy: seq<Span>, n: nat)
    requires n <= |busy| && AllProper(busy) && Proper(hold)
    ensures Ordered(CutAll(hold, busy, n)) && Between(CutAll(hold, busy, n), hold.lo, hold.hi)
  {
    if n > 0 {
      CutAllOrdered(hold, busy, n - 1);
      var before := CutAll(hold, busy, n - 1);
      CutOneOrdered(before, busy[n - 1], |before|, hold.lo, hold.hi);
    }
  }

  lemma {:induction false} LongerOrdered(spans: seq<Span>, n: nat)
    requires n <= |spans| && Ordered(spans)
    ensures Ordered(Longer(spans, n)) && forall s :: s in Longer(spans, n) ==> n > 0 && s.hi <= spans[n - 1].hi
  {
    if n > 0 {
      LongerOrdered(spans, n - 1);
      if n > 1 {
        assert spans[n - 2].hi <= spans[n - 1].lo;
      }
      OrderedJoined(Longer(spans, n - 1), if spans[n - 1].hi - spans[n - 1].lo > SLIVER then [spans[n - 1]] else [],
                    spans[n - 1].lo);
    }
  }

  /** The spans kept are in order, apart, inside the hold and longer than a sliver; none holds a
      busy instant; and a free instant is in one of them or in a gap no longer than a sliver. */
  lemma FreeIsFree(hold: Span, busy: seq<Span>)
    requires Proper(hold) && AllProper(busy)
    ensures Ordered(Free(hold, busy)) && Between(Free(hold, busy), hold.lo, hold.hi)
    ensures forall s :: s in Free(hold, busy) ==> s.hi - s.lo > SLIVER
    ensures forall x :: Inside(Free(hold, busy), x) ==> Within(hold, x) && !Inside(busy, x)
    ensures forall x :: Within(hold, x) && !Inside(busy, x) && !Inside(Free(hold, busy), x) ==>
              exists s :: s in Uncut(hold, busy) && Within(s, x) && s.hi - s.lo <= SLIVER
  {
    var spans, kept := Uncut(hold, busy), Free(hold, busy);
    InOrderKeeps(busy);
    CutAllOrdered(hold, InOrder(busy), |busy|);
    LongerOrdered(spans, |spans|);
    assert spans[..|spans|] == spans;
    forall x ensures Inside(spans, x) <==> Within(hold, x) && !Inside(busy, x) {
      UncutIsExact(hold, busy, x);
    }
    forall x | Inside(kept, x) ensures Inside(spans, x) {
      var s :| s in kept && Within(s, x);
      assert s in spans;
    }
  }
}
