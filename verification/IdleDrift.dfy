/** Keeping a held page moving: the idle drift of `build_plan` (video/compose.py). */
module IdleDrift {
  import opened FreeSpans

  const WIN_W := 1792.0
  const DRIFT_RATE := 2.5      // pixels of width a second
  const DRIFT_CYCLE := 9.0
  const DRIFT_AFTER := 2.5
  const LEAST_SCALE := 1.0005

  /** A camera event: in from `t0` to `mid`, back out by `t1`, to a crop of the window at `scale`. */
  datatype Sway = Sway(t0: real, mid: real, t1: real, scale: real)

  function Ceil(x: real): int { -((-x).Floor) }

  function Cycles(free: real): (c: nat)
    ensures c >= 1
  {
    if Ceil(free / DRIFT_CYCLE) > 1 then Ceil(free / DRIFT_CYCLE) else 1
  }

  function Length(s: Span): real { (s.hi - s.lo) / Cycles(s.hi - s.lo) as real }

  function Denominator(seg: real): real
  {
    var w := WIN_W - DRIFT_RATE * (seg / 2.0);
    if w > 1.0 then w else 1.0
  }

  function ScaleOf(seg: real): real { WIN_W / Denominator(seg) }

  function Begin(lo: real, seg: real, k: nat): real { lo + k as real * seg }

  function Swing(a: real, seg: real): Sway { Sway(a, a + seg / 2.0, a + seg, ScaleOf(seg)) }

  function SwayOf(s: Span, k: nat): Sway { Swing(Begin(s.lo, Length(s), k), Length(s)) }

  predicate Drifts(s: Span) { s.hi - s.lo >= DRIFT_AFTER && ScaleOf(Length(s)) > LEAST_SCALE }

  function SwaysOf(s: Span, n: nat): (r: seq<Sway>)
    ensures |r| == n && forall k :: 0 <= k < n ==> r[k] == SwayOf(s, k)
  {
    if n == 0 then [] else SwaysOf(s, n - 1) + [SwayOf(s, n - 1)]
  }

  function SpanSways(s: Span): seq<Sway> { if Drifts(s) then SwaysOf(s, Cycles(s.hi - s.lo)) else [] }

  function Gather<T, U>(f: T -> seq<U>, s: seq<T>, n: nat): seq<U>
    requires n <= |s|
  {
    if n == 0 then [] else Gather(f, s, n - 1) + f(s[n - 1])
  }

  lemma {:induction false} Gathered<T, U>(f: T -> seq<U>, s: seq<T>, n: nat, i: nat, u: U)
    requires i < n <= |s| && u in f(s[i])
    ensures u in Gather(f, s, n)
  {
    if i < n - 1 {
      Gathered(f, s, n - 1, i, u);
    }
  }

  function SwaysTo(spans: seq<Span>, n: nat): seq<Sway>
    requires n <= |spans|
  {
    Gather(SpanSways, spans, n)
  }

  /** The drift of one hold. */
  function Drift(hold: Span, busy: seq<Span>): seq<Sway> {
    if hold.hi - hold.lo < DRIFT_AFTER then [] else SwaysTo(Free(hold, busy), |Free(hold, busy)|)
  }

  method DriftSpan(s: Span) returns (sways: seq<Sway>)
    ensures sways == SpanSways(s)
  {
    sways := [];
    var free := s.hi - s.lo;
    if free < DRIFT_AFTER {
      return;
    }
    var cycles := Cycles(free);
    var seg := free / cycles as real;
    var scale := ScaleOf(seg);
    assert seg == Length(s);
    if scale <= LEAST_SCALE {
      return;
    }
    for k := 0 to cycles
      invariant sways == SwaysOf(s, k)
    {
      var a := Begin(s.lo, seg, k);
      sways := sways + [Sway(a, a + seg / 2.0, a + seg, scale)];
    }
  }

  method DriftThrough(hold: Span, busy: seq<Span>) returns (sways: seq<Sway>)
    ensures sways == Drift(hold, busy)
  {
    sways := [];
    if hold.hi - hold.lo < DRIFT_AFTER {
      return;
    }
    var spans := FreeSpans.FreeSpans(hold, busy);
    for i := 0 to |spans|
      invariant sways == SwaysTo(spans, i)
    {
      var more := DriftSpan(spans[i]);
      sways := sways + more;
    }
  }

  // ---- one span ----

  lemma Quotient(free: real, c: nat)
    requires c >= 1
    ensures (free / c as real) * c as real == free
  {
  }

  lemma CyclesBracket(free: real)
    requires free > 0.0
    ensures free <= DRIFT_CYCLE * Cycles(free) as real
    ensures Cycles(free) > 1 ==> free > DRIFT_CYCLE * (Cycles(free) - 1) as real
  {
    var q := free / DRIFT_CYCLE;
    assert q * DRIFT_CYCLE == free;
    assert Ceil(q) as real - 1.0 < q <= Ceil(q) as real;
  }

  lemma SegBounds(free: real, seg: real, c: nat)
    requires c >= 1 && seg * c as real == free && DRIFT_AFTER <= free <= DRIFT_CYCLE * c as real
    requires c > 1 ==> free > DRIFT_CYCLE * (c - 1) as real
    ensures DRIFT_AFTER <= seg <= DRIFT_CYCLE
  {
    if seg > DRIFT_CYCLE {
      TimesMore(seg, DRIFT_CYCLE, c);
    }
    if c > 1 {
      assert DRIFT_CYCLE * (c - 1) as real >= DRIFT_AFTER * c as real;
      if seg < DRIFT_AFTER {
        TimesMore(DRIFT_AFTER, seg, c);
      }
    } else {
      assert c as real == 1.0 && seg * 1.0 == seg;
    }
  }

  /** A cycle is at most nine seconds and at least as long as the shortest hold that drifts, and there are
      no more cycles than that takes. */
  lemma CycleLength(s: Span)
    requires s.hi - s.lo >= DRIFT_AFTER
    ensures DRIFT_AFTER <= Length(s) <= DRIFT_CYCLE
    ensures Length(s) * Cycles(s.hi - s.lo) as real == s.hi - s.lo
    ensures Cycles(s.hi - s.lo) > 1 ==> s.hi - s.lo > DRIFT_CYCLE * (Cycles(s.hi - s.lo) - 1) as real
  {
    var free := s.hi - s.lo;
    Quotient(free, Cycles(free));
    CyclesBracket(free);
    SegBounds(free, Length(s), Cycles(free));
  }

  lemma TimesMore(a: real, b: real, c: nat)
    requires a > b && c >= 1
    ensures a * c as real > b * c as real
  {
  }

  /** The test that would leave a span still never fires: every cycle is long enough to show, and
      even the longest stays under one per cent.  The width moves at the rate, whatever the cycle. */
  lemma DriftShows(s: Span)
    requires s.hi - s.lo >= DRIFT_AFTER
    ensures Drifts(s) && ScaleOf(Length(s)) < 1.01
    ensures WIN_W - WIN_W / ScaleOf(Length(s)) == DRIFT_RATE * (Length(s) / 2.0)
  {
    CycleLength(s);
    var w := Denominator(Length(s));
    assert 1780.75 <= w <= 1788.875;
    ScaleBounds(w);
  }

  lemma QuotientBetween(a: real, w: real, lo: real, hi: real)
    requires w > 0.0 && lo * w < a < hi * w
    ensures lo < a / w < hi
  {
    var q := a / w;
    assert q * w == a;
    if q <= lo {
      TimesAtLeast(lo, q, w);
    }
    if q >= hi {
      TimesAtLeast(q, hi, w);
    }
  }

  lemma TimesAtLeast(a: real, b: real, w: real)
    requires a >= b && w > 0.0
    ensures a * w >= b * w
  {
  }

  lemma ScaleBounds(w: real)
    requires 1780.75 <= w <= 1788.875
    ensures LEAST_SCALE < WIN_W / w < 1.01 && WIN_W / (WIN_W / w) == w
  {
    QuotientBetween(WIN_W, w, LEAST_SCALE, 1.01);
    var scale := WIN_W / w;
    assert scale * w == WIN_W;
    assert (WIN_W / scale) * scale == WIN_W;
    SameFactor(WIN_W / scale, w, scale);
  }

  lemma SameFactor(a: real, b: real, c: real)
    requires c > 0.0 && a * c == b * c
    ensures a == b
  {
    assert (a - b) * c == 0.0;
  }

  lemma OneMore(k: real, seg: real)
    ensures (k + 1.0) * seg == k * seg + seg
  {
  }

  lemma SwayEnds(s: Span, k: nat)
    ensures SwayOf(s, k).t1 == SwayOf(s, k + 1).t0
  {
    var seg := Length(s);
    assert Begin(s.lo, seg, k + 1) == Begin(s.lo, seg, k) + seg by { OneMore(k as real, seg); }
  }

  /** The cycles of a span tile it: the first begins where it begins, each begins where the one
      before came to rest, and the last comes to rest where it ends. */
  lemma SwaysTile(s: Span)
    requires s.hi - s.lo >= DRIFT_AFTER
    ensures var r := SpanSways(s);
            && r != [] && r[0].t0 == s.lo && r[|r| - 1].t1 == s.hi
            && (forall k :: 0 < k < |r| ==> r[k].t0 == r[k - 1].t1)
            && (forall k :: 0 <= k < |r| ==> DRIFT_AFTER <= r[k].t1 - r[k].t0 <= DRIFT_CYCLE
                                             && r[k].mid - r[k].t0 == r[k].t1 - r[k].mid)
  {
    DriftShows(s);
    CycleLength(s);
    var c := Cycles(s.hi - s.lo);
    SwayEnds(s, c - 1);
    forall k | 0 < k < c ensures SwayOf(s, k).t0 == SwayOf(s, k - 1).t1 {
      SwayEnds(s, k - 1);
    }
  }

  lemma {:induction false} LaterSways(s: Span, j: nat, k: nat)
    requires j <= k && Proper(s)
    ensures SwayOf(s, j).t0 <= SwayOf(s, k).t0 && SwayOf(s, j).t1 <= SwayOf(s, k).t1
    ensures j < k ==> SwayOf(s, j).t1 <= SwayOf(s, k).t0
    decreases k
  {
    if j < k {
      LaterSways(s, j, k - 1);
      SwayEnds(s, k - 1);
      assert Length(s) >= 0.0;
    }
  }

  ghost predicate Apart(sways: seq<Sway>) { forall i, j :: 0 <= i < j < |sways| ==> sways[i].t1 <= sways[j].t0 }

  lemma SpanSwaysApart(s: Span)
    requires Proper(s)
    ensures Apart(SpanSways(s))
    ensures forall w :: w in SpanSways(s) ==> s.lo <= w.t0 < w.t1 <= s.hi
  {
    if Drifts(s) {
      SwaysTile(s);
      var r := SpanSways(s);
      forall i, j | 0 <= i < j < |r| ensures r[i].t1 <= r[j].t0 {
        LaterSways(s, i, j);
      }
      forall i | 0 <= i < |r| ensures s.lo <= r[i].t0 && r[i].t1 <= s.hi {
        LaterSways(s, 0, i);
        LaterSways(s, i, |r| - 1);
      }
    }
  }

  /** Where a span that drifts is never still. */
  lemma {:induction false} SomeSway(s: Span, n: nat, x: real)
    requires s.lo <= x < s.lo + n as real * Length(s)
    ensures exists k :: 0 <= k < n && SwayOf(s, k).t0 <= x < SwayOf(s, k).t1
    decreases n
  {
    if n > 0 {
      if x < s.lo + (n - 1) as real * Length(s) {
        SomeSway(s, n - 1, x);
      } else {
        SwayEnds(s, n - 1);
        assert SwayOf(s, n - 1).t0 <= x < SwayOf(s, n - 1).t1;
      }
    }
  }

  // ---- the whole hold ----

  ghost predicate Moving(sways: seq<Sway>, x: real) { exists w :: w in sways && w.t0 <= x < w.t1 }

  lemma {:induction false} SwaysInSpans(spans: seq<Span>, n: nat)
    requires n <= |spans| && Ordered(spans)
    ensures Apart(SwaysTo(spans, n))
    ensures forall w :: w in SwaysTo(spans, n) ==>
              w.t0 < w.t1 && exists i :: 0 <= i < n && spans[i].lo <= w.t0 && w.t1 <= spans[i].hi
    ensures n > 0 ==> forall w :: w in SwaysTo(spans, n) ==> w.t1 <= spans[n - 1].hi
  {
    if n > 0 {
      SwaysInSpans(spans, n - 1);
      var s := spans[n - 1];
      assert s in spans;
      SpanSwaysApart(s);
      var front, back := SwaysTo(spans, n - 1), SpanSways(s);
      forall w | w in front ensures w.t1 <= s.lo {
        if n > 1 { assert spans[n - 2].hi <= s.lo; }
      }
    }
  }

  lemma SpanMovesHere(s: Span, x: real)
    requires Within(s, x) && s.hi - s.lo >= DRIFT_AFTER
    ensures Moving(SpanSways(s), x)
  {
    DriftShows(s);
    CycleLength(s);
    SomeSway(s, Cycles(s.hi - s.lo), x);
    var k :| 0 <= k < Cycles(s.hi - s.lo) && SwayOf(s, k).t0 <= x < SwayOf(s, k).t1;
    assert SpanSways(s)[k] == SwayOf(s, k);
    assert SpanSways(s)[k] in SpanSways(s);
  }

  lemma SpanMoves(spans: seq<Span>, i: nat, x: real)
    requires i < |spans| && Within(spans[i], x) && spans[i].hi - spans[i].lo >= DRIFT_AFTER
    ensures Moving(SwaysTo(spans, |spans|), x)
  {
    SpanMovesHere(spans[i], x);
    var w :| w in SpanSways(spans[i]) && w.t0 <= x < w.t1;
    Gathered(SpanSways, spans, |spans|, i, w);
  }

  lemma MovingIsInside(hold: Span, busy: seq<Span>, x: real)
    requires Proper(hold) && AllProper(busy) && Moving(Drift(hold, busy), x)
    ensures Within(hold, x) && !Inside(busy, x)
  {
    var spans := Free(hold, busy);
    FreeIsFree(hold, busy);
    SwaysInSpans(spans, |spans|);
    var w :| w in Drift(hold, busy) && w.t0 <= x < w.t1;
    var i :| 0 <= i < |spans| && spans[i].lo <= w.t0 && w.t1 <= spans[i].hi;
    assert spans[i] in spans && Within(spans[i], x);
    assert Inside(spans, x);
  }

  /** No drift ever moves under a zoom, or two at once, or outside the hold; and an instant of a
      hold at rest is a zoom's, or lies in a free stretch too short to drift. */
  lemma DriftIsSafeAndComplete(hold: Span, busy: seq<Span>)
    requires Proper(hold) && AllProper(busy)
    ensures Apart(Drift(hold, busy))
    ensures forall x :: Moving(Drift(hold, busy), x) ==> Within(hold, x) && !Inside(busy, x)
    ensures forall x :: Within(hold, x) && !Inside(busy, x) && !Moving(Drift(hold, busy), x) ==>
              exists s :: s in Uncut(hold, busy) && Within(s, x) && s.hi - s.lo < DRIFT_AFTER
  {
    var spans := Free(hold, busy);
    FreeIsFree(hold, busy);
    SwaysInSpans(spans, |spans|);
    forall x | Moving(Drift(hold, busy), x) ensures Within(hold, x) && !Inside(busy, x) {
      MovingIsInside(hold, busy, x);
    }
    forall x | Within(hold, x) && !Inside(busy, x) && !Moving(Drift(hold, busy), x)
      ensures exists s :: s in Uncut(hold, busy) && Within(s, x) && s.hi - s.lo < DRIFT_AFTER
    {
      RestIsShort(hold, busy, x);
    }
  }

  lemma RestIsShort(hold: Span, busy: seq<Span>, x: real)
    requires Proper(hold) && AllProper(busy)
    requires Within(hold, x) && !Inside(busy, x) && !Moving(Drift(hold, busy), x)
    ensures exists s :: s in Uncut(hold, busy) && Within(s, x) && s.hi - s.lo < DRIFT_AFTER
  {
    UncutIsExact(hold, busy, x);
    InOrderKeeps(busy);
    CutAllOrdered(hold, InOrder(busy), |busy|);
    var s :| s in Uncut(hold, busy) && Within(s, x);
    if s.hi - s.lo >= DRIFT_AFTER {
      var spans, all := Free(hold, busy), Uncut(hold, busy);
      assert all[..|all|] == all;
      assert s in spans;
      var i :| 0 <= i < |spans| && spans[i] == s;
      SpanMoves(spans, i, x);
      assert false;
    }
  }
}
