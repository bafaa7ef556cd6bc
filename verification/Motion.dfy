/** Motion that must not jump: the slide wave and burst playback (video/compose.py). */
module Motion {
  import opened Reals

  // ---- the slide wave ----

  /** How many whole cycles of `q` fit in `x`. */
  function Whole(x: real, q: real): int
    requires q > 0.0
  {
    (x / q).Floor
  }

  /** The end of the `k`th cycle of `q`. */
  function Mark(q: real, k: int): real { Times(k as real, q) }

  function Mod(x: real, q: real): real
    requires q > 0.0
  {
    x - Mark(q, Whole(x, q))
  }

  function Fold(m: real, p: real): real { if m <= p then m else 2.0 * p - m }

  /** Out to `p` and back, again and again. */
  function Triangle(x: real, p: real): real
    requires p > 0.0
  {
    Fold(Mod(x, 2.0 * p), p)
  }

  /** A slide run's drift. */
  datatype Wave = Wave(t0: real, holdUntil: real, base: real, rate: real, peak: real)

  function Peak(w: Wave): (p: real)
    ensures p > 0.0
  {
    Max(0.000000001, w.peak)
  }

  /** How long a wave has been walking, less than nothing before it begins. */
  function Elapsed(w: Wave, t: real): real { Min(t, w.holdUntil) - w.t0 }

  function Walked(w: Wave, t: real): real { Max(0.0, Times(w.rate, Elapsed(w, t))) }

  /** `_wave_scale` */
  function Scale(w: Wave, t: real): real { w.base + Triangle(Walked(w, t), Peak(w)) }

  lemma Quotient(x: real, q: real) returns (r: real)
    requires q > 0.0
    ensures r == x / q && Times(r, q) == x
  {
    r := x / q;
  }

  lemma Lower(a: real, b: real, q: real)
    requires q > 0.0 && a < b
    ensures Times(a, q) < Times(b, q)
  {
  }

  lemma NoHigher(a: real, b: real, q: real)
    requires q > 0.0 && Times(a, q) <= Times(b, q)
    ensures a <= b
  {
    if b < a {
      Lower(b, a, q);
    }
  }

  lemma OneMore(a: real, q: real)
    ensures Times(a + 1.0, q) == Times(a, q) + q
  {
  }

  lemma ModInside(x: real, q: real)
    requires q > 0.0
    ensures 0.0 <= Mod(x, q) < q
  {
    var r := Quotient(x, q);
    if r.Floor as real < r {
      Lower(r.Floor as real, r, q);
    }
    OneMore(r.Floor as real, q);
    Lower(r, r.Floor as real + 1.0, q);
  }

  lemma MarksInOrder(q: real, a: int, b: int)
    requires q > 0.0 && a <= b
    ensures Mark(q, a) <= Mark(q, b)
  {
    if a < b {
      Lower(a as real, b as real, q);
    }
  }

  lemma NextMark(q: real, k: int)
    ensures Mark(q, k + 1) == Mark(q, k) + q
  {
    OneMore(k as real, q);
  }

  /** The triangle is the distance to the nearest end of a cycle ... */
  lemma TriangleIsLeast(x: real, p: real, k: int)
    requires p > 0.0
    ensures 0.0 <= Triangle(x, p) <= p && Triangle(x, p) <= Abs(x - Mark(2.0 * p, k))
  {
    var n := Whole(x, 2.0 * p);
    ModInside(x, 2.0 * p);
    FoldIsLeast(x, p, Mark(2.0 * p, n));
    if k <= n {
      MarksInOrder(2.0 * p, k, n);
    } else {
      MarksInOrder(2.0 * p, n + 1, k);
      NextMark(2.0 * p, n);
    }
  }

  lemma FoldIsLeast(x: real, p: real, below: real)
    requires p > 0.0 && 0.0 <= x - below < 2.0 * p
    ensures 0.0 <= Fold(x - below, p) <= p && Fold(x - below, p) <= x - below && Fold(x - below, p) <= below + 2.0 * p - x
  {
  }

  /** ... and that end is there. */
  lemma TriangleIsReached(x: real, p: real) returns (k: int)
    requires p > 0.0
    ensures Triangle(x, p) == Abs(x - Mark(2.0 * p, k))
  {
    ModInside(x, 2.0 * p);
    k := Whole(x, 2.0 * p);
    NextMark(2.0 * p, k);
    if Mod(x, 2.0 * p) > p {
      k := k + 1;
    }
  }

  /** It never moves faster than what it is given. */
  lemma TriangleIsSteady(x: real, y: real, p: real)
    requires p > 0.0
    ensures Abs(Triangle(x, p) - Triangle(y, p)) <= Abs(x - y)
  {
    var k := TriangleIsReached(y, p);
    TriangleIsLeast(x, p, k);
    Detour(x, y, Mark(2.0 * p, k));
    var j := TriangleIsReached(x, p);
    TriangleIsLeast(y, p, j);
    Detour(y, x, Mark(2.0 * p, j));
  }

  lemma Detour(x: real, y: real, z: real)
    ensures Abs(x - z) <= Abs(x - y) + Abs(y - z)
  {
  }

  lemma WalkedIsSteady(w: Wave, s: real, t: real)
    requires w.rate >= 0.0
    ensures Abs(Walked(w, s) - Walked(w, t)) <= Times(w.rate, Abs(s - t))
  {
    Clipped(s, t, w.holdUntil, w.t0);
    Stretched(w.rate, Elapsed(w, s), Elapsed(w, t), Abs(s - t));
  }

  lemma Clipped(s: real, t: real, hold: real, t0: real)
    ensures Abs((Min(s, hold) - t0) - (Min(t, hold) - t0)) <= Abs(s - t)
  {
  }

  lemma Stretched(r: real, a: real, b: real, d: real)
    requires r >= 0.0 && Abs(a - b) <= d
    ensures Abs(Max(0.0, Times(r, a)) - Max(0.0, Times(r, b))) <= Times(r, d)
  {
    Distribute(r, a, b);
    Distribute(r, d, a - b);
    Distribute(r, d, b - a);
    Distribute(r, b, a);
    NotLess(r, d - (a - b));
    NotLess(r, d - (b - a));
  }

  lemma NotLess(r: real, x: real)
    requires r >= 0.0 && x >= 0.0
    ensures Times(r, x) >= 0.0
  {
  }

  lemma Distribute(r: real, a: real, b: real)
    ensures Times(r, a - b) == Times(r, a) - Times(r, b)
  {
  }

  /** A slide's scale stays between its base and its peak, and over a whole run, turns and all,
      never changes faster than its rate. */
  lemma WaveNeverJumps(w: Wave, s: real, t: real)
    requires w.rate >= 0.0
    ensures w.base <= Scale(w, t) <= w.base + Peak(w)
    ensures Abs(Scale(w, s) - Scale(w, t)) <= Times(w.rate, Abs(s - t))
  {
    var p := Peak(w);
    TriangleIsLeast(Walked(w, t), p, 0);
    TriangleIsSteady(Walked(w, s), Walked(w, t), p);
    WalkedIsSteady(w, s, t);
  }

  /** Where a slide stands: from when its wave begins until it holds, as far from its base as what it has
      walked is from the nearest end of a cycle; before, at its base; after, where it stopped. */
  lemma WaveIsDistance(w: Wave, t: real, k: int) returns (near: int)
    requires w.rate >= 0.0 && w.t0 <= w.holdUntil
    ensures w.t0 <= t <= w.holdUntil ==>
              var walked, p := Times(w.rate, t - w.t0), Peak(w);
              && Scale(w, t) - w.base <= Abs(walked - Times(k as real, 2.0 * p))
              && Scale(w, t) - w.base == Abs(walked - Times(near as real, 2.0 * p))
    ensures t <= w.t0 ==> Scale(w, t) == w.base
    ensures t >= w.holdUntil ==> Scale(w, t) == Scale(w, w.holdUntil)
  {
    var p := Peak(w);
    TriangleIsLeast(Walked(w, t), p, k);
    near := TriangleIsReached(Walked(w, t), p);
    WalkedSoFar(w, t);
    if t <= w.t0 {
      TriangleIsLeast(0.0, p, 0);
      assert Mark(2.0 * p, 0) == 0.0;
    }
  }

  lemma WalkedSoFar(w: Wave, t: real)
    requires w.rate >= 0.0 && w.t0 <= w.holdUntil
    ensures w.t0 <= t <= w.holdUntil ==> Walked(w, t) == Times(w.rate, t - w.t0)
    ensures t <= w.t0 ==> Walked(w, t) == 0.0
  {
    if t >= w.t0 {
      NotLess(w.rate, Elapsed(w, t));
    } else {
      NotLess(w.rate, w.t0 - t);
      Distribute(w.rate, t, w.t0);
      Distribute(w.rate, w.t0, t);
    }
  }

  // ---- burst playback ----

  function Period(n: nat): int { 2 * n - 2 }

  /** The frame of a burst of `n` shown at `step`: forwards, then backwards. */
  function FrameOf(n: nat, step: nat): int
    requires n >= 2
  {
    var k := step % Period(n);
    if k < n then k else Period(n) - k
  }

  lemma NextStep(step: nat, period: nat)
    requires period > 0
    ensures (step + 1) % period == if step % period == period - 1 then 0 else step % period + 1
  {
    var a, b := step / period, step % period;
    assert step == period * a + b;
    if b == period - 1 {
      Remainder(step + 1, period, a + 1, 0);
    } else {
      Remainder(step + 1, period, a, b + 1);
    }
  }

  lemma Remainder(x: nat, period: nat, a: nat, b: nat)
    requires period > 0 && b < period && x == period * a + b
    ensures x % period == b
  {
    var c, d := x / period, x % period;
    assert x == period * c + d;
    if a < c {
      Multiples(period, a, c);
    } else if c < a {
      Multiples(period, c, a);
    }
  }

  lemma Multiples(period: nat, a: nat, b: nat)
    requires a < b
    ensures period * a + period <= period * b
  {
    var more: nat := b - a - 1;
    assert period * (a + 1 + more) == period * a + period + period * more;
  }

  /** Every step moves to a neighbouring frame. */
  lemma BurstStepsByOne(n: nat, step: nat)
    requires n >= 2
    ensures 0 <= FrameOf(n, step) < n
    ensures FrameOf(n, step + 1) - FrameOf(n, step) == 1 || FrameOf(n, step) - FrameOf(n, step + 1) == 1
  {
    NextStep(step, Period(n));
  }

  /** Each frame is shown exactly where the sweep out and the sweep back pass it. */
  lemma FrameShownExactly(n: nat, step: nat, i: nat)
    requires n >= 2 && i < n
    ensures FrameOf(n, step) == i <==> step % Period(n) == i || step % Period(n) == Period(n) - i
  {
    assert 0 <= step % Period(n) < Period(n);
  }

  function StepAt(t: real, interval: real): (step: nat)
    requires interval > 0.0
  {
    NotBelow(Max(0.0, t), interval);
    (Max(0.0, t) / interval).Floor
  }

  lemma NotBelow(x: real, q: real)
    requires x >= 0.0 && q > 0.0
    ensures (x / q).Floor >= 0
  {
    var r := Quotient(x, q);
    if r < 0.0 {
      Lower(r, 0.0, q);
    }
  }

  /** The step is how many whole intervals have passed. */
  lemma StepCounts(t: real, interval: real)
    requires interval > 0.0 && t >= 0.0
    ensures Times(StepAt(t, interval) as real, interval) <= t < Times(StepAt(t, interval) as real + 1.0, interval)
  {
    var r := Quotient(t, interval);
    var k := StepAt(t, interval) as real;
    if k < r {
      Lower(k, r, interval);
    }
    Lower(r, k + 1.0, interval);
  }

  lemma StepsNearby(t: real, u: real, interval: real)
    requires interval > 0.0 && t <= u <= t + interval
    ensures StepAt(t, interval) <= StepAt(u, interval) <= StepAt(t, interval) + 1
  {
    var a := Quotient(Max(0.0, t), interval);
    var b := Quotient(Max(0.0, u), interval);
    Divided(a, b, interval);
  }

  lemma Divided(a: real, b: real, q: real)
    requires q > 0.0 && Times(a, q) <= Times(b, q) <= Times(a, q) + q
    ensures a <= b <= a + 1.0
  {
    NoHigher(a, b, q);
    OneMore(a, q);
    NoHigher(b, a + 1.0, q);
  }

  /** A film frame later by no more than the burst's interval shows the same frame of the burst or
      one next to it, at every turn of the sweep. */
  lemma BurstNeverJumps(n: nat, t: real, u: real, interval: real)
    requires n >= 2 && interval > 0.0 && t <= u <= t + interval
    ensures -1 <= FrameOf(n, StepAt(u, interval)) - FrameOf(n, StepAt(t, interval)) <= 1
  {
    StepsNearby(t, u, interval);
    BurstStepsByOne(n, StepAt(t, interval));
  }
}
