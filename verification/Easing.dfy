/** Easing (video/compose.py). */
module Easing {
  function Clamp(t: real): real { if t < 0.0 then 0.0 else if t > 1.0 then 1.0 else t }

  function Rise(c: real): real { 4.0 * c * c * c }

  /** `ease_in_out_cubic` */
  function Ease(t: real): real {
    var c := Clamp(t);
    if c < 0.5 then Rise(c)
    else var d := -2.0 * c + 2.0; 1.0 - (d * d * d) / 2.0
  }

  lemma EaseMirrors(c: real)
    requires 0.5 <= c <= 1.0
    ensures Ease(c) == 1.0 - Rise(1.0 - c)
  {
    var e := 1.0 - c;
    var d := -2.0 * c + 2.0;
    assert d == 2.0 * e;
    assert d * d == 4.0 * (e * e);
    assert d * d * d == 8.0 * (e * e * e) by { Cubes(d, e); }
    assert Rise(e) == 4.0 * (e * e * e) by { Grouped(e); }
  }

  lemma Cubes(d: real, e: real)
    requires d == 2.0 * e
    ensures d * d * d == 8.0 * (e * e * e)
  {
  }

  lemma Grouped(e: real)
    ensures 4.0 * e * e * e == 4.0 * (e * e * e)
  {
  }

  lemma HalfSquares(a: real, b: real)
    requires 0.0 <= a <= b <= 0.5
    ensures 0.0 <= a * a + a * b + b * b <= 0.75
  {
    Product(b, b);
    Product(a, b);
    Product(a, a);
  }

  lemma NotNegative(x: real, y: real)
    requires 0.0 <= x && 0.0 <= y
    ensures 0.0 <= x * y
  {
  }

  lemma Spread(a: real, x: real, y: real)
    ensures (a - x) * y == a * y - x * y
  {
  }

  lemma Product(x: real, y: real)
    requires 0.0 <= x <= 0.5 && 0.0 <= y <= 0.5
    ensures 0.0 <= x * y <= 0.25
  {
    NotNegative(x, y);
    NotNegative(0.5 - x, y);
    Spread(0.5, x, y);
  }

  lemma Scaled(x: real, q: real)
    requires 0.0 <= x && 0.0 <= q <= 0.75
    ensures 0.0 <= 4.0 * (x * q) <= 3.0 * x
  {
  }

  /** The rise from `a` to `b` in terms of the step `x` between them. */
  lemma Factors(a: real, b: real) returns (x: real, q: real)
    requires 0.0 <= a <= b <= 0.5
    ensures x == b - a && 0.0 <= q <= 0.75 && Rise(b) - Rise(a) == 4.0 * (x * q)
  {
    Grouped(a);
    Grouped(b);
    x, q := b - a, a * a + a * b + b * b;
    assert b * b * b - a * a * a == (b - a) * (a * a + a * b + b * b);
    HalfSquares(a, b);
  }

  lemma RiseSlope(a: real, b: real)
    requires 0.0 <= a <= b <= 0.5
    ensures 0.0 <= Rise(b) - Rise(a) <= 3.0 * (b - a)
  {
    var x, q := Factors(a, b);
    Scaled(x, q);
  }

  /** A curve that rises as `rise` does up to the half and mirrors it after. */
  ghost predicate Mirrored(rise: real -> real, curve: real -> real) {
    && rise(0.5) == 0.5 && (forall c :: 0.0 <= c < 0.5 ==> curve(c) == rise(c))
    && forall c :: 0.5 <= c <= 1.0 ==> curve(c) == 1.0 - rise(1.0 - c)
  }

  ghost predicate Slopes(f: real -> real, limit: real) {
    forall a, b :: 0.0 <= a <= b <= limit ==> 0.0 <= f(b) - f(a) <= 3.0 * (b - a)
  }

  lemma MirroredSlopes(rise: real -> real, curve: real -> real)
    requires Mirrored(rise, curve) && Slopes(rise, 0.5)
    ensures Slopes(curve, 1.0)
  {
    forall a, b | 0.0 <= a <= b <= 1.0 ensures 0.0 <= curve(b) - curve(a) <= 3.0 * (b - a) {
      if a >= 0.5 {
        assert 0.0 <= rise(1.0 - a) - rise(1.0 - b) <= 3.0 * (b - a);
      } else if b >= 0.5 {
        assert 0.0 <= rise(0.5) - rise(a) <= 3.0 * (0.5 - a);
        assert 0.0 <= rise(0.5) - rise(1.0 - b) <= 3.0 * (b - 0.5);
      }
    }
  }

  lemma EaseSlopes()
    ensures Slopes(Ease, 1.0)
  {
    forall a, b | 0.0 <= a <= b <= 0.5 ensures 0.0 <= Rise(b) - Rise(a) <= 3.0 * (b - a) {
      RiseSlope(a, b);
    }
    forall c | 0.5 <= c <= 1.0 ensures Ease(c) == 1.0 - Rise(1.0 - c) {
      EaseMirrors(c);
    }
    MirroredSlopes(Rise, Ease);
  }

  predicate InUnit(ease: real -> real, t: real) { 0.0 <= ease(t) <= 1.0 }

  predicate GentleStep(ease: real -> real, t: real, step: real) {
    step >= 0.0 ==> 0.0 <= ease(t + step) - ease(t) <= 3.0 * step
  }

  /** From rest to rest, never back, and never more than three times as fast as the clock. */
  ghost predicate Gentle(ease: real -> real) {
    && ease(0.0) == 0.0 && ease(1.0) == 1.0
    && (forall t :: InUnit(ease, t)) && (forall t, step :: GentleStep(ease, t, step))
  }

  /** A curve clamped to run from 0 to 1. */
  lemma ClampedIsGentle(curve: real -> real)
    requires Slopes(curve, 1.0) && curve(0.0) == 0.0 && curve(1.0) == 1.0
    requires forall t :: curve(t) == curve(Clamp(t))
    ensures Gentle(curve)
  {
    forall t ensures InUnit(curve, t) {
      assert 0.0 <= curve(Clamp(t)) - curve(0.0) && 0.0 <= curve(1.0) - curve(Clamp(t));
    }
    forall t, step ensures GentleStep(curve, t, step) {
      if step >= 0.0 {
        assert 0.0 <= curve(Clamp(t + step)) - curve(Clamp(t)) <= 3.0 * (Clamp(t + step) - Clamp(t));
      }
    }
  }

  lemma RiseHalves(c: real)
    ensures Rise(c / 2.0) == Rise(c) / 8.0
  {
    var h := c / 2.0;
    Grouped(h);
    Grouped(c);
    Cubes(c, h);
  }

  lemma RiseBelow(c: real)
    requires 0.0 < c < 0.5
    ensures 0.0 < Rise(c) < c
  {
    assert 0.0 < c * c < 0.25;
    Grouped(c);
    assert c * c * c == c * (c * c);
    assert 0.0 < c * (c * c) < c * 0.25;
  }

  lemma EaseRises(t: real)
    requires 0.0 <= t <= 0.5
    ensures Ease(t) == Rise(t)
  {
    if t == 0.5 {
      EaseMirrors(t);
    }
  }

  /** It is the cubic: up to the half, half the time is an eighth of the way, */
  lemma EaseIsCubic(t: real)
    requires 0.0 <= t <= 0.5
    ensures Ease(t / 2.0) == Ease(t) / 8.0
  {
    EaseRises(t);
    EaseRises(t / 2.0);
    RiseHalves(t);
  }

  /** and the second half mirrors the first. */
  lemma EaseIsMirrored(t: real)
    requires 0.0 <= t <= 0.5
    ensures Ease(1.0 - t) == 1.0 - Ease(t)
  {
    EaseRises(t);
    EaseMirrors(1.0 - t);
    assert 1.0 - (1.0 - t) == t;
  }

  /** So it starts slowly, behind the clock until half-way. */
  lemma EaseLags(t: real)
    requires 0.0 < t < 0.5
    ensures 0.0 < Ease(t) < t
  {
    EaseRises(t);
    RiseBelow(t);
  }

  lemma EaseIsGentle()
    ensures Gentle(Ease)
  {
    EaseSlopes();
    ClampedIsGentle(Ease);
  }
}
