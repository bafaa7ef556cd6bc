/** Scrolling through two shots of one document (video/compose.py).  An image is its rows. */
module ScrollStrip {
  import opened Easing
  import opened Options
  import opened Reals
  import opened Rounding
  import opened Sequences

  const SCALE := 1.12          // page pixels to a CSS pixel
  const LEAST_BAND := 40

  // ---- the strip and its frames ----

  /** One shot on top, the other written over it from row `dy` on. */
  function Strip<Row>(top: seq<Row>, under: seq<Row>, dy: nat): seq<Row>
    requires dy <= |top|
  {
    top[..dy] + under
  }

  /** How far down its strip of `d` rows a scroll is at `u`, before rounding. */
  function Way(d: real, u: real, down: bool): real { if down then d * u else d * (1.0 - u) }

  function Offset(ease: real -> real, dy: nat, down: bool, progress: real): int {
    Round(Way(dy as real, ease(progress), down))
  }

  lemma WayBounds(d: real, u: real, down: bool)
    requires 0.0 <= u <= 1.0 && 0.0 <= d
    ensures 0.0 <= Way(d, u, down) <= d
  {
    assert 0.0 <= d * u && 0.0 <= d * (1.0 - u);
  }

  lemma WayApart(d: real, u: real, v: real, w: real, down: bool)
    requires 0.0 <= d && 0.0 <= v - u <= 3.0 * w
    ensures Onward(Way(d, u, down), Way(d, v, down), down, 3.0 * (d * w))
  {
    Stretched(d, u, v, w);
  }

  lemma RoundBetween(dy: nat, x: real)
    requires 0.0 <= x <= dy as real
    ensures 0 <= Round(x) <= dy
  {
  }

  lemma OffsetBounds(ease: real -> real, dy: nat, down: bool, progress: real)
    requires Gentle(ease)
    ensures 0 <= Offset(ease, dy, down, progress) <= dy
  {
    assert InUnit(ease, progress);
    WayBounds(dy as real, ease(progress), down);
    RoundBetween(dy, Way(dy as real, ease(progress), down));
  }

  /** A scroll is, to half a row, as far on its way as the easing is; a scroll up counts from its end. */
  lemma OffsetFollows(ease: real -> real, dy: nat, down: bool, progress: real)
    ensures var way := Times(dy as real, if down then ease(progress) else 1.0 - ease(progress));
            -0.5 <= Offset(ease, dy, down, progress) as real - way <= 0.5
  {
    RoundNear(Way(dy as real, ease(progress), down));
  }

  lemma OffsetEnds(ease: real -> real, dy: nat, down: bool)
    requires Gentle(ease)
    ensures Offset(ease, dy, down, 0.0) == (if down then 0 else dy)
    ensures Offset(ease, dy, down, 1.0) == (if down then dy else 0)
  {
    assert dy as real * 0.0 == 0.0 && dy as real * 1.0 == dy as real;
    assert Round(0.0) == 0 && Round(dy as real) == dy;
  }

  predicate Onward(a: real, b: real, down: bool, most: real) {
    if down then 0.0 <= b - a <= most else 0.0 <= a - b <= most
  }

  /** A scroll only ever goes its own way, and no faster than three times its average speed, give
      or take a row. */
  lemma OffsetsInOrder(ease: real -> real, dy: nat, down: bool, t: real, step: real)
    requires Gentle(ease) && step >= 0.0
    ensures Onward(Offset(ease, dy, down, t) as real, Offset(ease, dy, down, t + step) as real, down,
                   3.0 * (dy as real * step) + 1.0)
  {
    assert GentleStep(ease, t, step);
    OffsetsApart(dy as real, ease(t), ease(t + step), step, down);
  }

  lemma OffsetsApart(d: real, u: real, v: real, w: real, down: bool)
    requires 0.0 <= d && 0.0 <= v - u <= 3.0 * w
    ensures Onward(Round(Way(d, u, down)) as real, Round(Way(d, v, down)) as real, down, 3.0 * (d * w) + 1.0)
  {
    WayApart(d, u, v, w, down);
    RoundsApart(Way(d, u, down), Way(d, v, down), down, 3.0 * (d * w));
  }

  lemma RoundsApart(x: real, y: real, down: bool, most: real)
    requires Onward(x, y, down, most)
    ensures Onward(Round(x) as real, Round(y) as real, down, most + 1.0)
  {
    if down {
      RoundInOrder(x, y);
    } else {
      RoundInOrder(y, x);
    }
    RoundNear(x);
    RoundNear(y);
  }

  lemma Stretched(d: real, u: real, v: real, w: real)
    requires d >= 0.0 && 0.0 <= v - u <= 3.0 * w
    ensures 0.0 <= d * v - d * u <= 3.0 * (d * w)
  {
    assert d * v - d * u == d * (v - u);
    assert d * (3.0 * w - (v - u)) >= 0.0;
    assert d * (3.0 * w - (v - u)) == 3.0 * (d * w) - d * (v - u);
  }

  /** The window of the strip `off` rows down. */
  function FrameAt<Row>(source: seq<Row>, dest: seq<Row>, dy: nat, down: bool, off: int): seq<Row>
    requires |source| == |dest| && dy <= |source| && 0 <= off <= dy
  {
    (if down then Strip(source, dest, dy) else Strip(dest, source, dy))[off..off + |source|]
  }

  /** The frame shown at `progress`. */
  function Frame<Row>(ease: real -> real, source: seq<Row>, dest: seq<Row>, dy: nat, down: bool, progress: real): seq<Row>
    requires Gentle(ease) && |source| == |dest| && dy <= |source|
  {
    OffsetBounds(ease, dy, down, progress);
    FrameAt(source, dest, dy, down, Offset(ease, dy, down, progress))
  }

  lemma ViewsAt<Row>(doc: seq<Row>, p: nat, h: nat, dy: nat, off: nat)
    requires off <= dy <= h && p + dy + h <= |doc|
    ensures Strip(doc[p..p + h], doc[p + dy..p + dy + h], dy)[off..off + h] == doc[p + off..p + off + h]
  {
    assert Strip(doc[p..p + h], doc[p + dy..p + dy + h], dy) == doc[p..p + dy + h];
    SliceOfSlice(doc, p, p + dy + h, off, off + h);
    assert p + (off + h) == p + off + h;
  }

  /** `source` is a view of the document and `dest` the view `dy` rows below it, or the other way up. */
  ghost predicate AreViews<Row>(source: seq<Row>, dest: seq<Row>, doc: seq<Row>, p: nat, h: nat, dy: nat, down: bool) {
    && dy <= h && p + dy + h <= |doc|
    && (if down then source else dest) == doc[p..p + h] && (if down then dest else source) == doc[p + dy..p + dy + h]
  }

  lemma FrameIs<Row>(ease: real -> real, source: seq<Row>, dest: seq<Row>, dy: nat, down: bool, progress: real, off: int)
    requires Gentle(ease) && |source| == |dest| && dy <= |source| && off == Offset(ease, dy, down, progress)
    ensures 0 <= off <= dy && Frame(ease, source, dest, dy, down, progress) == FrameAt(source, dest, dy, down, off)
  {
    OffsetBounds(ease, dy, down, progress);
  }

  lemma ViewShown<Row>(source: seq<Row>, dest: seq<Row>, doc: seq<Row>, p: nat, h: nat, dy: nat, down: bool, off: nat)
    requires AreViews(source, dest, doc, p, h, dy, down) && off <= dy
    ensures |source| == |dest| == h && FrameAt(source, dest, dy, down, off) == doc[p + off..p + off + h]
  {
    ViewsAt(doc, p, h, dy, off);
  }

  lemma FrameShown<Row>(ease: real -> real, source: seq<Row>, dest: seq<Row>, doc: seq<Row>, p: nat, h: nat, dy: nat,
                        down: bool, progress: real)
    requires Gentle(ease) && AreViews(source, dest, doc, p, h, dy, down)
    ensures |source| == |dest| == h
    ensures var off := Offset(ease, dy, down, progress);
            0 <= off <= dy && Frame(ease, source, dest, dy, down, progress) == doc[p + off..p + off + h]
  {
    var off := Offset(ease, dy, down, progress);
    FrameIs(ease, source, dest, dy, down, progress, off);
    ViewShown(source, dest, doc, p, h, dy, down, off);
  }

  ghost predicate Overlap<Row>(upper: seq<Row>, lower: seq<Row>, dy: nat)
    requires |upper| == |lower| && dy <= |upper|
  {
    upper[dy..] == lower[..|lower| - dy]
  }

  /** With any two shots, the lower one is shown as it is; the upper one is just when the rows they
      share agree.  So a scroll down ends on its destination and a scroll up starts on its source,
      whatever moved in between; the other end depends on the overlap. */
  lemma EndsExactly<Row>(ease: real -> real, source: seq<Row>, dest: seq<Row>, dy: nat)
    requires Gentle(ease) && |source| == |dest| && dy <= |source|
    ensures Frame(ease, source, dest, dy, true, 1.0) == dest
    ensures Frame(ease, source, dest, dy, true, 0.0) == source <==> Overlap(source, dest, dy)
    ensures Frame(ease, source, dest, dy, false, 0.0) == source
    ensures Frame(ease, source, dest, dy, false, 1.0) == dest <==> Overlap(dest, source, dy)
  {
    FrameEnds(ease, source, dest, dy);
    MixedIsUpper(source, dest, dy);
    MixedIsUpper(dest, source, dy);
  }

  /** The top of one view and, below it, the top of another. */
  function Mixed<Row>(upper: seq<Row>, lower: seq<Row>, dy: nat): (mixed: seq<Row>)
    requires |upper| == |lower| && dy <= |upper|
    ensures |mixed| == |upper|
  {
    upper[..dy] + lower[..|lower| - dy]
  }

  lemma MixedIsUpper<Row>(upper: seq<Row>, lower: seq<Row>, dy: nat)
    requires |upper| == |lower| && dy <= |upper|
    ensures Mixed(upper, lower, dy) == upper <==> Overlap(upper, lower, dy)
  {
    assert upper == upper[..dy] + upper[dy..];
    assert Mixed(upper, lower, dy)[dy..] == lower[..|lower| - dy];
  }

  lemma StripEnds<Row>(upper: seq<Row>, lower: seq<Row>, dy: nat)
    requires |upper| == |lower| && dy <= |upper|
    ensures Strip(upper, lower, dy)[dy..dy + |upper|] == lower
    ensures Strip(upper, lower, dy)[0..|upper|] == Mixed(upper, lower, dy)
  {
  }

  lemma FrameEnds<Row>(ease: real -> real, source: seq<Row>, dest: seq<Row>, dy: nat)
    requires Gentle(ease) && |source| == |dest| && dy <= |source|
    ensures Frame(ease, source, dest, dy, true, 1.0) == dest
    ensures Frame(ease, source, dest, dy, true, 0.0) == Mixed(source, dest, dy)
    ensures Frame(ease, source, dest, dy, false, 0.0) == source
    ensures Frame(ease, source, dest, dy, false, 1.0) == Mixed(dest, source, dy)
  {
    OffsetEnds(ease, dy, true);
    OffsetEnds(ease, dy, false);
    StripEnds(source, dest, dy);
    StripEnds(dest, source, dy);
  }

  lemma ViewsOverlap<Row>(doc: seq<Row>, p: nat, h: nat, dy: nat)
    requires dy <= h && p + dy + h <= |doc|
    ensures Overlap(doc[p..p + h], doc[p + dy..p + dy + h], dy)
  {
    SliceOfSlice(doc, p, p + h, dy, h);
    SliceOfSlice(doc, p + dy, p + dy + h, 0, h - dy);
  }

  /** Every frame of a scroll between two views of one document is a view of that document, from
      the source view to the destination view. */
  lemma FramesAreViews<Row>(ease: real -> real, source: seq<Row>, dest: seq<Row>, doc: seq<Row>, p: nat, h: nat,
                            dy: nat, down: bool, progress: real)
    requires Gentle(ease) && AreViews(source, dest, doc, p, h, dy, down)
    ensures |source| == |dest| == h
    ensures var q := p + Offset(ease, dy, down, progress);
            && p <= q <= p + dy && Frame(ease, source, dest, dy, down, progress) == doc[q..q + h]
            && Frame(ease, source, dest, dy, down, 0.0) == source && Frame(ease, source, dest, dy, down, 1.0) == dest
  {
    FrameShown(ease, source, dest, doc, p, h, dy, down, progress);
    ViewsOverlap(doc, p, h, dy);
    EndsExactly(ease, source, dest, dy);
  }

  // ---- what the compositor does ----

  function Rows(dyCss: real, scale: real): nat
    requires scale >= 0.0
  {
    RoundInOrder(0.0, Abs(dyCss) * scale);
    Round(Abs(dyCss) * scale)
  }

  /** The rows of a scroll: its pixels at the shot's scale, to half a row, whichever way it goes. */
  lemma RowsNear(dyCss: real, scale: real)
    requires scale >= 0.0
    ensures -0.5 <= Rows(dyCss, scale) as real - Times(if dyCss < 0.0 then -dyCss else dyCss, scale) <= 0.5
  {
    RoundNear(Abs(dyCss) * scale);
  }

  /** A strip stacked in place: the upper shot first, then the lower one over it. */
  method Stack<Row(0)>(upper: array<Row>, lower: array<Row>, dy: nat) returns (tall: array<Row>)
    requires upper.Length == lower.Length && dy <= upper.Length
    ensures fresh(tall) && tall[..] == Strip(upper[..], lower[..], dy)
  {
    var h := upper.Length;
    tall := new Row[h + dy];
    forall i | 0 <= i < h {
      tall[i] := upper[i];
    }
    forall i | 0 <= i < h {
      tall[dy + i] := lower[i];
    }
    assert forall i :: 0 <= i < h ==> tall[dy + i] == lower[i];
    assert tall[dy..] == lower[..];
  }

  /** `_scroll_tall`: nothing to scroll leaves the destination; shots that do not overlap give no
      strip at all. */
  method ScrollTall<Row(0)>(a: array<Row>, b: array<Row>, dyCss: real) returns (tall: array?<Row>, dy: int)
    requires a.Length == b.Length
    ensures var rows := Rows(dyCss, SCALE);
            if rows == 0 then tall == b && dy == 0
            else if rows >= a.Length then tall == null && dy == -1
            else dy == rows && tall != null && fresh(tall)
                 && tall[..] == if dyCss > 0.0 then Strip(a[..], b[..], rows) else Strip(b[..], a[..], rows)
  {
    var rows := Rows(dyCss, SCALE);
    if rows == 0 {
      return b, 0;
    }
    if rows >= a.Length {
      return null, -1;
    }
    if dyCss > 0.0 {
      tall := Stack(a, b, rows);
    } else {
      tall := Stack(b, a, rows);
    }
    dy := rows;
  }

  /** A part of a page that does not scroll. */
  datatype Rect = Rect(x: nat, y: nat, w: nat, h: nat)

  predicate Pinned(bands: seq<Rect>, x: nat, y: nat) {
    exists b :: b in bands && b.x <= x < b.x + b.w && b.y <= y < b.y + b.h
  }

  predicate Within(bands: seq<Rect>, width: nat, height: nat) {
    forall b :: b in bands ==> b.x + b.w <= width && b.y + b.h <= height
  }

  predicate IsPage<Px>(page: seq<seq<Px>>, width: nat) { forall y :: 0 <= y < |page| ==> |page[y]| == width }

  /** A row of a page with `bands` taken from another. */
  ghost predicate RowPinned<Px>(shown: seq<Px>, row: seq<Px>, from: seq<Px>, bands: seq<Rect>, y: nat) {
    && |shown| == |row| == |from|
    && forall x :: 0 <= x < |row| ==> shown[x] == if Pinned(bands, x, y) then from[x] else row[x]
  }

  ghost predicate PinnedOver<Px>(shown: seq<seq<Px>>, page: seq<seq<Px>>, source: seq<seq<Px>>, bands: seq<Rect>) {
    && |shown| == |page| == |source|
    && forall y :: 0 <= y < |page| ==> RowPinned(shown[y], page[y], source[y], bands, y)
  }

  function Patched<Px>(row: seq<Px>, from: seq<Px>, x: nat, w: nat): seq<Px>
    requires |row| == |from| && x + w <= |row|
  {
    row[..x] + from[x..x + w] + row[x + w..]
  }

  lemma PinnedMore(bands: seq<Rect>, b: Rect, x: nat, y: nat)
    ensures Pinned(bands + [b], x, y) <==> Pinned(bands, x, y) || (b.x <= x < b.x + b.w && b.y <= y < b.y + b.h)
  {
    if Pinned(bands, x, y) {
      var c :| c in bands && c.x <= x < c.x + c.w && c.y <= y < c.y + c.h;
      assert c in bands + [b];
    } else if b.x <= x < b.x + b.w && b.y <= y < b.y + b.h {
      assert b in bands + [b];
    }
  }

  lemma RowPatched<Px>(shown: seq<Px>, row: seq<Px>, from: seq<Px>, bands: seq<Rect>, b: Rect, y: nat)
    requires RowPinned(shown, row, from, bands, y) && b.x + b.w <= |row|
    ensures RowPinned(if b.y <= y < b.y + b.h then Patched(shown, from, b.x, b.w) else shown, row, from, bands + [b], y)
  {
    var after := if b.y <= y < b.y + b.h then Patched(shown, from, b.x, b.w) else shown;
    forall x | 0 <= x < |row| ensures after[x] == if Pinned(bands + [b], x, y) then from[x] else row[x] {
      PinnedMore(bands, b, x, y);
    }
  }

  /** One rectangle of `_apply_fixed`. */
  method ApplyBand<Px>(page: array<seq<Px>>, source: seq<seq<Px>>, b: Rect, ghost under: seq<seq<Px>>,
                           ghost bands: seq<Rect>, ghost width: nat)
    requires page.Length == |source| && IsPage(source, width) && Within([b], width, |source|)
    requires PinnedOver(page[..], under, source, bands)
    modifies page
    ensures PinnedOver(page[..], under, source, bands + [b])
  {
    assert b in [b];
    ghost var was := page[..];
    for k := 0 to b.h
      invariant forall y :: 0 <= y < page.Length ==>
        page[y] == if b.y <= y < b.y + k && |was[y]| == |source[y]| == width
                   then Patched(was[y], source[y], b.x, b.w) else was[y]
    {
      var y := b.y + k;
      assert RowPinned(was[y], under[y], source[y], bands, y);
      page[y] := Patched(page[y], source[y], b.x, b.w);
    }
    forall y | 0 <= y < page.Length ensures RowPinned(page[..][y], under[y], source[y], bands + [b], y) {
      assert RowPinned(was[y], under[y], source[y], bands, y);
      RowPatched(was[y], under[y], source[y], bands, b, y);
    }
  }

  /** `_apply_fixed`, in place: every rectangle shows the source, and everything else is left. */
  method ApplyFixed<Px>(page: array<seq<Px>>, source: seq<seq<Px>>, bands: seq<Rect>, ghost width: nat)
    requires page.Length == |source| && IsPage(source, width) && IsPage(page[..], width)
    requires Within(bands, width, |source|)
    modifies page
    ensures PinnedOver(page[..], old(page[..]), source, bands)
  {
    ghost var under := page[..];
    assert PinnedOver(page[..], under, source, bands[..0]) by {
      assert bands[..0] == [];
    }
    for i := 0 to |bands|
      invariant PinnedOver(page[..], under, source, bands[..i])
    {
      assert bands[i] in bands;
      assert bands[..i + 1] == bands[..i] + [bands[i]];
      ApplyBand(page, source, bands[i], under, bands[..i], width);
    }
    assert bands[..|bands|] == bands;
  }

  /** The page below what is pinned: a window of the strip, or the destination when nothing scrolls. */
  function Under<Px>(ease: real -> real, a: seq<seq<Px>>, b: seq<seq<Px>>, dyCss: real, progress: real): seq<seq<Px>>
    requires Gentle(ease) && |a| == |b| && Rows(dyCss, SCALE) <= |a|
  {
    var rows := Rows(dyCss, SCALE);
    if rows == 0 then b else Frame(ease, a, b, rows, dyCss > 0.0, progress)
  }

  lemma UnderIsPage<Px>(ease: real -> real, a: seq<seq<Px>>, b: seq<seq<Px>>, dyCss: real, progress: real, width: nat)
    requires Gentle(ease) && |a| == |b| && Rows(dyCss, SCALE) <= |a| && IsPage(a, width) && IsPage(b, width)
    ensures |Under(ease, a, b, dyCss, progress)| == |b| && IsPage(Under(ease, a, b, dyCss, progress), width)
  {
    OffsetBounds(ease, Rows(dyCss, SCALE), dyCss > 0.0, progress);
  }

  /** A copy of the window, so that pasting over it leaves the strip as it is. */
  method WindowAt<Px(0)>(ease: real -> real, a: array<seq<Px>>, b: array<seq<Px>>, dyCss: real, progress: real)
    returns (window: array?<seq<Px>>)
    requires Gentle(ease) && a.Length == b.Length
    ensures window == null <==> Rows(dyCss, SCALE) != 0 && Rows(dyCss, SCALE) >= a.Length
    ensures window != null ==> fresh(window) && window[..] == Under(ease, a[..], b[..], dyCss, progress)
  {
    var tall, dy := ScrollTall(a, b, dyCss);
    if tall == null {
      return null;
    }
    var off := Offset(ease, dy, dyCss > 0.0, progress);
    OffsetBounds(ease, dy, dyCss > 0.0, progress);
    assert dy == 0 ==> off == 0 && tall[0..a.Length] == b[..];
    window := Crop(tall, off, off + a.Length);
  }

  /** A frame of a page's scroll: a window of the strip, under the parts of the destination that do
      not scroll; `None` to dissolve instead. */
  method PageAt<Px(0)>(ease: real -> real, a: array<seq<Px>>, b: array<seq<Px>>, bands: seq<Rect>, dyCss: real,
                           progress: real, ghost width: nat)
    returns (page: Option<seq<seq<Px>>>)
    requires Gentle(ease) && a.Length == b.Length && IsPage(a[..], width) && IsPage(b[..], width)
    requires Within(bands, width, b.Length)
    ensures page.None? <==> Rows(dyCss, SCALE) != 0 && Rows(dyCss, SCALE) >= a.Length
    ensures page.Some? ==> PinnedOver(page.value, Under(ease, a[..], b[..], dyCss, progress), b[..], bands)
  {
    var window := WindowAt(ease, a, b, dyCss, progress);
    if window == null {
      return None;
    }
    UnderIsPage(ease, a[..], b[..], dyCss, progress, width);
    ApplyFixed(window, b[..], bands, width);
    page := Some(window[..]);
  }

  // ---- where a scroll with pinned parts begins and ends ----

  /** Two pages show the same where `bands` pins them, or where it does not. */
  ghost predicate AgreeWhere<Px>(p: seq<seq<Px>>, q: seq<seq<Px>>, bands: seq<Rect>, pinned: bool, width: nat)
    requires |p| == |q| && IsPage(p, width) && IsPage(q, width)
  {
    forall y, x :: 0 <= y < |p| && 0 <= x < width && Pinned(bands, x, y) == pinned ==> p[y][x] == q[y][x]
  }

  /** What the two shots share is the same, but for what is pinned over it. */
  ghost predicate OverlapUnpinned<Px>(upper: seq<seq<Px>>, lower: seq<seq<Px>>, dy: nat, bands: seq<Rect>, width: nat)
    requires |upper| == |lower| && IsPage(upper, width) && IsPage(lower, width)
  {
    forall y, x :: dy <= y < |upper| && 0 <= x < width && !Pinned(bands, x, y) ==> upper[y][x] == lower[y - dy][x]
  }

  lemma RowEquals<Px>(shown: seq<Px>, row: seq<Px>, from: seq<Px>, want: seq<Px>, bands: seq<Rect>, y: nat)
    requires RowPinned(shown, row, from, bands, y) && |want| == |row|
    ensures shown == want <==>
            forall x :: 0 <= x < |row| ==> (if Pinned(bands, x, y) then from[x] else row[x]) == want[x]
  {
    if forall x :: 0 <= x < |row| ==> (if Pinned(bands, x, y) then from[x] else row[x]) == want[x] {
      assert forall x :: 0 <= x < |row| ==> shown[x] == want[x];
    }
  }

  lemma PinnedEquals<Px>(shown: seq<seq<Px>>, page: seq<seq<Px>>, from: seq<seq<Px>>, want: seq<seq<Px>>,
                         bands: seq<Rect>, width: nat)
    requires PinnedOver(shown, page, from, bands) && |want| == |page|
    requires IsPage(page, width) && IsPage(from, width) && IsPage(want, width)
    ensures shown == want <==> AgreeWhere(from, want, bands, true, width) && AgreeWhere(page, want, bands, false, width)
  {
    forall y | 0 <= y < |page|
      ensures shown[y] == want[y] <==>
              forall x :: 0 <= x < width ==> (if Pinned(bands, x, y) then from[y][x] else page[y][x]) == want[y][x]
    {
      RowEquals(shown[y], page[y], from[y], want[y], bands, y);
    }
    if AgreeWhere(from, want, bands, true, width) && AgreeWhere(page, want, bands, false, width) {
      assert forall y :: 0 <= y < |page| ==> shown[y] == want[y];
    }
  }

  lemma MixedAgrees<Px>(upper: seq<seq<Px>>, lower: seq<seq<Px>>, dy: nat, bands: seq<Rect>, width: nat)
    requires |upper| == |lower| && dy <= |upper| && IsPage(upper, width) && IsPage(lower, width)
    ensures IsPage(Mixed(upper, lower, dy), width)
    ensures AgreeWhere(Mixed(upper, lower, dy), upper, bands, false, width)
            <==> OverlapUnpinned(upper, lower, dy, bands, width)
  {
    var mixed := Mixed(upper, lower, dy);
    assert forall y :: dy <= y < |upper| ==> mixed[y] == lower[y - dy];
  }

  /** Where a scroll with pinned parts begins and ends, whatever the shots: down always ends on its
      destination, and up ends there just when the overlap agrees outside what is pinned; a beginning
      also needs the source to look like the destination where it is pinned. */
  lemma PinnedEnds<Px>(ease: real -> real, source: seq<seq<Px>>, dest: seq<seq<Px>>, dy: nat, bands: seq<Rect>,
                       shown: seq<seq<Px>>, width: nat)
    requires Gentle(ease) && |source| == |dest| && dy <= |source| && IsPage(source, width) && IsPage(dest, width)
    ensures PinnedOver(shown, Frame(ease, source, dest, dy, true, 1.0), dest, bands) ==> shown == dest
    ensures PinnedOver(shown, Frame(ease, source, dest, dy, false, 1.0), dest, bands) ==>
              (shown == dest <==> OverlapUnpinned(dest, source, dy, bands, width))
    ensures PinnedOver(shown, Frame(ease, source, dest, dy, true, 0.0), dest, bands) ==>
              (shown == source <==>
               AgreeWhere(dest, source, bands, true, width) && OverlapUnpinned(source, dest, dy, bands, width))
    ensures PinnedOver(shown, Frame(ease, source, dest, dy, false, 0.0), dest, bands) ==>
              (shown == source <==> AgreeWhere(dest, source, bands, true, width))
  {
    FrameEnds(ease, source, dest, dy);
    MixedAgrees(source, dest, dy, bands, width);
    MixedAgrees(dest, source, dy, bands, width);
    if PinnedOver(shown, dest, dest, bands) {
      PinnedEquals(shown, dest, dest, dest, bands, width);
    }
    if PinnedOver(shown, Mixed(dest, source, dy), dest, bands) {
      PinnedEquals(shown, Mixed(dest, source, dy), dest, dest, bands, width);
    }
    if PinnedOver(shown, Mixed(source, dest, dy), dest, bands) {
      PinnedEquals(shown, Mixed(source, dest, dy), dest, source, bands, width);
    }
    if PinnedOver(shown, source, dest, bands) {
      PinnedEquals(shown, source, dest, source, bands, width);
    }
  }

  /** `_scroll_band`, given the scroller's measured rows and the rows found alike: always inside
      the screen, and never too thin to move. */
  function Band(measured: Option<(int, int)>, sh: nat, alike: (int, int)): (band: (int, int))
    requires 0 <= alike.0 <= sh && 0 <= alike.1 <= sh
    ensures 0 <= band.0 <= band.1 <= sh && (band.1 - band.0 >= LEAST_BAND || band == (0, sh))
    ensures measured.Some? && 0 <= measured.value.0 && measured.value.0 + LEAST_BAND <= measured.value.1 <= sh ==>
              band == measured.value
    ensures measured.None? && alike.1 - alike.0 >= LEAST_BAND ==> band == alike
  {
    var m := if measured.Some? then (Fit(0, sh, measured.value.0), measured.value.1) else (0, 0);
    var y1 := Fit(m.0, sh, m.1);
    if y1 - m.0 >= LEAST_BAND then (m.0, y1)
    else if alike.1 - alike.0 < LEAST_BAND then (0, sh) else alike
  }

  function Fit(lo: int, hi: int, y: int): (r: int)
    requires lo <= hi
    ensures lo <= r <= hi
  {
    var low := if y < hi then y else hi;
    if low > lo then low else lo
  }

  // ---- a phone's screen ----

  /** One value of a pixel, `m` of the way from what stands still to what moves. */
  function Blend(still: int, moving: int, m: real): int {
    (still as real + Times((moving - still) as real, m) + 0.5).Floor
  }

  /** The mask shows one or the other at its ends, and nothing outside the two between. */
  lemma BlendBetween(still: int, moving: int, m: real)
    requires 0.0 <= m <= 1.0
    ensures m == 0.0 ==> Blend(still, moving, m) == still
    ensures m == 1.0 ==> Blend(still, moving, m) == moving
    ensures if still <= moving then still <= Blend(still, moving, m) <= moving
            else moving <= Blend(still, moving, m) <= still
    ensures -0.5 <= Blend(still, moving, m) as real - (still as real + Times((moving - still) as real, m)) <= 0.5
  {
    var d := (moving - still) as real;
    TimesBetween(d, m);
    assert (still as real + 0.5).Floor == still && (moving as real + 0.5).Floor == moving;
  }

  lemma TimesLaws(d: real, m: real)
    ensures 0.0 <= d && 0.0 <= m ==> 0.0 <= Times(d, m)
    ensures Times(d, 1.0 - m) == d - Times(d, m) && Times(-d, m) == -Times(d, m)
    ensures Times(d, 0.0) == 0.0 && Times(d, 1.0) == d
  {
  }

  lemma TimesBetween(d: real, m: real)
    requires 0.0 <= m <= 1.0
    ensures m == 0.0 ==> Times(d, m) == 0.0
    ensures m == 1.0 ==> Times(d, m) == d
    ensures if d >= 0.0 then 0.0 <= Times(d, m) <= d else d <= Times(d, m) <= 0.0
  {
    TimesLaws(d, m);
    TimesLaws(d, 1.0 - m);
    TimesLaws(-d, m);
    TimesLaws(-d, 1.0 - m);
  }

  function BlendRow(still: seq<int>, moving: seq<int>, mask: seq<real>): (row: seq<int>)
    requires |still| == |moving| == |mask|
    ensures |row| == |still| && forall x :: 0 <= x < |row| ==> row[x] == Blend(still[x], moving[x], mask[x])
  {
    seq(|still|, x requires 0 <= x < |still| => Blend(still[x], moving[x], mask[x]))
  }

  /** A phone screen mid-scroll: only the band moves, through the mask. */
  ghost predicate BandMoved(screen: seq<seq<int>>, a: seq<seq<int>>, view: seq<seq<int>>, mask: seq<seq<real>>, y0: nat,
                            width: nat)
    requires y0 + |view| <= |a| == |mask| && IsPage(a, width) && IsPage(view, width) && IsPage(mask, width)
  {
    && |screen| == |a|
    && forall y :: 0 <= y < |a| ==>
      screen[y] == if y0 <= y < y0 + |view| then BlendRow(a[y], view[y - y0], mask[y]) else a[y]
  }

  method Crop<Row(0)>(a: array<Row>, y0: nat, y1: nat) returns (crop: array<Row>)
    requires y0 <= y1 <= a.Length
    ensures fresh(crop) && crop[..] == a[..][y0..y1]
  {
    crop := new Row[y1 - y0];
    forall i | 0 <= i < y1 - y0 { crop[i] := a[y0 + i]; }
  }

  method Paste(a: array<seq<int>>, y0: nat, band: array<seq<int>>, off: nat, h: nat, mask: seq<seq<real>>,
               ghost width: nat)
    returns (canvas: array<seq<int>>)
    requires y0 + h <= a.Length == |mask| && off + h <= band.Length
    requires IsPage(a[..], width) && IsPage(band[..], width) && IsPage(mask, width)
    ensures fresh(canvas) && BandMoved(canvas[..], a[..], band[..][off..off + h], mask, y0, width)
  {
    canvas := new seq<int>[a.Length];
    forall i | 0 <= i < a.Length { canvas[i] := a[i]; }
    assert forall i :: 0 <= i < a.Length ==> |a[i]| == width by {
      assert forall i :: 0 <= i < a.Length ==> a[i] == a[..][i];
    }
    assert forall i :: 0 <= i < band.Length ==> |band[i]| == width by {
      assert forall i :: 0 <= i < band.Length ==> band[i] == band[..][i];
    }
    forall i | 0 <= i < h { canvas[y0 + i] := BlendRow(a[y0 + i], band[off + i], mask[y0 + i]); }
    forall y | 0 <= y < a.Length
      ensures canvas[..][y] == if y0 <= y < y0 + h then BlendRow(a[y], band[..][off..off + h][y - y0], mask[y]) else a[y]
    {
      if y0 <= y < y0 + h {
        var i := y - y0;
        assert canvas[y0 + i] == BlendRow(a[y0 + i], band[off + i], mask[y0 + i]);
      }
    }
  }

  lemma StripIsPage<Px>(top: seq<seq<Px>>, under: seq<seq<Px>>, dy: nat, width: nat)
    requires dy <= |top| && IsPage(top, width) && IsPage(under, width)
    ensures IsPage(Strip(top, under, dy), width)
  {
  }

  /** What a phone's band shows. */
  function BandView(ease: real -> real, a: seq<seq<int>>, b: seq<seq<int>>, y0: nat, y1: nat, dy: nat, down: bool,
                    progress: real, ghost width: nat): (view: seq<seq<int>>)
    requires Gentle(ease) && |a| == |b| && y0 <= y1 <= |a| && dy <= y1 - y0 && IsPage(a, width) && IsPage(b, width)
    ensures |view| == y1 - y0 && IsPage(view, width)
  {
    OffsetBounds(ease, dy, down, progress);
    StripIsPage(a[y0..y1], b[y0..y1], dy, width);
    StripIsPage(b[y0..y1], a[y0..y1], dy, width);
    Frame(ease, a[y0..y1], b[y0..y1], dy, down, progress)
  }

  method StackBand(a: array<seq<int>>, b: array<seq<int>>, y0: nat, y1: nat, dy: nat, down: bool, ghost width: nat)
    returns (strip: array<seq<int>>)
    requires a.Length == b.Length && y0 <= y1 <= a.Length && dy <= y1 - y0
    requires IsPage(a[..], width) && IsPage(b[..], width)
    ensures fresh(strip) && IsPage(strip[..], width)
    ensures strip[..] == if down then Strip(a[..][y0..y1], b[..][y0..y1], dy) else Strip(b[..][y0..y1], a[..][y0..y1], dy)
  {
    var cropA := Crop(a, y0, y1);
    var cropB := Crop(b, y0, y1);
    StripIsPage(a[..][y0..y1], b[..][y0..y1], dy, width);
    StripIsPage(b[..][y0..y1], a[..][y0..y1], dy, width);
    if down {
      strip := Stack(cropA, cropB, dy);
    } else {
      strip := Stack(cropB, cropA, dy);
    }
  }

  lemma BandShown(ease: real -> real, a: seq<seq<int>>, b: seq<seq<int>>, y0: nat, y1: nat, dy: nat, down: bool,
                  progress: real, width: nat, strip: seq<seq<int>>)
    requires Gentle(ease) && |a| == |b| && y0 <= y1 <= |a| && dy <= y1 - y0 && IsPage(a, width) && IsPage(b, width)
    requires strip == if down then Strip(a[y0..y1], b[y0..y1], dy) else Strip(b[y0..y1], a[y0..y1], dy)
    ensures var off := Offset(ease, dy, down, progress);
            && 0 <= off && off + (y1 - y0) <= |strip|
            && strip[off..off + (y1 - y0)] == BandView(ease, a, b, y0, y1, dy, down, progress, width)
  {
    OffsetBounds(ease, dy, down, progress);
  }

  /** A frame of a phone's scroll; `None` to cut instead. */
  method ScreenAt(ease: real -> real, a: array<seq<int>>, b: array<seq<int>>, y0: nat, y1: nat, mask: seq<seq<real>>,
                  dyCss: real, scale: real, progress: real, ghost width: nat)
    returns (screen: Option<array<seq<int>>>)
    requires Gentle(ease) && scale >= 0.0 && a.Length == b.Length == |mask| && y0 <= y1 <= a.Length
    requires IsPage(a[..], width) && IsPage(b[..], width) && IsPage(mask, width)
    ensures screen.None? <==> Rows(dyCss, scale) == 0 || Rows(dyCss, scale) >= y1 - y0
    ensures screen.Some? ==> fresh(screen.value)
    ensures screen.Some? ==>
              BandMoved(screen.value[..], a[..],
                        BandView(ease, a[..], b[..], y0, y1, Rows(dyCss, scale), dyCss > 0.0, progress, width),
                        mask, y0, width)
  {
    var dy, down := Rows(dyCss, scale), dyCss > 0.0;
    if dy == 0 || dy >= y1 - y0 {
      return None;
    }
    var strip := StackBand(a, b, y0, y1, dy, down, width);
    var off := Offset(ease, dy, down, progress);
    BandShown(ease, a[..], b[..], y0, y1, dy, down, progress, width, strip[..]);
    var canvas := Paste(a, y0, strip, off, y1 - y0, mask, width);
    screen := Some(canvas);
  }
}
