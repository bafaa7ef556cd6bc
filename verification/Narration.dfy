/** Joining spoken segments with exact beats (video/narrate.py).  Places are samples at 24 kHz, gaps
    are seconds. */
module Narration {
  import opened Beats
  import opened Options
  import opened Rounding
  import opened Sequences

  const WINDOW := 240             // 10 ms
  const HEAD_KEEP := 720          // 0.03 s
  const TAIL_KEEP := 1_440        // 0.06 s
  const BEAT_TOLERANCE := 1_200   // 0.05 s
  const SCENE_HEAD := 0.1
  const SCENE_TAIL := 0.3

  function Samples(seconds: real): real { 24_000.0 * seconds }

  // ---- where the speech is ----

  /** The squares of the samples added up: the level of a window, before roots and logarithms. */
  function Energy(pcm: seq<int>): int {
    if pcm == [] then 0 else Energy(pcm[..|pcm| - 1]) + pcm[|pcm| - 1] * pcm[|pcm| - 1]
  }

  /** Every sample counts once, wherever it stands, with its square. */
  lemma {:induction false} EnergyAdds(a: seq<int>, x: int, b: seq<int>)
    ensures Energy(a + [x] + b) == Energy(a) + x * x + Energy(b)
  {
    if b == [] {
      assert a + [x] + b == a + [x] && (a + [x])[..|a|] == a;
    } else {
      var n := |b| - 1;
      EnergyAdds(a, x, b[..n]);
      assert (a + [x] + b)[..|a| + 1 + n] == a + [x] + b[..n];
    }
  }

  /** Over -50 dB of full scale: the mean square of the window is more than a hundred-thousandth of
      32768 squared. */
  predicate Speaks(energy: int) { energy * 100_000 > WINDOW * 32_768 * 32_768 }

  /** Window `k` is loud. */
  predicate Loud(pcm: seq<int>, k: nat)
    requires (k + 1) * WINDOW <= |pcm|
  {
    Speaks(Energy(pcm[k * WINDOW..(k + 1) * WINDOW]))
  }

  method EnergyOf(pcm: seq<int>) returns (energy: int)
    ensures energy == Energy(pcm)
  {
    energy := 0;
    for i := 0 to |pcm|
      invariant energy == Energy(pcm[..i])
    {
      assert pcm[..i + 1][..i] == pcm[..i];
      energy := energy + pcm[i] * pcm[i];
    }
    assert pcm[..|pcm|] == pcm;
  }

  /** `_levels_db` and the test on it: a last window cut short is not looked at. */
  method LoudWindows(pcm: seq<int>) returns (loud: seq<bool>)
    ensures |loud| == |pcm| / WINDOW
    ensures forall k :: 0 <= k < |loud| ==> loud[k] == Loud(pcm, k)
  {
    loud := [];
    for k := 0 to |pcm| / WINDOW
      invariant |loud| == k
      invariant forall j :: 0 <= j < k ==> loud[j] == Loud(pcm, j)
    {
      var energy := EnergyOf(pcm[k * WINDOW..(k + 1) * WINDOW]);
      loud := loud + [Speaks(energy)];
    }
  }

  ghost predicate Quiet(pcm: seq<int>) { forall k :: 0 <= k < |pcm| / WINDOW ==> !Loud(pcm, k) }

  /** The first loud window and the last. */
  ghost predicate SpeechFrom(pcm: seq<int>, a: int, b: int) {
    && 0 <= a <= b < |pcm| / WINDOW && Loud(pcm, a) && Loud(pcm, b)
    && forall k :: 0 <= k < a || b < k < |pcm| / WINDOW ==> !Loud(pcm, k)
  }

  /** `speech_bounds`: from the first loud window to the end of the last, or everything when none
      is loud.  So what it leaves outside is quiet, and the bounds are always inside. */
  method SpeechBounds(pcm: seq<int>) returns (onset: nat, offset: nat)
    ensures TakeOk(Take(pcm, onset, offset))
    ensures Quiet(pcm) ==> onset == 0 && offset == |pcm|
    ensures !Quiet(pcm) ==>
              exists a, b :: SpeechFrom(pcm, a, b) && onset == a * WINDOW && offset == (b + 1) * WINDOW
  {
    var loud := LoudWindows(pcm);
    var first: Option<nat>, last: Option<nat> := None, None;
    for k := 0 to |loud|
      invariant first.None? <==> last.None?
      invariant first.None? ==> forall j :: 0 <= j < k ==> !loud[j]
      invariant first.Some? ==>
        && first.value <= last.value < k && loud[first.value] && loud[last.value]
        && forall j :: 0 <= j < first.value || last.value < j < k ==> !loud[j]
    {
      if loud[k] {
        if first.None? {
          first := Some(k);
        }
        last := Some(k);
      }
    }
    if first.None? {
      return 0, |pcm|;
    }
    assert SpeechFrom(pcm, first.value, last.value);
    var end := (last.value + 1) * WINDOW;
    onset, offset := first.value * WINDOW, if end < |pcm| then end else |pcm|;
  }

  // ---- joining ----

  /** A decoded segment and where its speech begins and ends. */
  datatype Take = Take(pcm: seq<int>, onset: nat, offset: nat)

  predicate TakeOk(t: Take) { t.onset <= t.offset <= |t.pcm| }

  function Head(t: Take): nat { if t.onset < HEAD_KEEP then t.onset else HEAD_KEEP }

  function Tail(t: Take): nat
    requires TakeOk(t)
  {
    if |t.pcm| - t.offset < TAIL_KEEP then |t.pcm| - t.offset else TAIL_KEEP
  }

  function Speech(t: Take): seq<int>
    requires TakeOk(t)
  {
    t.pcm[t.onset..t.offset]
  }

  function Zeros(n: int): (z: seq<int>)
    ensures |z| == (if n > 0 then n else 0) && forall k :: 0 <= k < |z| ==> z[k] == 0
  {
    seq(if n > 0 then n else 0, _ => 0)
  }

  /** A designed pause, in milliseconds, and where it landed. */
  datatype Pause = Pause(designed: int, start: nat, end: nat)

  function Paused(gap: real, start: nat, end: nat): Pause { Pause(Round(1000.0 * gap), start, end) }

  /** The silence that makes a gap of the edges kept around it, and what gap that comes to. */
  function Silence(gap: real, kept: nat): seq<int> { Zeros(Round(Samples(gap) - kept as real)) }

  function Lasting(gap: real, kept: nat): nat { kept + |Silence(gap, kept)| }

  /** A gap lasts what it was designed to, to half a sample, unless what is kept is longer. */
  lemma LastingNear(gap: real, kept: nat)
    ensures var lasts := Lasting(gap, kept) as real;
            && lasts >= kept as real && lasts >= Samples(gap) - 0.5
            && lasts <= (if Samples(gap) >= kept as real then Samples(gap) + 0.5 else kept as real)
  {
    var left := Samples(gap) - kept as real;
    RoundNear(left);
    if left < 0.0 {
      RoundInOrder(left, 0.0);
    }
  }

  /** Where a segment's speech was put. */
  datatype Placed = Placed(start: nat, end: nat)

  predicate SaysAt(buffer: seq<int>, p: Placed, t: Take)
    requires TakeOk(t)
  {
    p.start <= p.end <= |buffer| && buffer[p.start..p.end] == Speech(t)
  }

  /** Between two placed segments there is what was kept of the edges and digital silence, as much
      as the beat asks for and never less than what was kept. */
  predicate GapOk(buffer: seq<int>, a: Placed, t: Take, b: Placed, u: Take, designed: real)
    requires TakeOk(t) && TakeOk(u)
  {
    && a.end + Tail(t) + Head(u) <= b.start <= |buffer|
    && b.start - a.end == Lasting(designed, Tail(t) + Head(u))
    && buffer[a.end..a.end + Tail(t)] == t.pcm[t.offset..t.offset + Tail(t)]
    && buffer[b.start - Head(u)..b.start] == u.pcm[u.onset - Head(u)..u.onset]
    && forall k :: a.end + Tail(t) <= k < b.start - Head(u) ==> buffer[k] == 0
  }

  ghost predicate SegmentAt(buffer: seq<int>, takes: seq<Take>, placed: seq<Placed>, k: nat) {
    k < |takes| && k < |placed| && TakeOk(takes[k]) && SaysAt(buffer, placed[k], takes[k])
  }

  ghost predicate GapAt(buffer: seq<int>, takes: seq<Take>, gaps: seq<real>, placed: seq<Placed>, k: nat) {
    && 0 < k < |takes| && k < |placed| && k < |gaps| && TakeOk(takes[k - 1]) && TakeOk(takes[k])
    && GapOk(buffer, placed[k - 1], takes[k - 1], placed[k], takes[k], gaps[k])
  }

  /** The first `i` segments are in the buffer, and so are the gaps between them. */
  ghost predicate Laid(buffer: seq<int>, takes: seq<Take>, gaps: seq<real>, placed: seq<Placed>, i: nat) {
    && (forall k :: 0 <= k < i ==> SegmentAt(buffer, takes, placed, k))
    && (forall k :: 0 < k < i ==> GapAt(buffer, takes, gaps, placed, k))
  }

  /** Appending to the buffer, and to the list of placed segments, moves nothing. */
  lemma LaidLater(buffer: seq<int>, more: seq<int>, takes: seq<Take>, gaps: seq<real>,
                  placed: seq<Placed>, p: seq<Placed>, i: nat)
    requires Laid(buffer, takes, gaps, placed, i) && i <= |placed|
    ensures Laid(buffer + more, takes, gaps, placed + p, i)
  {
    var after := buffer + more;
    forall k | 0 <= k < i ensures SegmentAt(after, takes, placed + p, k) {
      assert SegmentAt(buffer, takes, placed, k);
      var at := placed[k];
      assert after[at.start..at.end] == buffer[at.start..at.end];
    }
    forall k | 0 < k < i ensures GapAt(after, takes, gaps, placed + p, k) {
      assert GapAt(buffer, takes, gaps, placed, k);
      var a, b := placed[k - 1].end, placed[k].start;
      var t, u := Tail(takes[k - 1]), Head(takes[k]);
      assert after[a..a + t] == buffer[a..a + t] && after[b - u..b] == buffer[b - u..b];
    }
  }

  function Body(t: Take): seq<int>
    requires TakeOk(t)
  {
    t.pcm[t.onset - Head(t)..t.offset + Tail(t)]
  }

  lemma BodyParts(t: Take)
    requires TakeOk(t)
    ensures var h, n := Head(t), t.offset - t.onset;
            && |Body(t)| == h + n + Tail(t) && Body(t)[0..h] == t.pcm[t.onset - h..t.onset]
            && Body(t)[h..h + n] == Speech(t) && Body(t)[h + n..h + n + Tail(t)] == t.pcm[t.offset..t.offset + Tail(t)]
  {
    var h, e := Head(t), Tail(t);
    ThreeParts(t.pcm, t.onset - h, t.onset, t.offset, t.offset + e, h, t.offset - t.onset, e);
  }

  /** The kept part of a segment put at the end of the buffer: its edges and its speech. */
  lemma BodyPlaced(buffer: seq<int>, t: Take)
    requires TakeOk(t)
    ensures var start := |buffer| + Head(t);
            var p, after := Placed(start, start + t.offset - t.onset), buffer + Body(t);
            && SaysAt(after, p, t) && |after| == p.end + Tail(t)
            && after[p.end..] == t.pcm[t.offset..t.offset + Tail(t)]
            && after[|buffer|..start] == t.pcm[t.onset - Head(t)..t.onset]
  {
    var h, n := Head(t), t.offset - t.onset;
    BodyParts(t);
    ThreeAppended(buffer, Body(t), h, h + n);
    assert |buffer| + (h + n) == |buffer| + h + t.offset - t.onset;
  }

  function Landing(length: nat, silence: nat, t: Take): Placed
    requires TakeOk(t)
  {
    Placed(length + silence + Head(t), length + silence + Head(t) + t.offset - t.onset)
  }

  /** A segment put down after silence, its gap to the one before. */
  lemma GapMade(was: seq<int>, silence: seq<int>, a: Placed, t: Take, u: Take, designed: real)
    requires TakeOk(t) && TakeOk(u) && |was| == a.end + Tail(t)
    requires was[a.end..] == t.pcm[t.offset..t.offset + Tail(t)]
    requires silence == Silence(designed, Tail(t) + Head(u))
    ensures GapOk(was + silence + Body(u), a, t, Landing(|was|, |silence|, u), u, designed)
  {
    Followed(was, silence, Body(u), a.end);
    BodyPlaced(was + silence, u);
  }

  /** The buffer ends with what is kept after the last segment placed. */
  predicate EndsAfter(buffer: seq<int>, p: Placed, t: Take)
    requires TakeOk(t)
  {
    |buffer| == p.end + Tail(t) && buffer[p.end..] == t.pcm[t.offset..t.offset + Tail(t)]
  }

  /** Before the first segment's kept head there is only digital silence. */
  predicate Opens(buffer: seq<int>, p: Placed, t: Take) {
    match p
    case Placed(start, _) =>
      && TakeOk(t) && Head(t) <= start <= |buffer| && buffer[start - Head(t)..start] == t.pcm[t.onset - Head(t)..t.onset]
      && forall k :: 0 <= k < start - Head(t) ==> buffer[k] == 0
  }

  /** And after the last segment's kept tail. */
  predicate Closes(buffer: seq<int>, p: Placed, t: Take) {
    match p
    case Placed(_, end) =>
      && TakeOk(t) && end + Tail(t) <= |buffer| && buffer[end..end + Tail(t)] == t.pcm[t.offset..t.offset + Tail(t)]
      && forall k :: end + Tail(t) <= k < |buffer| ==> buffer[k] == 0
  }

  lemma OpensLater(buffer: seq<int>, more: seq<int>, p: Placed, t: Take)
    requires Opens(buffer, p, t)
    ensures Opens(buffer + more, p, t)
  {
    var after, from := buffer + more, p.start - Head(t);
    assert after[from..p.start] == buffer[from..p.start];
  }

  lemma OpensFirst(silence: seq<int>, t: Take)
    requires TakeOk(t) && forall k :: 0 <= k < |silence| ==> silence[k] == 0
    ensures Opens([] + silence + Body(t), Landing(0, |silence|, t), t)
  {
    assert [] + silence == silence;
    BodyPlaced(silence, t);
  }

  lemma OpensOn(buffer: seq<int>, silence: seq<int>, body: seq<int>, p: Placed, t: Take)
    requires Opens(buffer, p, t)
    ensures Opens(buffer + silence + body, p, t)
  {
    OpensLater(buffer, silence, p, t);
    OpensLater(buffer + silence, body, p, t);
  }

  lemma ClosesWith(buffer: seq<int>, silence: seq<int>, p: Placed, t: Take)
    requires TakeOk(t) && EndsAfter(buffer, p, t) && forall k :: 0 <= k < |silence| ==> silence[k] == 0
    ensures Closes(buffer + silence, p, t)
  {
    var after := buffer + silence;
    assert after[p.end..|buffer|] == buffer[p.end..];
  }

  ghost predicate AllOk(takes: seq<Take>) { forall k :: 0 <= k < |takes| ==> TakeOk(takes[k]) }

  /** How long a scene waits before its first word, and after its last. */
  function Opening(gap: real): real { if gap > 0.0 then gap else SCENE_HEAD }

  function Closing(gap: real): real { if gap > 0.0 then gap else SCENE_TAIL }

  function SilenceBefore(takes: seq<Take>, gaps: seq<real>, i: nat): seq<int>
    requires i < |takes| && i < |gaps| && (i > 0 ==> TakeOk(takes[i - 1]))
  {
    if i > 0 then Silence(gaps[i], Tail(takes[i - 1]) + Head(takes[i]))
    else Silence(Opening(gaps[0]), Head(takes[0]))
  }

  /** The state of the loop before segment `i`. */
  ghost predicate Assembled(buffer: seq<int>, takes: seq<Take>, gaps: seq<real>, placed: seq<Placed>, i: nat)
    requires gaps != []
  {
    && |placed| == i <= |takes| && Laid(buffer, takes, gaps, placed, i)
    && (i == 0 ==> buffer == [])
    && (i > 0 ==> TakeOk(takes[i - 1]) && EndsAfter(buffer, placed[i - 1], takes[i - 1]))
    && (i > 0 ==> placed[0].start == Lasting(Opening(gaps[0]), Head(takes[0])))
  }

  lemma GapNext(buffer: seq<int>, takes: seq<Take>, gaps: seq<real>, placed: seq<Placed>, silence: seq<int>, i: nat)
    requires 0 < i < |takes| && |gaps| > i && AllOk(takes) && Assembled(buffer, takes, gaps, placed, i)
    requires TakeOk(takes[i - 1]) && silence == SilenceBefore(takes, gaps, i) && TakeOk(takes[i])
    ensures GapAt(buffer + silence + Body(takes[i]), takes, gaps,
                  placed + [Landing(|buffer|, |silence|, takes[i])], i)
  {
    GapMade(buffer, silence, placed[i - 1], takes[i - 1], takes[i], gaps[i]);
  }

  lemma SegmentPlaced(buffer: seq<int>, takes: seq<Take>, placed: seq<Placed>, silence: seq<int>, i: nat)
    requires i == |placed| < |takes| && TakeOk(takes[i])
    ensures var p, after := Landing(|buffer|, |silence|, takes[i]), buffer + silence + Body(takes[i]);
            SegmentAt(after, takes, placed + [p], i) && EndsAfter(after, p, takes[i])
  {
    BodyPlaced(buffer + silence, takes[i]);
  }

  lemma LaidBefore(buffer: seq<int>, silence: seq<int>, body: seq<int>, takes: seq<Take>, gaps: seq<real>,
                   placed: seq<Placed>, p: Placed, i: nat)
    requires Laid(buffer, takes, gaps, placed, i) && i <= |placed|
    ensures Laid(buffer + silence + body, takes, gaps, placed + [p], i)
  {
    assert buffer + (silence + body) == buffer + silence + body;
    LaidLater(buffer, silence + body, takes, gaps, placed, [p], i);
  }

  lemma LaidOn(buffer: seq<int>, takes: seq<Take>, gaps: seq<real>, placed: seq<Placed>, i: nat)
    requires Laid(buffer, takes, gaps, placed, i) && SegmentAt(buffer, takes, placed, i)
    requires i > 0 ==> GapAt(buffer, takes, gaps, placed, i)
    ensures Laid(buffer, takes, gaps, placed, i + 1)
  {
  }

  lemma PlaceNext(buffer: seq<int>, takes: seq<Take>, gaps: seq<real>, placed: seq<Placed>, silence: seq<int>, i: nat)
    requires i < |takes| && |gaps| > i && AllOk(takes) && Assembled(buffer, takes, gaps, placed, i)
    requires i > 0 ==> TakeOk(takes[i - 1])
    requires silence == SilenceBefore(takes, gaps, i) && TakeOk(takes[i])
    ensures Assembled(buffer + silence + Body(takes[i]), takes, gaps,
                      placed + [Landing(|buffer|, |silence|, takes[i])], i + 1)
  {
    var t := takes[i];
    var p, after := Landing(|buffer|, |silence|, t), buffer + silence + Body(t);
    LaidBefore(buffer, silence, Body(t), takes, gaps, placed, p, i);
    SegmentPlaced(buffer, takes, placed, silence, i);
    if i > 0 {
      GapNext(buffer, takes, gaps, placed, silence, i);
    }
    LaidOn(after, takes, gaps, placed + [p], i);
  }

  /** The pauses a scene records: one for each designed beat, from sound to sound. */
  function PausesTo(gaps: seq<real>, placed: seq<Placed>, i: nat): seq<Pause>
    requires i <= |placed| && |gaps| >= i
  {
    if i == 0 then []
    else PausesTo(gaps, placed, i - 1)
         + Noted(i == 1, gaps[i - 1], if i == 1 then 0 else placed[i - 2].end, placed[i - 1].start)
  }

  /** Before the first word only a beat makes a pause. */
  function Noted(first: bool, gap: real, from: nat, start: nat): seq<Pause> {
    if !first || gap > 0.0 then [Paused(gap, from, start)] else []
  }

  function Pauses(gaps: seq<real>, placed: seq<Placed>, length: nat): seq<Pause>
    requires placed != [] && |gaps| == |placed| + 1
  {
    var n := |placed|;
    PausesTo(gaps, placed, n) + (if gaps[n] > 0.0 then [Paused(gaps[n], placed[n - 1].end, length)] else [])
  }

  /** One pause for each beat: the opening one, from the start, if there is one; then each inner gap's, from
      where the speech before it ends to where the next begins. */
  lemma {:induction false} PausesAre(gaps: seq<real>, placed: seq<Placed>, i: nat, k: nat)
    requires k < i <= |placed| && |gaps| >= i
    ensures var pauses, opening := PausesTo(gaps, placed, i), if gaps[0] > 0.0 then 1 else 0;
            && |pauses| == opening + i - 1
            && (opening == 1 ==> pauses[0] == Pause(Round(1000.0 * gaps[0]), 0, placed[0].start))
            && (k > 0 ==> pauses[opening + k - 1] == Pause(Round(1000.0 * gaps[k]), placed[k - 1].end, placed[k].start))
  {
    if i > 1 {
      PausesAre(gaps, placed, i - 1, if k < i - 1 then k else 0);
    }
  }

  lemma {:induction false} PausesLater(gaps: seq<real>, placed: seq<Placed>, p: Placed, i: nat)
    requires i <= |placed| && |gaps| > i
    ensures PausesTo(gaps, placed + [p], i) == PausesTo(gaps, placed, i)
  {
    if i > 0 {
      PausesLater(gaps, placed, p, i - 1);
    }
  }

  lemma PausesOn(gaps: seq<real>, placed: seq<Placed>, p: Placed, i: nat)
    requires i == |placed| < |gaps|
    ensures PausesTo(gaps, placed + [p], i + 1)
            == PausesTo(gaps, placed, i) + Noted(i == 0, gaps[i], if i == 0 then 0 else placed[i - 1].end, p.start)
  {
    PausesLater(gaps, placed, p, i);
  }

  /** What the loop of `assemble_scene` holds before segment `i`. */
  ghost predicate Midway(buffer: seq<int>, takes: seq<Take>, gaps: seq<real>, placed: seq<Placed>, pauses: seq<Pause>,
                         prevTail: nat, i: nat) {
    && |gaps| == |takes| + 1 && AllOk(takes) && Assembled(buffer, takes, gaps, placed, i)
    && pauses == PausesTo(gaps, placed, i)
    && (i > 0 ==> TakeOk(takes[i - 1]) && prevTail == Tail(takes[i - 1]))
  }

  /** The silence put before a segment. */
  function Waiting(first: bool, gap: real, prevTail: nat, head: nat): seq<int> {
    if first then Silence(Opening(gap), head) else Silence(gap, prevTail + head)
  }

  lemma MidwayOn(buffer: seq<int>, takes: seq<Take>, gaps: seq<real>, placed: seq<Placed>, pauses: seq<Pause>,
                 prevTail: nat, i: nat)
    requires Midway(buffer, takes, gaps, placed, pauses, prevTail, i) && i < |takes|
    ensures TakeOk(takes[i])
    ensures var t, silence := takes[i], Waiting(i == 0, gaps[i], prevTail, Head(takes[i]));
            var p := Landing(|buffer|, |silence|, t);
            var from := if i == 0 then 0 else placed[i - 1].end;
            Midway(buffer + silence + Body(t), takes, gaps, placed + [p],
                   pauses + Noted(i == 0, gaps[i], from, p.start), Tail(t), i + 1)
  {
    assert TakeOk(takes[i]);
    var silence := Waiting(i == 0, gaps[i], prevTail, Head(takes[i]));
    PlaceNext(buffer, takes, gaps, placed, silence, i);
    PausesOn(gaps, placed, Landing(|buffer|, |silence|, takes[i]), i);
  }

  /** A scene's audio: all segments in place, and its first and last silences. */
  ghost predicate Scene(buffer: seq<int>, takes: seq<Take>, gaps: seq<real>, placed: seq<Placed>) {
    takes != [] && |placed| == |takes| == |gaps| - 1 &&
    match placed[|takes| - 1]
    case Placed(_, end) =>
      var n := |takes| - 1;
      && TakeOk(takes[n]) && Laid(buffer, takes, gaps, placed, |takes|)
      && placed[0].start == Lasting(Opening(gaps[0]), Head(takes[0]))
      && |buffer| - end == Lasting(Closing(gaps[n + 1]), Tail(takes[n]))
  }

  /** What `assemble_scene` has put together so far. */
  datatype Mix = Mix(buffer: seq<int>, placed: seq<Placed>, pauses: seq<Pause>, prevTail: nat)

  ghost predicate Underway(m: Mix, takes: seq<Take>, gaps: seq<real>, i: nat) {
    match m
    case Mix(buffer, placed, pauses, prevTail) => Midway(buffer, takes, gaps, placed, pauses, prevTail, i)
  }

  ghost predicate Opened(m: Mix, takes: seq<Take>, i: nat) {
    match m
    case Mix(buffer, placed, _, _) => i > 0 ==> takes != [] && placed != [] && Opens(buffer, placed[0], takes[0])
  }

  /** Silence, then the kept part of the segment, with the pause before it noted. */
  function Extended(m: Mix, t: Take, gap: real, silence: seq<int>): Mix
    requires TakeOk(t)
  {
    var p, first := Landing(|m.buffer|, |silence|, t), |m.placed| == 0;
    var from := if first then 0 else m.placed[|m.placed| - 1].end;
    Mix(m.buffer + silence + Body(t), m.placed + [p], m.pauses + Noted(first, gap, from, p.start), Tail(t))
  }

  function WithSegment(m: Mix, t: Take, gap: real): Mix
    requires TakeOk(t)
  {
    Extended(m, t, gap, Waiting(|m.placed| == 0, gap, m.prevTail, Head(t)))
  }

  lemma UnderwayOn(m: Mix, takes: seq<Take>, gaps: seq<real>, i: nat)
    requires i < |takes| && i < |gaps| && Underway(m, takes, gaps, i)
    ensures |m.placed| == i && TakeOk(takes[i]) && Underway(WithSegment(m, takes[i], gaps[i]), takes, gaps, i + 1)
  {
    MidwayOn(m.buffer, takes, gaps, m.placed, m.pauses, m.prevTail, i);
  }

  lemma OpenedOn(m: Mix, takes: seq<Take>, i: nat, gap: real)
    requires i == |m.placed| < |takes| && TakeOk(takes[i]) && Opened(m, takes, i) && (i == 0 ==> m.buffer == [])
    ensures Opened(WithSegment(m, takes[i], gap), takes, i + 1)
  {
    var t, silence := takes[i], Waiting(i == 0, gap, m.prevTail, Head(takes[i]));
    if i == 0 {
      OpensFirst(silence, t);
    } else {
      OpensOn(m.buffer, silence, Body(t), m.placed[0], takes[0]);
    }
  }

  lemma UnderwayLength(m: Mix, takes: seq<Take>, gaps: seq<real>, i: nat)
    requires Underway(m, takes, gaps, i)
    ensures |m.placed| == i <= |takes| && |gaps| == |takes| + 1 && (i == 0 ==> m.buffer == [])
    ensures i < |takes| ==> TakeOk(takes[i])
  {
  }

  lemma CloseScene(m: Mix, takes: seq<Take>, gaps: seq<real>, silence: seq<int>)
    requires takes != [] && Underway(m, takes, gaps, |takes|) && |gaps| == |takes| + 1
    requires silence == Silence(Closing(gaps[|takes|]), m.prevTail)
    ensures Scene(m.buffer + silence, takes, gaps, m.placed)
    ensures |gaps| >= |m.placed| && m.pauses == PausesTo(gaps, m.placed, |m.placed|)
  {
    LaidLater(m.buffer, silence, takes, gaps, m.placed, [], |takes|);
    assert m.placed + [] == m.placed;
  }

  /** What stands at a scene's ends. */
  lemma CloseEnds(m: Mix, takes: seq<Take>, gaps: seq<real>, silence: seq<int>)
    requires takes != [] && Underway(m, takes, gaps, |takes|) && Opened(m, takes, |takes|) && |m.placed| == |takes|
    requires forall k :: 0 <= k < |silence| ==> silence[k] == 0
    ensures Opens(m.buffer + silence, m.placed[0], takes[0])
    ensures Closes(m.buffer + silence, m.placed[|takes| - 1], takes[|takes| - 1])
  {
    OpensLater(m.buffer, silence, m.placed[0], takes[0]);
    ClosesWith(m.buffer, silence, m.placed[|takes| - 1], takes[|takes| - 1]);
  }

  method Extend(m: Mix, t: Take, gap: real, silence: seq<int>) returns (more: Mix)
    requires TakeOk(t)
    ensures more == Extended(m, t, gap, silence)
  {
    var start := |m.buffer| + |silence| + Head(t);
    var p := Placed(start, start + t.offset - t.onset);
    var noted := m.pauses;
    if |m.placed| > 0 {
      noted := noted + [Paused(gap, m.placed[|m.placed| - 1].end, start)];
    } else if gap > 0.0 {
      noted := noted + [Paused(gap, 0, start)];
    }
    more := Mix(m.buffer + silence + Body(t), m.placed + [p], noted, Tail(t));
  }

  /** What the loop has put together before segment `i`. */
  ghost function MixAt(takes: seq<Take>, gaps: seq<real>, i: nat): Mix
    requires i <= |takes| <= |gaps| && AllOk(takes)
  {
    if i == 0 then Mix([], [], [], 0) else WithSegment(MixAt(takes, gaps, i - 1), takes[i - 1], gaps[i - 1])
  }

  lemma {:induction false} MixIsUnderway(takes: seq<Take>, gaps: seq<real>, i: nat)
    requires i <= |takes| && |gaps| == |takes| + 1 && AllOk(takes)
    ensures Underway(MixAt(takes, gaps, i), takes, gaps, i)
  {
    if i > 0 {
      MixIsUnderway(takes, gaps, i - 1);
      UnderwayOn(MixAt(takes, gaps, i - 1), takes, gaps, i - 1);
    }
  }

  lemma {:induction false} MixIsOpened(takes: seq<Take>, gaps: seq<real>, i: nat)
    requires i <= |takes| && |gaps| == |takes| + 1 && AllOk(takes)
    ensures Opened(MixAt(takes, gaps, i), takes, i)
  {
    if i > 0 {
      var before := MixAt(takes, gaps, i - 1);
      MixIsOpened(takes, gaps, i - 1);
      MixIsUnderway(takes, gaps, i - 1);
      UnderwayLength(before, takes, gaps, i - 1);
      OpenedOn(before, takes, i - 1, gaps[i - 1]);
    }
  }

  /** A scene put together, with its ends and its pauses. */
  ghost predicate Done(m: Mix, takes: seq<Take>, gaps: seq<real>) {
    match m
    case Mix(buffer, placed, pauses, _) =>
      && takes != [] && |placed| == |takes| == |gaps| - 1 && Scene(buffer, takes, gaps, placed)
      && Opens(buffer, placed[0], takes[0]) && Closes(buffer, placed[|takes| - 1], takes[|takes| - 1])
      && pauses == Pauses(gaps, placed, |buffer|)
  }

  /** The silence after the last segment, and the pause it makes if a beat asks for it. */
  function Closed(m: Mix, gap: real, silence: seq<int>): Mix
    requires m.placed != []
  {
    var buffer, last := m.buffer + silence, m.placed[|m.placed| - 1];
    Mix(buffer, m.placed, m.pauses + (if gap > 0.0 then [Paused(gap, last.end, |buffer|)] else []), m.prevTail)
  }

  lemma ClosedIsDone(m: Mix, takes: seq<Take>, gaps: seq<real>)
    requires takes != [] && |gaps| == |takes| + 1 && Underway(m, takes, gaps, |takes|) && Opened(m, takes, |takes|)
    ensures m.placed != []
    ensures Done(Closed(m, gaps[|takes|], Silence(Closing(gaps[|takes|]), m.prevTail)), takes, gaps)
  {
    UnderwayLength(m, takes, gaps, |takes|);
    var silence := Silence(Closing(gaps[|takes|]), m.prevTail);
    CloseScene(m, takes, gaps, silence);
    CloseEnds(m, takes, gaps, silence);
  }

  method Close(m: Mix, gap: real, silence: seq<int>) returns (done: Mix)
    requires m.placed != []
    ensures done == Closed(m, gap, silence)
  {
    var buffer, pauses := m.buffer + silence, m.pauses;
    if gap > 0.0 {
      pauses := pauses + [Paused(gap, m.placed[|m.placed| - 1].end, |buffer|)];
    }
    done := Mix(buffer, m.placed, pauses, m.prevTail);
    if gap <= 0.0 {
      assert m.pauses + [] == m.pauses;
    }
  }

  /** The loop of `assemble_scene`. */
  method LaySegments(takes: seq<Take>, gaps: seq<real>) returns (m: Mix)
    requires |gaps| == |takes| + 1 && AllOk(takes)
    ensures m == MixAt(takes, gaps, |takes|)
  {
    m := Mix([], [], [], 0);
    for i := 0 to |takes|
      invariant m == MixAt(takes, gaps, i)
    {
      var silence := Waiting(|m.placed| == 0, gaps[i], m.prevTail, Head(takes[i]));
      m := Extend(m, takes[i], gaps[i], silence);
    }
  }

  /** And what follows it. */
  method CloseAll(m: Mix, takes: seq<Take>, gaps: seq<real>) returns (done: Mix)
    requires takes != [] && |gaps| == |takes| + 1 && AllOk(takes) && m == MixAt(takes, gaps, |takes|)
    ensures Done(done, takes, gaps)
  {
    MixIsUnderway(takes, gaps, |takes|);
    MixIsOpened(takes, gaps, |takes|);
    ClosedIsDone(m, takes, gaps);
    var closing := gaps[|takes|];
    done := Close(m, closing, Silence(Closing(closing), m.prevTail));
  }

  /** `assemble_scene`, from decoded segments on: every segment's speech sits unchanged where it is
      recorded to be, every gap inside lasts as long as its beat or what was kept of the edges, with
      only digital silence between those, before the first and after the last, and every recorded
      pause runs from sound to sound. */
  method AssembleScene(takes: seq<Take>, gaps: seq<real>)
    returns (buffer: seq<int>, placed: seq<Placed>, pauses: seq<Pause>)
    requires takes != [] && |gaps| == |takes| + 1 && AllOk(takes)
    ensures Scene(buffer, takes, gaps, placed)
    ensures Opens(buffer, placed[0], takes[0]) && Closes(buffer, placed[|takes| - 1], takes[|takes| - 1])
    ensures pauses == Pauses(gaps, placed, |buffer|)
  {
    var m := LaySegments(takes, gaps);
    m := CloseAll(m, takes, gaps);
    buffer, placed, pauses := m.buffer, m.placed, m.pauses;
  }

  /** What the run warns about: a pause further from its design than the tolerance. */
  predicate TooFar(p: Pause) {
    var off := p.end - p.start - 24 * p.designed;
    off > BEAT_TOLERANCE || -off > BEAT_TOLERANCE
  }

  lemma PausedNear(gap: real, kept: nat, p: Pause)
    requires gap >= BEAT_MIN && kept <= HEAD_KEEP + TAIL_KEEP
    requires p == Paused(gap, p.start, p.end) && p.end - p.start == Lasting(gap, kept)
    ensures !TooFar(p)
  {
    LastingNear(gap, kept);
    RoundNear(1000.0 * gap);
  }

  /** With gaps as `parse_beats` makes them no beat inside a scene is heard short, none runs over by
      more than 40 ms, and one as long as the edges kept around it is exact to half a sample. */
  lemma BeatsAreExact(buffer: seq<int>, takes: seq<Take>, gaps: seq<real>, placed: seq<Placed>,
                      segments: seq<seq<string>>, k: nat)
    requires |takes| == |segments| && GapsOk(segments, gaps) && Scene(buffer, takes, gaps, placed) && 0 < k < |takes|
    ensures var heard, asked := (placed[k].start - placed[k - 1].end) as real, Samples(gaps[k]);
            && -0.5 <= heard - asked <= 960.5
            && (asked >= (HEAD_KEEP + TAIL_KEEP) as real ==> heard - asked <= 0.5)
  {
    assert GapAt(buffer, takes, gaps, placed, k);
    LastingNear(gaps[k], Tail(takes[k - 1]) + Head(takes[k]));
  }

  lemma PauseNear(buffer: seq<int>, takes: seq<Take>, gaps: seq<real>, placed: seq<Placed>,
                  segments: seq<seq<string>>, k: nat, p: Pause)
    requires |takes| == |segments| && GapsOk(segments, gaps) && Scene(buffer, takes, gaps, placed) && k < |takes|
    requires p in Noted(k == 0, gaps[k], if k == 0 then 0 else placed[k - 1].end, placed[k].start)
    ensures !TooFar(p)
  {
    if k > 0 {
      assert GapAt(buffer, takes, gaps, placed, k);
      PausedNear(gaps[k], Tail(takes[k - 1]) + Head(takes[k]), p);
    } else {
      PausedNear(gaps[0], Head(takes[0]), p);
    }
  }

  lemma {:induction false} PausesNear(buffer: seq<int>, takes: seq<Take>, gaps: seq<real>, placed: seq<Placed>,
                                      segments: seq<seq<string>>, i: nat, p: Pause)
    requires |takes| == |segments| && GapsOk(segments, gaps) && Scene(buffer, takes, gaps, placed) && i <= |takes|
    requires p in PausesTo(gaps, placed, i)
    ensures !TooFar(p)
  {
    if p in PausesTo(gaps, placed, i - 1) {
      PausesNear(buffer, takes, gaps, placed, segments, i - 1, p);
    } else {
      PauseNear(buffer, takes, gaps, placed, segments, i - 1, p);
    }
  }

  /** So the warning about a gap that is not what was designed is never given, whatever the voice did. */
  lemma NoWarning(buffer: seq<int>, takes: seq<Take>, gaps: seq<real>, placed: seq<Placed>, segments: seq<seq<string>>)
    requires |takes| == |segments| && GapsOk(segments, gaps) && Scene(buffer, takes, gaps, placed)
    ensures forall p :: p in Pauses(gaps, placed, |buffer|) ==> !TooFar(p)
  {
    var n := |takes|;
    forall p | p in PausesTo(gaps, placed, n) ensures !TooFar(p) {
      PausesNear(buffer, takes, gaps, placed, segments, n, p);
    }
    if gaps[n] > 0.0 {
      PausedNear(gaps[n], Tail(takes[n - 1]), Paused(gaps[n], placed[n - 1].end, |buffer|));
    }
  }
}
