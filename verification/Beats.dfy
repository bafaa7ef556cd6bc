/** `parse_beats` (video/narrate.py): narration into segments and the gaps between them. */
module Beats {
  import opened BeatMarks
  import opened Options
  import opened Sets
  import opened Words

  const BEAT_DEFAULT := 0.6
  const BEAT_MIN := 0.05
  const BEAT_MAX := 4.0

  datatype BeatError = BadBeat | StrayMark | NoWords

  function Beat(time: Option<real>): real { if time.Some? then time.value else BEAT_DEFAULT }

  predicate InRange(time: Option<real>) { BEAT_MIN <= Beat(time) <= BEAT_MAX }

  ghost predicate HasBad(times: seq<Option<real>>) { exists k :: 0 <= k < |times| && !InRange(times[k]) }

  /** The stretches that hold words. */
  function Spoken(texts: seq<string>): seq<seq<string>> {
    if texts == [] then []
    else Spoken(texts[..|texts| - 1]) + Segment(texts[|texts| - 1])
  }

  function Segment(text: string): seq<seq<string>> { if Split(text) == [] then [] else [Split(text)] }

  function Total(gaps: seq<real>): real { if gaps == [] then 0.0 else Total(gaps[..|gaps| - 1]) + gaps[|gaps| - 1] }

  /** All the time marked. */
  function Designed(times: seq<Option<real>>): real {
    if times == [] then 0.0 else Designed(times[..|times| - 1]) + Beat(times[|times| - 1])
  }

  /** The stretches that hold words, by their places. */
  ghost function Worded(texts: seq<string>): set<nat> { set j | 0 <= j < |texts| && Split(texts[j]) != [] }

  /** There is a segment for each stretch that holds words. */
  lemma {:induction false} SpokenCounts(texts: seq<string>)
    ensures |Spoken(texts)| == |Worded(texts)|
  {
    if texts == [] {
      SameSet(Worded(texts), {});
    } else {
      var n := |texts| - 1;
      SpokenCounts(texts[..n]);
      OneMore(Worded(texts), Worded(texts[..n]), n);
    }
  }

  lemma SpokenLonger(texts: seq<string>, k: nat, i: nat)
    requires k < |texts| && i < |Spoken(texts[..k])|
    ensures i < |Spoken(texts[..k + 1])| && Spoken(texts[..k + 1])[i] == Spoken(texts[..k])[i]
  {
    SpokenOn(texts, k);
  }

  lemma {:induction false} SpokenStays(texts: seq<string>, m: nat, n: nat, i: nat)
    requires m <= n <= |texts| && i < |Spoken(texts[..m])|
    ensures i < |Spoken(texts[..n])| && Spoken(texts[..n])[i] == Spoken(texts[..m])[i]
    decreases n
  {
    if m < n {
      SpokenStays(texts, m, n - 1, i);
      SpokenLonger(texts, n - 1, i);
    }
  }

  /** A stretch that holds words is the segment numbered by how many such stretches stand before it. */
  lemma SpokenAt(texts: seq<string>, j: nat)
    requires j < |texts| && Split(texts[j]) != []
    ensures var i := |Worded(texts[..j])|; i < |Spoken(texts)| && Spoken(texts)[i] == Split(texts[j])
  {
    SpokenCounts(texts[..j]);
    SpokenOn(texts, j);
    SpokenStays(texts, j + 1, |texts|, |Worded(texts[..j])|);
    assert texts[..|texts|] == texts;
  }

  /** How many segments stand before each of the first `n` marks. */
  ghost function Aheads(texts: seq<string>, n: nat): (ahead: seq<nat>)
    requires n <= |texts|
    ensures |ahead| == n && forall m :: 0 <= m < n ==> ahead[m] == |Spoken(texts[..m + 1])|
  {
    seq(n, m requires 0 <= m < n => |Spoken(texts[..m + 1])|)
  }

  /** The time marked where just `i` segments stand before the mark. */
  ghost function MarkedAt(ahead: seq<nat>, times: seq<Option<real>>, i: int): real
    requires |times| <= |ahead|
  {
    if times == [] then 0.0
    else
      var n := |times| - 1;
      MarkedAt(ahead, times[..n], i) + (if ahead[n] == i then Beat(times[n]) else 0.0)
  }

  lemma MarkedOn(ahead: seq<nat>, times: seq<Option<real>>, k: nat, i: int)
    requires k < |times| <= |ahead|
    ensures MarkedAt(ahead, times[..k + 1], i)
            == MarkedAt(ahead, times[..k], i) + (if ahead[k] == i then Beat(times[k]) else 0.0)
  {
    assert times[..k + 1][..k] == times[..k];
  }

  ghost predicate Rising(ahead: seq<nat>) { forall m, n :: 0 <= m <= n < |ahead| ==> ahead[m] <= ahead[n] }

  lemma {:induction false} StepsRise(ahead: seq<nat>)
    requires forall m, n :: 0 <= m && n == m + 1 && n < |ahead| ==> ahead[m] <= ahead[n]
    ensures Rising(ahead)
  {
    if |ahead| > 1 {
      var n := |ahead| - 1;
      StepsRise(ahead[..n]);
      assert ahead[n - 1] <= ahead[n];
      forall m | 0 <= m < n ensures ahead[m] <= ahead[n - 1] {
        assert ahead[..n][m] <= ahead[..n][n - 1];
      }
      forall m | 0 <= m < n, k | m <= k < n ensures ahead[m] <= ahead[k] {
        assert ahead[..n][m] <= ahead[..n][k];
      }
    }
  }

  lemma AheadsRise(texts: seq<string>, n: nat)
    requires n <= |texts|
    ensures Rising(Aheads(texts, n))
  {
    var ahead := Aheads(texts, n);
    forall i, j | 0 <= i && j == i + 1 && j < |ahead| ensures ahead[i] <= ahead[j] {
      SpokenOn(texts, j);
    }
    StepsRise(ahead);
  }

  /** Nothing is marked behind more segments than have been read. */
  lemma {:induction false} NoneMarked(ahead: seq<nat>, times: seq<Option<real>>, i: int)
    requires |times| <= |ahead| && forall m :: 0 <= m < |times| ==> ahead[m] < i
    ensures MarkedAt(ahead, times, i) == 0.0
  {
    if times != [] {
      NoneMarked(ahead, times[..|times| - 1], i);
    }
  }

  /** Of the marks the first `a` stand behind fewer than `i` segments, and `a` to `b` behind just `i`. */
  ghost predicate Behind(ahead: seq<nat>, n: nat, a: nat, b: nat, i: int)
    requires a <= b <= n <= |ahead|
  {
    && (forall m :: 0 <= m < a ==> ahead[m] < i)
    && (forall m :: a <= m < b ==> ahead[m] == i)
    && (forall m :: b <= m < n ==> ahead[m] > i)
  }

  lemma DesignedRow(times: seq<Option<real>>, a: nat, k: nat)
    requires a <= k < |times|
    ensures Designed(times[a..k + 1]) == Designed(times[a..k]) + Beat(times[k])
  {
    assert times[a..k + 1][..k - a] == times[a..k];
  }

  lemma RowOn(ahead: seq<nat>, n: nat, a: nat, b: nat, i: int)
    requires a <= b <= n < |ahead| && Rising(ahead) && Behind(ahead, n, a, b, i)
    ensures ahead[n] == i ==> b == n && Behind(ahead, n + 1, a, n + 1, i)
    ensures ahead[n] < i ==> a == b && Behind(ahead, n + 1, n + 1, n + 1, i)
    ensures ahead[n] > i ==> Behind(ahead, n + 1, a, b, i)
  {
    assert b < n ==> ahead[b] <= ahead[n];
    assert a < b ==> ahead[a] <= ahead[n];
  }

  /** The marks behind one number of segments stand in a row, and what is marked there is their beats
      added up. */
  lemma {:induction false} MarkedIsRow(ahead: seq<nat>, times: seq<Option<real>>, k: nat, i: int)
    returns (a: nat, b: nat)
    requires k <= |times| <= |ahead| && Rising(ahead)
    ensures a <= b <= k && Behind(ahead, k, a, b, i)
    ensures MarkedAt(ahead, times[..k], i) == Designed(times[a..b])
    decreases k
  {
    if k == 0 {
      return 0, 0;
    }
    var n := k - 1;
    a, b := MarkedIsRow(ahead, times, n, i);
    MarkedOn(ahead, times, n, i);
    RowOn(ahead, n, a, b, i);
    if ahead[n] == i {
      DesignedRow(times, a, n);
      b := k;
    } else if ahead[n] < i {
      assert times[a..b] == times[k..k];
      a, b := k, k;
    }
  }

  lemma {:induction false} DesignedAdds(a: seq<Option<real>>, b: seq<Option<real>>)
    ensures Designed(a + b) == Designed(a) + Designed(b)
  {
    if b == [] {
      assert a + b == a;
    } else {
      var n := |b| - 1;
      DesignedAdds(a, b[..n]);
      assert (a + b)[..|a| + n] == a + b[..n];
    }
  }

  /** Each gap so far is the time marked behind that many segments. */
  ghost predicate GapsMarked(texts: seq<string>, times: seq<Option<real>>, k: nat, gaps: seq<real>)
    requires k <= |times| <= |texts|
  {
    forall i :: 0 <= i < |gaps| ==> gaps[i] == MarkedAt(Aheads(texts, |times|), times[..k], i)
  }

  /** A gap is no beat at all or long enough to hear. */
  predicate Audible(gap: real) { gap == 0.0 || gap >= BEAT_MIN }

  /** The gaps so far: one more than the segments; the beats inside are real. */
  ghost predicate GapsOk(segments: seq<seq<string>>, gaps: seq<real>) {
    && |gaps| == |segments| + 1 && Audible(gaps[0]) && Audible(gaps[|segments|])
    && forall i :: 0 < i < |segments| ==> gaps[i] >= BEAT_MIN
  }

  /** The last gap made longer. */
  function Lengthened(gaps: seq<real>, x: real): (longer: seq<real>)
    requires gaps != []
    ensures |longer| == |gaps|
  {
    gaps[..|gaps| - 1] + [gaps[|gaps| - 1] + x]
  }

  lemma TotalOf(gaps: seq<real>, x: real)
    requires gaps != []
    ensures Total(Lengthened(gaps, x)) == Total(gaps) + x
  {
    assert Lengthened(gaps, x)[..|gaps| - 1] == gaps[..|gaps| - 1];
  }

  lemma TotalWithNone(gaps: seq<real>)
    ensures Total(gaps + [0.0]) == Total(gaps)
  {
    assert (gaps + [0.0])[..|gaps|] == gaps;
  }

  /** The loop's state with `k` marks behind it. */
  ghost predicate CutTo(script: Script, k: nat, segments: seq<seq<string>>, gaps: seq<real>) {
    match script
    case Script(texts, times) =>
      && k <= |times| < |texts| && segments == Spoken(texts[..k + 1])
      && GapsOk(segments, gaps) && Total(gaps) == Designed(times[..k]) && !HasBad(times[..k])
      && GapsMarked(texts, times, k, gaps)
  }

  lemma CutBegins(script: Script)
    requires |script.texts| == |script.times| + 1
    ensures var segment := Segment(script.texts[0]);
            CutTo(script, 0, segment, if segment == [] then [0.0] else [0.0, 0.0])
  {
    assert script.texts[..1] == [script.texts[0]] && [script.texts[0]][..0] == [];
    assert Spoken([script.texts[0]]) == Segment(script.texts[0]);
    assert [0.0][..0] == [] && [0.0, 0.0][..1] == [0.0];
  }

  lemma SpokenOn(texts: seq<string>, k: nat)
    requires k < |texts|
    ensures Spoken(texts[..k + 1]) == Spoken(texts[..k]) + Segment(texts[k])
  {
    assert texts[..k + 1][..k] == texts[..k];
  }

  lemma DesignedOn(times: seq<Option<real>>, k: nat)
    requires k < |times|
    ensures Designed(times[..k + 1]) == Designed(times[..k]) + Beat(times[k])
  {
    assert times[..k + 1][..k] == times[..k];
  }

  lemma GoodOn(times: seq<Option<real>>, k: nat)
    requires k < |times| && !HasBad(times[..k]) && InRange(times[k])
    ensures !HasBad(times[..k + 1])
  {
    var upto := times[..k + 1];
    forall i | 0 <= i < |upto| ensures InRange(upto[i]) {
      if i < k {
        assert upto[i] == times[..k][i];
      }
    }
  }

  lemma GapsGrow(segments: seq<seq<string>>, gaps: seq<real>, x: real)
    requires GapsOk(segments, gaps) && x >= BEAT_MIN
    ensures GapsOk(segments, Lengthened(gaps, x)) && Lengthened(gaps, x)[|segments|] >= BEAT_MIN
  {
  }

  lemma GapsOn(segments: seq<seq<string>>, gaps: seq<real>, s: seq<string>)
    requires GapsOk(segments, gaps) && (segments != [] ==> gaps[|segments|] >= BEAT_MIN)
    ensures GapsOk(segments + [s], gaps + [0.0])
  {
  }

  /** The gaps after a mark and the stretch behind it. */
  function GapsAfter(gaps: seq<real>, time: Option<real>, chunk: seq<seq<string>>): seq<real>
    requires gaps != []
  {
    Lengthened(gaps, Beat(time)) + if chunk == [] then [] else [0.0]
  }

  lemma MarksOn(texts: seq<string>, times: seq<Option<real>>, k: nat, gaps: seq<real>)
    requires k < |times| < |texts| && |gaps| == |Spoken(texts[..k + 1])| + 1
    requires GapsMarked(texts, times, k, gaps)
    ensures GapsMarked(texts, times, k + 1, GapsAfter(gaps, times[k], Segment(texts[k + 1])))
  {
    var after, ahead := GapsAfter(gaps, times[k], Segment(texts[k + 1])), Aheads(texts, |times|);
    AheadsRise(texts, |times|);
    forall i | 0 <= i < |after| ensures after[i] == MarkedAt(ahead, times[..k + 1], i) {
      MarkedOn(ahead, times, k, i);
      if i == |gaps| {
        NoneMarked(ahead, times[..k], i);
      }
    }
  }

  lemma CutOn(script: Script, k: nat, segments: seq<seq<string>>, gaps: seq<real>)
    requires k < |script.times| && CutTo(script, k, segments, gaps) && InRange(script.times[k])
    ensures var chunk := Segment(script.texts[k + 1]);
            CutTo(script, k + 1, segments + chunk, GapsAfter(gaps, script.times[k], chunk))
  {
    var longer := Lengthened(gaps, Beat(script.times[k]));
    SpokenOn(script.texts, k + 1);
    DesignedOn(script.times, k);
    GoodOn(script.times, k);
    GapsGrow(segments, gaps, Beat(script.times[k]));
    TotalOf(gaps, Beat(script.times[k]));
    TotalWithNone(longer);
    MarksOn(script.texts, script.times, k, gaps);
    if Segment(script.texts[k + 1]) != [] {
      GapsOn(segments, longer, Split(script.texts[k + 1]));
    } else {
      assert segments + [] == segments && longer + [] == longer;
    }
  }

  method AddBeat(script: Script, k: nat, segments: seq<seq<string>>, gaps: seq<real>)
    returns (more: seq<seq<string>>, longer: seq<real>)
    requires k < |script.times| && CutTo(script, k, segments, gaps) && InRange(script.times[k])
    ensures CutTo(script, k + 1, more, longer)
  {
    CutOn(script, k, segments, gaps);
    var chunk := Segment(script.texts[k + 1]);
    more, longer := segments + chunk, GapsAfter(gaps, script.times[k], chunk);
  }

  /** The loop of `parse_beats`: `None` as soon as a beat is out of range. */
  method CutAtBeats(script: Script) returns (cut: Option<(seq<seq<string>>, seq<real>)>)
    requires |script.texts| == |script.times| + 1
    ensures cut.None? <==> HasBad(script.times)
    ensures cut.Some? ==> CutTo(script, |script.times|, cut.value.0, cut.value.1)
  {
    var segments, gaps := Segment(script.texts[0]), [0.0];
    if segments != [] {
      gaps := gaps + [0.0];
    }
    CutBegins(script);
    for k := 0 to |script.times|
      invariant CutTo(script, k, segments, gaps)
    {
      if !InRange(script.times[k]) {
        return None;
      }
      segments, gaps := AddBeat(script, k, segments, gaps);
    }
    assert script.times[..|script.times|] == script.times;
    return Some((segments, gaps));
  }

  /** What has been cut, and what the rest will be. */
  function Resumed(texts: seq<string>, times: seq<Option<real>>, open: string, c: Script): Script
    requires c.texts != []
  {
    Script(texts + Before(open, c).texts, times + c.times)
  }

  lemma ResumedText(texts: seq<string>, times: seq<Option<real>>, open: string, ch: char, c: Script)
    requires c.texts != []
    ensures Resumed(texts, times, open, Before([ch], c)) == Resumed(texts, times, open + [ch], c)
  {
    Assoc(open, [ch], c.texts[0]);
    assert Before([ch], c).texts[1..] == c.texts[1..];
  }

  lemma ResumedMark(texts: seq<string>, times: seq<Option<real>>, open: string, time: Option<real>, c: Script)
    requires c.texts != []
    ensures Resumed(texts, times, open, Script([""] + c.texts, [time] + c.times))
            == Resumed(texts + [open], times + [time], "", c)
  {
    assert ([""] + c.texts)[1..] == c.texts && open + "" == open;
    assert "" + c.texts[0] == c.texts[0] && [c.texts[0]] + c.texts[1..] == c.texts;
    Assoc(texts, [open], c.texts);
    Assoc(times, [time], c.times);
  }

  lemma ResumedEnds(texts: seq<string>, times: seq<Option<real>>, open: string, c: Script)
    requires c.texts != []
    ensures Resumed([], [], "", c) == c
    ensures Resumed(texts, times, open, Script([""], [])) == Script(texts + [open], times)
  {
    assert "" + c.texts[0] == c.texts[0] && [c.texts[0]] + c.texts[1..] == c.texts && open + "" == open;
    assert [] + c.texts == c.texts && [] + c.times == c.times && times + [] == times;
  }

  /** `BEAT_RE.finditer`: a scan from left to right. */
  method FindMarks(text: string) returns (script: Script)
    ensures script == Cut(text) && CutsUp(text, script)
  {
    var texts, times, open, rest := [], [], "", text;
    ResumedEnds([], [], "", Cut(text));
    while rest != ""
      invariant Cut(text) == Resumed(texts, times, open, Cut(rest))
      decreases |rest|
    {
      var mark := ReadMark(rest);
      if mark.Some? {
        ResumedMark(texts, times, open, mark.value.0, Cut(mark.value.1));
        texts, times, open, rest := texts + [open], times + [mark.value.0], "", mark.value.1;
      } else {
        ResumedText(texts, times, open, rest[0], Cut(rest[1..]));
        open, rest := open + [rest[0]], rest[1..];
      }
    }
    ResumedEnds(texts, times, open, Script([""], []));
    CutIsLeftmost(text);
    return Script(texts + [open], times);
  }

  /** `_ANY_MARK_RE.search`. */
  method FindMark(s: string) returns (found: bool)
    ensures found <==> HasMark(s)
  {
    var open := false;
    for i := 0 to |s|
      invariant open <==> exists k :: 0 <= k < i && s[k] == '['
      invariant forall j :: 0 <= j < i && s[j] == ']' ==> forall k :: 0 <= k < j ==> s[k] != '['
    {
      if s[i] == ']' && open {
        return true;
      }
      open := open || s[i] == '[';
    }
    return false;
  }

  ghost predicate Unbracketed(segments: seq<seq<string>>) { forall s :: s in segments ==> !HasMark(Join(s)) }

  method NoStray(segments: seq<seq<string>>) returns (plain: bool)
    ensures plain <==> Unbracketed(segments)
  {
    for i := 0 to |segments|
      invariant forall k :: 0 <= k < i ==> !HasMark(Join(segments[k]))
    {
      var stray := FindMark(Join(segments[i]));
      if stray {
        assert segments[i] in segments;
        return false;
      }
    }
    return true;
  }

  lemma SegmentFlat(text: string)
    ensures Flat(Segment(text)) == Split(text) && Solid(Segment(text))
  {
    if Segment(text) != [] {
      FlatOne(Split(text));
    }
  }

  lemma SolidJoined(a: seq<seq<string>>, b: seq<seq<string>>)
    requires Solid(a) && Solid(b)
    ensures Solid(a + b)
  {
  }

  lemma SpokenLast(front: seq<string>, text: string)
    ensures Spoken(front + [text]) == Spoken(front) + Segment(text)
  {
    assert (front + [text])[..|front|] == front;
  }

  lemma SpokenMore(front: seq<string>, text: string)
    requires Flat(Spoken(front)) == WordsOf(front) && Solid(Spoken(front))
    ensures Flat(Spoken(front + [text])) == WordsOf(front + [text]) && Solid(Spoken(front + [text]))
  {
    SpokenLast(front, text);
    WordsOfLast(front, text);
    SegmentFlat(text);
    FlatConcat(Spoken(front), Segment(text));
    SolidJoined(Spoken(front), Segment(text));
  }

  /** The segments hold the words of the stretches between the marks. */
  lemma {:induction false} SpokenWords(texts: seq<string>)
    ensures Flat(Spoken(texts)) == WordsOf(texts) && Solid(Spoken(texts))
  {
    if texts != [] {
      var front, text := texts[..|texts| - 1], texts[|texts| - 1];
      assert texts == front + [text];
      SpokenWords(front);
      SpokenMore(front, text);
    }
  }

  lemma {:induction false} SolidFlat(groups: seq<seq<string>>)
    requires Solid(groups)
    ensures Flat(groups) == [] <==> groups == []
  {
    if groups != [] {
      assert groups[0] in groups;
    }
  }

  /** The segments are the stretches that hold words, each gap is the time marked there, and all of them
      are all that is marked; a gap inside is always a beat, the first and last may be none. */
  ghost predicate LaidOut(script: Script, segments: seq<seq<string>>, gaps: seq<real>) {
    match script
    case Script(texts, times) =>
      && |texts| == |times| + 1 && segments == Spoken(texts) && Solid(segments)
      && GapsOk(segments, gaps) && Total(gaps) == Designed(times)
      && forall i :: 0 <= i <= |segments| ==> gaps[i] == MarkedAt(Aheads(texts, |times|), times, i)
  }

  lemma BadExactly(times: seq<Option<real>>)
    ensures HasBad(times) <==> exists k :: 0 <= k < |times| && times[k].Some? && !(0.05 <= times[k].value <= 4.0)
  {
    if k :| 0 <= k < |times| && !InRange(times[k]) {
      assert times[k].Some?;
    }
    if k :| 0 <= k < |times| && times[k].Some? && !(0.05 <= times[k].value <= 4.0) {
      assert !InRange(times[k]);
    }
  }

  lemma AllCut(script: Script, segments: seq<seq<string>>, gaps: seq<real>)
    requires CutTo(script, |script.times|, segments, gaps) && |script.texts| == |script.times| + 1
    ensures segments == Spoken(script.texts) && Flat(segments) == WordsOf(script.texts)
    ensures WordsOf(script.texts) == [] <==> segments == []
    ensures LaidOut(script, segments, gaps)
  {
    assert script.texts[..|script.texts|] == script.texts && script.times[..|script.times|] == script.times;
    SpokenWords(script.texts);
    SolidFlat(segments);
  }

  /** `parse_beats`.  Each error exactly when its cause is there; otherwise the segments hold the words
      of the narration in order, just those left when the marks are taken out for the subtitles; each
      gap is the beats marked behind that many segments, added up, and all of them are all the time
      marked; a gap inside is always a beat, the first and last may be none. */
  method ParseBeats(text: string) returns (parsed: Result<(seq<seq<string>>, seq<real>), BeatError>)
    ensures parsed == Err(BadBeat) <==> HasBad(Cut(text).times)
    ensures parsed == Err(NoWords) <==> !HasBad(Cut(text).times) && Split(Unmarked(text)) == []
    ensures parsed.Ok? <==>
      !HasBad(Cut(text).times) && Split(Unmarked(text)) != [] && Unbracketed(Spoken(Cut(text).texts))
    ensures parsed.Ok? ==>
      var (segments, gaps) := parsed.value;
      LaidOut(Cut(text), segments, gaps) && Flat(segments) == Split(Unmarked(text))
  {
    var script := FindMarks(text);
    var cut := CutAtBeats(script);
    UnmarkedWords(text);
    if cut.None? {
      return Err(BadBeat);
    }
    var (segments, gaps) := cut.value;
    AllCut(script, segments, gaps);
    var plain := NoStray(segments);
    if !plain {
      return Err(StrayMark);
    }
    if segments == [] {
      return Err(NoWords);
    }
    return Ok((segments, gaps));
  }
}
