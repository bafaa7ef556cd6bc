/** `retime_srt` of video/render.py: the cues of a printed text moved scene by scene. */
module Retime {
  import opened Options
  import opened Words
  import opened Srt

  function SumTo(counts: seq<nat>, i: nat): nat
    requires i <= |counts|
  {
    if i == 0 then 0 else SumTo(counts, i - 1) + counts[i - 1]
  }

  function Sum(counts: seq<nat>): nat { SumTo(counts, |counts|) }

  lemma {:induction false} SumGrows(counts: seq<nat>, i: nat, j: nat)
    requires i <= j <= |counts|
    ensures SumTo(counts, i) <= SumTo(counts, j)
    decreases j - i
  {
    if i < j {
      SumGrows(counts, i, j - 1);
    }
  }

  function Moved(cue: Cue, delta: int): Cue { Cue(cue.start + delta, cue.end + delta, cue.body) }

  function AllMoved(cues: seq<Cue>, delta: int): (moved: seq<Cue>)
    ensures |moved| == |cues| && forall k :: 0 <= k < |cues| ==> moved[k] == Moved(cues[k], delta)
  {
    seq(|cues|, k requires 0 <= k < |cues| => Moved(cues[k], delta))
  }

  /** The cues found, cut up by the counts, each scene's part moved by its shift: the first `i`
      scenes. */
  function RecutTo(cues: seq<Cue>, counts: seq<nat>, deltas: seq<int>, i: nat): seq<Cue>
    requires |counts| == |deltas| && i <= |counts| && Sum(counts) <= |cues|
  {
    if i == 0 then []
    else
      SumGrows(counts, i, |counts|);
      RecutTo(cues, counts, deltas, i - 1)
      + AllMoved(cues[SumTo(counts, i - 1)..SumTo(counts, i)], deltas[i - 1])
  }

  function Recut(cues: seq<Cue>, counts: seq<nat>, deltas: seq<int>): seq<Cue>
    requires |counts| == |deltas| && Sum(counts) <= |cues|
  {
    RecutTo(cues, counts, deltas, |counts|)
  }

  lemma MovedGrows(found: seq<Cue>, start: nat, k: nat, delta: int)
    requires start + k < |found|
    ensures AllMoved(found[start..start + k + 1], delta)
            == AllMoved(found[start..start + k], delta) + [Moved(found[start + k], delta)]
  {
  }

  /** The cursor over the blocks found, scene by scene. */
  method MoveCues(found: seq<Cue>, counts: seq<nat>, deltas: seq<int>) returns (moved: seq<Cue>)
    requires |counts| == |deltas| && Sum(counts) == |found|
    ensures moved == Recut(found, counts, deltas)
  {
    moved := [];
    var cursor := 0;
    for i := 0 to |counts|
      invariant cursor == SumTo(counts, i) <= |found|
      invariant moved == RecutTo(found, counts, deltas, i)
    {
      SumGrows(counts, i + 1, |counts|);
      ghost var before, start := moved, cursor;
      for k := 0 to counts[i]
        invariant cursor == start + k
        invariant moved == before + AllMoved(found[start..start + k], deltas[i])
      {
        MovedGrows(found, start, k, deltas[i]);
        moved := moved + [Moved(found[cursor], deltas[i])];
        cursor := cursor + 1;
      }
    }
  }

  /** `retime_srt`: nothing when the text holds no cue or the counts do not account for its cues;
      else the same cues, renumbered from one, each moved by its own scene's shift. */
  method RetimeSrt(text: string, counts: seq<nat>, deltas: seq<int>) returns (retimed: Option<string>)
    requires |counts| == |deltas|
    ensures retimed.Some? <==> FindAll(text) != [] && Sum(counts) == |FindAll(text)|
    ensures retimed.Some? ==> retimed.value == Text(Recut(FindAll(text), counts, deltas), 1)
    ensures retimed.Some? ==> retimed.value == JoinLines(Numbered(PrintCue(), Recut(FindAll(text), counts, deltas), 1))
  {
    var found := FindAll(text);
    if found == [] || Sum(counts) != |found| {
      return None;
    }
    var moved := MoveCues(found, counts, deltas);
    JoinedText(moved, 1);
    var blocks := PrintNumbered(PrintCue(), [moved]);
    assert Flat([moved]) == moved by { assert [moved][1..] == []; }
    return Some(JoinLines(blocks));
  }

  function Counts(scenes: seq<seq<Cue>>): (counts: seq<nat>)
    ensures |counts| == |scenes|
  {
    seq(|scenes|, k requires 0 <= k < |scenes| => |scenes[k]|)
  }

  /** Every scene's cues moved by that scene's shift: the first `i` scenes. */
  function ScenesMoved(scenes: seq<seq<Cue>>, deltas: seq<int>, i: nat): seq<Cue>
    requires |deltas| == |scenes| && i <= |scenes|
  {
    if i == 0 then [] else ScenesMoved(scenes, deltas, i - 1) + AllMoved(ShownAll(scenes[i - 1]), deltas[i - 1])
  }

  lemma {:induction false} CountsAreLengths(scenes: seq<seq<Cue>>, i: nat)
    requires i <= |scenes|
    ensures SumTo(Counts(scenes), i) == |Flat(scenes[..i])|
  {
    if i > 0 {
      CountsAreLengths(scenes, i - 1);
      FlatGrows(scenes, i - 1);
    }
  }

  lemma SceneInFlat(scenes: seq<seq<Cue>>, i: nat)
    requires i < |scenes|
    ensures var at := |Flat(scenes[..i])|;
            at + |scenes[i]| <= |Flat(scenes)| && Flat(scenes)[at..at + |scenes[i]|] == scenes[i]
  {
    FlatGrows(scenes, i);
    assert scenes == scenes[..i + 1] + scenes[i + 1..];
    FlatConcat(scenes[..i + 1], scenes[i + 1..]);
  }

  lemma AllCounted(scenes: seq<seq<Cue>>)
    ensures Sum(Counts(scenes)) == |Flat(scenes)|
  {
    CountsAreLengths(scenes, |scenes|);
    assert scenes[..|scenes|] == scenes;
  }

  lemma ShownSlice(cues: seq<Cue>, a: nat, b: nat)
    requires a <= b <= |cues|
    ensures ShownAll(cues)[a..b] == ShownAll(cues[a..b])
  {
  }

  /** The counts cut scene `i`'s cues out of all of them. */
  lemma SceneCutOut(scenes: seq<seq<Cue>>, i: nat)
    requires i < |scenes|
    ensures var from, to := SumTo(Counts(scenes), i), SumTo(Counts(scenes), i + 1);
            from <= to <= |Flat(scenes)| && ShownAll(Flat(scenes))[from..to] == ShownAll(scenes[i])
  {
    CountsAreLengths(scenes, i);
    SceneInFlat(scenes, i);
    var at := |Flat(scenes[..i])|;
    ShownSlice(Flat(scenes), at, at + |scenes[i]|);
  }

  lemma {:induction false} RecutScenes(scenes: seq<seq<Cue>>, deltas: seq<int>, i: nat)
    requires |deltas| == |scenes| && i <= |scenes|
    ensures Sum(Counts(scenes)) == |Flat(scenes)|
    ensures RecutTo(ShownAll(Flat(scenes)), Counts(scenes), deltas, i) == ScenesMoved(scenes, deltas, i)
  {
    AllCounted(scenes);
    if i > 0 {
      RecutScenes(scenes, deltas, i - 1);
      SceneCutOut(scenes, i - 1);
    }
  }

  lemma {:induction false} ScenesMovedGrow(scenes: seq<seq<Cue>>, deltas: seq<int>, i: nat)
    requires |deltas| == |scenes| && i <= |scenes|
    ensures |ScenesMoved(scenes, deltas, i)| == |Flat(scenes[..i])|
  {
    if i > 0 {
      ScenesMovedGrow(scenes, deltas, i - 1);
      FlatGrows(scenes, i - 1);
    }
  }

  /** Cue `k` of scene `i`, wherever it stands in the whole: both its times are moved by that scene's
      shift, from what was printed of them, and its words stay. */
  lemma {:induction false} EachIsMoved(scenes: seq<seq<Cue>>, deltas: seq<int>, i: nat, k: nat, n: nat)
    requires |deltas| == |scenes| && i < n <= |scenes| && k < |scenes[i]|
    ensures var at, moved := |Flat(scenes[..i])| + k, ScenesMoved(scenes, deltas, n);
            && at < |moved| && moved[at].body == scenes[i][k].body
            && moved[at].start == (if scenes[i][k].start < 0 then 0 else scenes[i][k].start) + deltas[i]
            && moved[at].end == (if scenes[i][k].end < 0 then 0 else scenes[i][k].end) + deltas[i]
    decreases n
  {
    ScenesMovedGrow(scenes, deltas, n - 1);
    if i < n - 1 {
      EachIsMoved(scenes, deltas, i, k, n - 1);
    }
  }

  lemma {:induction false} NoShift(scenes: seq<seq<Cue>>, deltas: seq<int>, i: nat)
    requires |deltas| == |scenes| && i <= |scenes| && forall k :: 0 <= k < |deltas| ==> deltas[k] == 0
    ensures ScenesMoved(scenes, deltas, i) == ShownAll(Flat(scenes[..i]))
  {
    if i > 0 {
      NoShift(scenes, deltas, i - 1);
      FlatGrows(scenes, i - 1);
      assert AllMoved(ShownAll(scenes[i - 1]), 0) == ShownAll(scenes[i - 1]);
    }
  }

  lemma ClippedStamp(ms: int)
    ensures Timestamp(Clipped(ms)) == Timestamp(ms)
  {
  }

  lemma ClippedBlock(n: nat, cue: Cue, rest: string)
    ensures Block(n, Shown(cue), rest) == Block(n, cue, rest)
  {
    ClippedStamp(cue.start);
    ClippedStamp(cue.end);
  }

  lemma {:induction false} NumberedAlike<T>(show: (nat, T) -> string, a: seq<T>, b: seq<T>, n: nat)
    requires |a| == |b| && forall k, m :: 0 <= k < |a| ==> show(m, a[k]) == show(m, b[k])
    ensures Numbered(show, a, n) == Numbered(show, b, n)
    decreases |a|
  {
    if a != [] {
      assert forall k, m :: 0 <= k < |a| - 1 ==> show(m, a[1..][k]) == show(m, b[1..][k]);
      NumberedAlike(show, a[1..], b[1..], n + 1);
    }
  }

  lemma ClippedPrintsTheSame(cues: seq<Cue>, n: nat)
    ensures Text(ShownAll(cues), n) == Text(cues, n)
  {
    forall k, m: nat | 0 <= k < |cues| ensures PrintCue()(m, ShownAll(cues)[k]) == PrintCue()(m, cues[k]) {
      ClippedBlock(m, cues[k], "");
    }
    NumberedAlike(PrintCue(), ShownAll(cues), cues, n);
    JoinedText(ShownAll(cues), n);
    JoinedText(cues, n);
  }

  /** Print a film's cues, retime the text with the film's own counts: the numbering and the words
      stay, each cue moves by its scene's shift, and with no shift the text is unchanged. */
  lemma PrintThenRetime(scenes: seq<seq<Cue>>, deltas: seq<int>)
    requires |deltas| == |scenes| && forall c :: c in Flat(scenes) ==> Readable(c)
    ensures var text := Text(Flat(scenes), 1);
            && Sum(Counts(scenes)) == |FindAll(text)|
            && Recut(FindAll(text), Counts(scenes), deltas) == ScenesMoved(scenes, deltas, |scenes|)
            && ((forall k :: 0 <= k < |deltas| ==> deltas[k] == 0) ==>
                  Text(Recut(FindAll(text), Counts(scenes), deltas), 1) == text)
  {
    ReadText(Flat(scenes), 1);
    RecutScenes(scenes, deltas, |scenes|);
    if forall k :: 0 <= k < |deltas| ==> deltas[k] == 0 {
      NoShift(scenes, deltas, |scenes|);
      assert scenes[..|scenes|] == scenes;
      ClippedPrintsTheSame(Flat(scenes), 1);
    }
  }

  /** The retimed text reads back as the moved cues, clipped at zero. */
  lemma RetimedReadsBack(cues: seq<Cue>, counts: seq<nat>, deltas: seq<int>)
    requires |counts| == |deltas| && Sum(counts) == |cues|
    requires forall c :: c in Recut(cues, counts, deltas) ==> Readable(c)
    ensures FindAll(Text(Recut(cues, counts, deltas), 1)) == ShownAll(Recut(cues, counts, deltas))
  {
    ReadText(Recut(cues, counts, deltas), 1);
  }
}
