/** `build_srt` from the cues as spoken (video/narrate.py): each is stripped, set and printed. */
module Subtitles {
  import opened BeatMarks
  import opened Beats
  import opened Cues
  import opened Marks
  import opened Options
  import opened Srt
  import opened Words

  datatype Spoken = Spoken(text: string, start: int, end: int)

  /** The words a cue shows. */
  function Wording(s: Spoken): seq<string> { Glue(Bare(s.text)) }

  ghost predicate SetFrom(s: Spoken, c: Cue) { c.start == s.start && c.end == s.end && SetAs(Wording(s), c.body) }

  ghost predicate SceneSet(spoken: seq<Spoken>, cues: seq<Cue>) {
    |spoken| == |cues| && forall k :: 0 <= k < |spoken| ==> SetFrom(spoken[k], cues[k])
  }

  ghost predicate ScenesSet(scenes: seq<seq<Spoken>>, cues: seq<seq<Cue>>) {
    |scenes| == |cues| && forall i :: 0 <= i < |scenes| ==> SceneSet(scenes[i], cues[i])
  }

  ghost predicate SceneFits(spoken: seq<Spoken>) { forall s :: s in spoken ==> Fits(Wording(s)) }

  ghost predicate ScenesFit(scenes: seq<seq<Spoken>>) { forall scene :: scene in scenes ==> SceneFits(scene) }

  method SetSpoken(s: Spoken) returns (cue: Result<Cue, string>)
    ensures cue.Ok? <==> Fits(Wording(s))
    ensures cue.Ok? ==> SetFrom(s, cue.value)
  {
    var body := SetCue(s.text);
    return if body.Err? then Err(body.error) else Ok(Cue(s.start, s.end, body.value));
  }

  method SetScene(spoken: seq<Spoken>) returns (cues: Result<seq<Cue>, string>)
    ensures cues.Ok? <==> SceneFits(spoken)
    ensures cues.Ok? ==> SceneSet(spoken, cues.value)
  {
    var out: seq<Cue> := [];
    for k := 0 to |spoken|
      invariant |out| == k && forall i :: 0 <= i < k ==> Fits(Wording(spoken[i])) && SetFrom(spoken[i], out[i])
    {
      var cue := SetSpoken(spoken[k]);
      if cue.Err? {
        assert spoken[k] in spoken;
        return Err(cue.error);
      }
      out := out + [cue.value];
    }
    return Ok(out);
  }

  /** It fails exactly when some cue, stripped, does not fit; otherwise it prints every cue with its
      own times and its stripped words, numbered through, and the print reads back. */
  method BuildSrt(scenes: seq<seq<Spoken>>) returns (text: Result<string, string>, ghost cues: seq<seq<Cue>>)
    ensures text.Ok? <==> ScenesFit(scenes)
    ensures text.Ok? ==> ScenesSet(scenes, cues) && text.value == Text(Flat(cues), 1)
    ensures text.Ok? && (forall scene :: scene in scenes ==> AllShowable(scene)) ==>
              FindAll(text.value) == ShownAll(Flat(cues))
  {
    var done: seq<seq<Cue>> := [];
    cues := [];
    for i := 0 to |scenes|
      invariant |done| == i && forall k :: 0 <= k < i ==> SceneFits(scenes[k]) && SceneSet(scenes[k], done[k])
    {
      var scene := SetScene(scenes[i]);
      if scene.Err? {
        assert scenes[i] in scenes;
        return Err(scene.error), cues;
      }
      done := done + [scene.value];
    }
    cues := done;
    var printed := PrintSrt(done);
    if forall scene :: scene in scenes ==> AllShowable(scene) {
      AllReadable(scenes, done);
    }
    text := Ok(printed);
  }

  /** Words to show, and times under a hundred hours. */
  ghost predicate AllShowable(spoken: seq<Spoken>) {
    forall s :: s in spoken ==>
      Bare(s.text) != [] && Clipped(s.start) < HUNDRED_HOURS && Clipped(s.end) < HUNDRED_HOURS
  }

  lemma SetIsReadable(s: Spoken, c: Cue)
    requires SetFrom(s, c) && AllShowable([s])
    ensures Readable(c)
  {
    assert s in [s];
    var ws := Wording(s);
    GlueKeepsWords(Bare(s.text));
    if Len(ws) <= LINE_CHARS {
      WrappedCueIsSet(ws, |ws|);
    } else {
      var i :| Balanced(ws, i, |ws|) && c.body == Join(ws[..i]) + "\n" + Join(ws[i..]);
      WrappedCueIsSet(ws, i);
    }
  }

  lemma {:induction false} InFlat<T>(groups: seq<seq<T>>, x: T) returns (i: nat, k: nat)
    requires x in Flat(groups)
    ensures i < |groups| && k < |groups[i]| && groups[i][k] == x
  {
    if x in groups[0] {
      i := 0;
      k :| 0 <= k < |groups[0]| && groups[0][k] == x;
    } else {
      i, k := InFlat(groups[1..], x);
      i := i + 1;
    }
  }

  lemma AllReadable(scenes: seq<seq<Spoken>>, cues: seq<seq<Cue>>)
    requires ScenesSet(scenes, cues) && forall scene :: scene in scenes ==> AllShowable(scene)
    ensures forall c :: c in Flat(cues) ==> Readable(c)
  {
    forall c | c in Flat(cues) ensures Readable(c) {
      var i, k := InFlat(cues, c);
      assert scenes[i] in scenes && SceneSet(scenes[i], cues[i]);
      assert scenes[i][k] in scenes[i];
      SetIsReadable(scenes[i][k], c);
    }
  }

  // ---- what is heard and what is read ----

  /** The stripped narration says the words of the segments that are spoken, in order, only with stops
      glued on: no beat mark loses a word, joins two, or is shown. */
  lemma SpokenIsShown(text: string)
    ensures Split(StripMarks(text)) == Glue(Flat(Beats.Spoken(Cut(text).texts)))
  {
    StrippedWords(text);
    UnmarkedWords(text);
    SpokenWords(Cut(text).texts);
  }

  /** A segment that parsing accepts holds nothing for stripping to take out. */
  lemma SegmentIsBare(text: string, segment: seq<string>)
    requires Unbracketed(Beats.Spoken(Cut(text).texts)) && segment in Beats.Spoken(Cut(text).texts)
    ensures Bare(Join(segment)) == segment
  {
    SegmentWords(Cut(text).texts, segment);
    BareJoin(segment);
  }

  lemma {:induction false} SegmentWords(texts: seq<string>, segment: seq<string>)
    requires segment in Beats.Spoken(texts)
    ensures AllWords(segment)
  {
    if segment !in Segment(texts[|texts| - 1]) {
      SegmentWords(texts[..|texts| - 1], segment);
    }
  }
}
