/** Exactly which shots a script may use for the two planners to agree on every scene made of them
    (video/capture.py, video/compose.py). */
module PlannersExactly {
  import opened Options
  import opened Scenes
  import opened Planners
  import opened PlannersAgree
  import Sorting

  /** A target, and a key, wherever the page is scrolled. */
  function Still(t: Target): Target { t.(scroll := 0) }

  function StillKey(k: Key): Key { k.(scroll := 0) }

  function Seen(shot: Shot): Target
    requires TargetOf(shot).Ok?
  {
    TargetOf(shot).value
  }

  function Named(shot: Shot): Key { TargetKey(shot, "") }

  /** The capture and the compositor tell two shots apart, scrolling aside, or both do not. */
  predicate ToldAlike(a: Shot, b: Shot)
    requires TargetOf(a).Ok? && TargetOf(b).Ok?
  {
    Still(Seen(a)) == Still(Seen(b)) <==> StillKey(Named(a)) == StillKey(Named(b))
  }

  ghost predicate Accepts(words: Shot -> bool) { forall a :: words(a) ==> TargetOf(a).Ok? }

  ghost predicate AllToldAlike(words: Shot -> bool)
    requires Accepts(words)
  {
    forall a, b :: words(a) && words(b) ==> ToldAlike(a, b)
  }

  /** As many changes as states after the first, at their times. */
  ghost predicate Matches(scene: Scene)
    requires CapturePlan(scene).Ok?
  {
    var states, changes := CapturePlan(scene).value, ComposePlan(scene);
    |changes| == |states| - 1 && forall k :: 0 <= k < |changes| ==> changes[k].at == states[k + 1].at
  }

  ghost predicate SceneOf(scene: Scene, words: Shot -> bool) {
    CapturePlan(scene).Ok? && ShotsKeep(scene.shot.value, scene.actions, words)
  }

  ghost predicate MatchesIf(scene: Scene, words: Shot -> bool) { SceneOf(scene, words) ==> Matches(scene) }

  // ---- keys of accepted shots ----

  function KindName(k: Kind): string {
    match k
    case SlideKind => "slide"
    case PageKind => "page"
    case PhoneKind => "phone"
    case PairKind => "phone_pair"
  }

  lemma {:induction false} KeyShape(shot: Shot, current: string)
    requires TargetOf(shot).Ok?
    ensures TargetKey(shot, current) == Named(shot)
    ensures Named(shot).kind == KindName(Seen(shot).kind) && Named(shot).scroll == Seen(shot).scroll
    ensures Seen(shot).kind == SlideKind ==> Seen(shot) == Target(SlideKind, Named(shot).text, 0, "", "")
  {
    match shot
    case Sequence(shots, _) => KeyShape(shots[0], current);
    case _ =>
  }

  lemma KindNamesDiffer(k: Kind, l: Kind)
    ensures KindName(k) == KindName(l) <==> k == l
  {
    assert |KindName(SlideKind)| == 5 && |KindName(PageKind)| == 4 && |KindName(PhoneKind)| == 5;
    assert KindName(SlideKind)[0] == 's' && KindName(PhoneKind)[0] == 'p' && |KindName(PairKind)| == 10;
  }

  // ---- if they are told alike, every scene matches ----

  /** A state and a change that came from one shot, scrolled alike. */
  predicate Twins(t: Target, k: Key, a: Shot) {
    TargetOf(a).Ok? && Still(t) == Still(Seen(a)) && StillKey(k) == StillKey(Named(a)) && t.scroll == k.scroll
  }

  ghost predicate Paired(t: Target, k: Key, words: Shot -> bool) { exists a :: words(a) && Twins(t, k, a) }

  ghost predicate Level(plan: seq<Planned>, changes: seq<Transition>, words: Shot -> bool) {
    && |changes| == |plan|
    && forall i :: 0 <= i < |plan| ==> changes[i].at == plan[i].at && Paired(plan[i].target, changes[i].key, words)
  }

  lemma NextPaired(t: Target, k: Key, payload: Payload, words: Shot -> bool)
    requires Accepts(words) && AllToldAlike(words) && Paired(t, k, words)
    requires Next(t, payload).Ok? && (payload.Show? ==> words(payload.shot))
    ensures Paired(Next(t, payload).value, NextKey(k, payload), words)
    ensures Next(t, payload).value == t <==> NextKey(k, payload) == k
  {
    var a :| words(a) && Twins(t, k, a);
    KeyShape(a, "");
    if payload.Show? {
      var b := payload.shot;
      KeyShape(b, k.text);
      assert ToldAlike(a, b);
      assert Twins(Next(t, payload).value, NextKey(k, payload), b);
      assert Seen(b) == t <==> Still(Seen(b)) == Still(t) && Seen(b).scroll == t.scroll;
      assert Named(b) == k <==> StillKey(Named(b)) == StillKey(k) && Named(b).scroll == k.scroll;
    } else {
      KindNamesDiffer(t.kind, SlideKind);
      assert k.kind == StillKey(k).kind && t.kind == Still(t).kind;
      assert Twins(Next(t, payload).value, NextKey(k, payload), a);
    }
  }

  lemma LevelStep(plan: seq<Planned>, changes: seq<Transition>, e: Entry, words: Shot -> bool)
    requires Accepts(words) && AllToldAlike(words) && plan != [] && changes != [] && Level(plan, changes, words)
    requires Planning(plan, e).Ok? && (e.payload.Show? ==> words(e.payload.shot))
    ensures Level(Planning(plan, e).value, Changing(changes, HeardEntry(e)), words)
  {
    var n := |plan| - 1;
    assert Paired(plan[n].target, changes[n].key, words);
    NextPaired(plan[n].target, changes[n].key, e.payload, words);
  }

  lemma {:induction false} PlansLevel(first: Shot, entries: seq<Entry>, k: nat, words: Shot -> bool)
    requires Accepts(words) && AllToldAlike(words) && words(first) && EntriesKeep(entries, words)
    requires k <= |entries| && PlannedTo(Seen(first), entries, k).Ok?
    ensures Level(PlannedTo(Seen(first), entries, k).value,
                  ChangedTo(Named(first), Sorting.Map(HeardEntry, entries), k), words)
  {
    if k == 0 {
      KeyShape(first, "");
      assert Twins(Seen(first), Named(first), first);
    } else {
      PlansLevel(first, entries, k - 1, words);
      assert entries[k - 1] in entries;
      LevelStep(PlannedTo(Seen(first), entries, k - 1).value,
                ChangedTo(Named(first), Sorting.Map(HeardEntry, entries), k - 1), entries[k - 1], words);
    }
  }

  lemma SceneMatches(scene: Scene, words: Shot -> bool)
    requires Accepts(words) && AllToldAlike(words) && SceneOf(scene, words)
    ensures Matches(scene)
  {
    var shot := scene.shot.value;
    var entries := Entries(shot, scene.actions);
    assert Members(shot)[0] in Members(shot);
    EntriesFromShots(shot, scene.actions, words);
    PlansLevel(Members(shot)[0], entries, |entries|, words);
    Sorting.SortMapped((e: Entry) => e.at, (e: Entry) => e.at, HeardEntry, Declared(shot, scene.actions));
  }

  // ---- if two are not, a scene of the two does not ----

  /** The first shot, scrolled to where the second is, then the second. */
  function Trial(a: Shot, b: Shot): Scene
    requires TargetOf(b).Ok?
  {
    Scene(Some(Sequence([a, b], [0.0, 0.05])), [Scroll(0.0, Seen(b).scroll)])
  }

  function Shift(b: Shot): Entry
    requires TargetOf(b).Ok?
  {
    Entry(0.0, ScrollTo(Seen(b).scroll), Scrolled)
  }

  function Then(b: Shot): Entry { Entry(0.05, Show(b), Member) }

  lemma TrialDeclared(a: Shot, b: Shot)
    requires TargetOf(b).Ok?
    ensures Declared(Trial(a, b).shot.value, Trial(a, b).actions) == [Then(b), Shift(b)]
  {
    var shot, actions := Trial(a, b).shot.value, Trial(a, b).actions;
    assert MemberEntries(shot, 1) == [] && MemberEntries(shot, 2) == [Then(b)];
    Sorting.SortOne((x: Action) => x.at, actions[0]);
    assert ActionEntries(actions, 1) == ActionEntries(actions, 0) + ActionEntry(actions[0]);
  }

  lemma TrialEntries(a: Shot, b: Shot)
    requires TargetOf(b).Ok?
    ensures Entries(Trial(a, b).shot.value, Trial(a, b).actions) == [Shift(b), Then(b)]
  {
    TrialDeclared(a, b);
    Sorting.SortTwo((e: Entry) => e.at, Then(b), Shift(b));
  }

  lemma TwoPlanned(first: Target, x: Entry, y: Entry)
    requires Planning([Planned(0.0, first, [Shown])], x).Ok?
    ensures PlannedTo(first, [x, y], 2) == Planning(Planning([Planned(0.0, first, [Shown])], x).value, y)
  {
    assert PlannedTo(first, [x, y], 0) == Ok([Planned(0.0, first, [Shown])]);
    assert PlannedTo(first, [x, y], 1) == Planning([Planned(0.0, first, [Shown])], x);
  }

  lemma TwoChanged(first: Key, x: Entry, y: Entry)
    ensures ChangedTo(first, [x, y], 2) == Changing(Changing([Transition(0.0, [Shown], first, None)], x), y)
  {
    assert ChangedTo(first, [x, y], 0) == [Transition(0.0, [Shown], first, None)];
    assert ChangedTo(first, [x, y], 1) == Changing([Transition(0.0, [Shown], first, None)], x);
  }

  /** Within the window a state is added just when it is a new one. */
  lemma PlanningGrows(plan: seq<Planned>, e: Entry)
    requires plan != [] && plan[|plan| - 1].at == 0.0 && 0.0 <= e.at <= MERGE_WINDOW
    requires Next(plan[|plan| - 1].target, e.payload).Ok?
    ensures var next, r := Next(plan[|plan| - 1].target, e.payload).value, Planning(plan, e);
            && r.Ok? && |r.value| == |plan| + (if next == plan[|plan| - 1].target then 0 else 1)
            && r.value[|r.value| - 1].target == next && (e.at == 0.0 ==> r.value[|r.value| - 1].at == 0.0)
  {
  }

  lemma ChangingGrows(plan: seq<Transition>, e: Entry)
    requires plan != [] && plan[|plan| - 1].at == 0.0 && 0.0 <= e.at <= MERGE_WINDOW
    ensures var key, r := NextKey(plan[|plan| - 1].key, e.payload), Changing(plan, e);
            && |r| == |plan| + (if key == plan[|plan| - 1].key then 0 else 1)
            && r[|r| - 1].key == key && (e.at == 0.0 ==> r[|r| - 1].at == 0.0)
  {
  }

  /** Two entries within the window of the start, the first at the start. */
  lemma TwoPlans(first: Target, x: Entry, y: Entry)
    requires x.at == 0.0 <= y.at <= MERGE_WINDOW
    requires Next(first, x.payload).Ok? && Next(Next(first, x.payload).value, y.payload).Ok?
    ensures var t := Next(first, x.payload).value;
            var u, r := Next(t, y.payload).value, PlannedTo(first, [x, y], 2);
            r.Ok? && |r.value| == 1 + (if t == first then 0 else 1) + (if u == t then 0 else 1)
  {
    var plan := [Planned(0.0, first, [Shown])];
    PlanningGrows(plan, x);
    PlanningGrows(Planning(plan, x).value, y);
    TwoPlanned(first, x, y);
  }

  lemma TwoChanges(first: Key, x: Entry, y: Entry)
    requires x.at == 0.0 <= y.at <= MERGE_WINDOW
    ensures var k := NextKey(first, x.payload);
            var l, r := NextKey(k, y.payload), ChangedTo(first, [x, y], 2);
            |r| == 1 + (if k == first then 0 else 1) + (if l == k then 0 else 1)
  {
    var plan := [Transition(0.0, [Shown], first, None)];
    ChangingGrows(plan, x);
    ChangingGrows(Changing(plan, x), y);
    TwoChanged(first, x, y);
  }

  lemma TrialPlan(a: Shot, b: Shot)
    requires TargetOf(a).Ok? && TargetOf(b).Ok?
    ensures CapturePlan(Trial(a, b)) == PlannedTo(Seen(a), [Shift(b), Then(b)], 2)
  {
    TrialEntries(a, b);
  }

  lemma TrialChange(a: Shot, b: Shot)
    requires TargetOf(a).Ok? && TargetOf(b).Ok?
    ensures ComposePlan(Trial(a, b)) == ChangedTo(Named(a), [Shift(b), Then(b)], 2)[1..]
  {
    TrialDeclared(a, b);
    assert Sorting.Map(HeardEntry, [Then(b), Shift(b)]) == [Then(b), Shift(b)];
    Sorting.SortTwo((e: Entry) => e.at, Then(b), Shift(b));
  }

  lemma TrialPlans(a: Shot, b: Shot)
    requires TargetOf(a).Ok? && TargetOf(b).Ok? && Seen(a).kind != SlideKind
    ensures CapturePlan(Trial(a, b)).Ok?
    ensures |CapturePlan(Trial(a, b)).value|
            == 1 + (if Seen(a).scroll == Seen(b).scroll then 0 else 1) + (if Still(Seen(a)) == Still(Seen(b)) then 0 else 1)
  {
    TrialPlan(a, b);
    var first := Seen(a);
    TwoPlans(first, Shift(b), Then(b));
    assert Seen(b) == first.(scroll := Seen(b).scroll) <==> Still(Seen(b)) == Still(first);
  }

  lemma TrialChanges(a: Shot, b: Shot)
    requires TargetOf(a).Ok? && TargetOf(b).Ok? && Seen(a).kind != SlideKind
    ensures |ComposePlan(Trial(a, b))|
            == (if Seen(a).scroll == Seen(b).scroll then 0 else 1)
               + (if StillKey(Named(a)) == StillKey(Named(b)) then 0 else 1)
  {
    TrialChange(a, b);
    KeyShape(a, "");
    KindNamesDiffer(Seen(a).kind, SlideKind);
    var first := Named(a);
    TwoChanges(first, Shift(b), Then(b));
    KeyShape(b, first.text);
    assert Named(b) == first.(scroll := Seen(b).scroll) <==> StillKey(Named(b)) == StillKey(first);
  }

  lemma SlidesToldAlike(a: Shot, b: Shot)
    requires TargetOf(a).Ok? && TargetOf(b).Ok? && Seen(a).kind == SlideKind
    ensures ToldAlike(a, b)
  {
    KeyShape(a, "");
    KeyShape(b, "");
    KindNamesDiffer(Seen(a).kind, Seen(b).kind);
    assert StillKey(Named(a)).kind == Named(a).kind && StillKey(Named(b)).kind == Named(b).kind;
    assert StillKey(Named(a)).text == Named(a).text && StillKey(Named(b)).text == Named(b).text;
  }

  lemma TrialTells(a: Shot, b: Shot)
    requires TargetOf(a).Ok? && TargetOf(b).Ok? && !ToldAlike(a, b)
    ensures CapturePlan(Trial(a, b)).Ok? && !Matches(Trial(a, b))
  {
    if Seen(a).kind == SlideKind {
      SlidesToldAlike(a, b);
    } else {
      TrialPlans(a, b);
      TrialChanges(a, b);
    }
  }

  /** Of any set of shots the capture accepts: every scene made of them, with whatever clicks, taps and
      scrolls at whatever times, has matching plans if and only if the two planners tell the same
      pairs of them apart, scrolling aside. */
  lemma VocabularyExactly(words: Shot -> bool)
    requires Accepts(words)
    ensures AllToldAlike(words) <==> forall scene :: MatchesIf(scene, words)
  {
    if AllToldAlike(words) {
      forall scene ensures MatchesIf(scene, words) {
        if SceneOf(scene, words) {
          SceneMatches(scene, words);
        }
      }
    } else {
      var a, b :| words(a) && words(b) && !ToldAlike(a, b);
      TrialTells(a, b);
      assert ShotsKeep(Trial(a, b).shot.value, Trial(a, b).actions, words);
      assert !MatchesIf(Trial(a, b), words);
    }
  }

  // ---- normalised shots, and two that are not ----

  lemma NormalisedToldAlike(a: Shot, b: Shot)
    requires Normalised(a) && Normalised(b) && TargetOf(a).Ok? && TargetOf(b).Ok?
    ensures ToldAlike(a, b)
  {
    TargetHasKey(a, "");
    TargetHasKey(b, "");
    KeysTellApart(Still(Seen(a)), Still(Seen(b)));
    assert KeyOf(Still(Seen(a))) == StillKey(Named(a)) && KeyOf(Still(Seen(b))) == StillKey(Named(b));
  }

  /** A path without its slash beside the same path with it: one state to the capture, two to the
      compositor.  Either spelling alone is harmless. */
  lemma SlashlessPathDisagrees()
    ensures var a, b := Page("log", 0), Page("/log", 0);
            && !ToldAlike(a, b) && CapturePlan(Trial(a, b)).Ok?
            && |CapturePlan(Trial(a, b)).value| == 1 && |ComposePlan(Trial(a, b))| == 1
  {
    var a, b := Page("log", 0), Page("/log", 0);
    assert Slashed("log") == "/log" && Seen(a) == Seen(b);
    assert Named(a).text != Named(b).text;
    TrialPlans(a, b);
    TrialChanges(a, b);
  }

  /** A bar in a pair's state: two states to the capture, one to the compositor. */
  lemma BarInStateDisagrees()
    ensures var a, b := PhonePair("y", "s|x", 0), PhonePair("x|y", "s", 0);
            && !ToldAlike(a, b) && CapturePlan(Trial(a, b)).Ok?
            && |CapturePlan(Trial(a, b)).value| == 2 && |ComposePlan(Trial(a, b))| == 0
  {
    var a, b := PhonePair("y", "s|x", 0), PhonePair("x|y", "s", 0);
    assert "/lens" + "|" + "s|x" + "|" + "y" == "/lens" + "|" + "s" + "|" + "x|y";
    assert Seen(a).scene != Seen(b).scene;
    TrialPlans(a, b);
    TrialChanges(a, b);
  }
}
