/** When the two planners agree, state for state (video/capture.py, video/compose.py). */
module PlannersAgree {
  import opened Options
  import opened Scenes
  import opened Planners
  import Sorting

  // ---- the key of a target, and that it tells targets apart ----

  function KeyOf(t: Target): Key {
    match t.kind
    case SlideKind => Key("slide", t.ref, 0)
    case PageKind => Key("page", t.ref, t.scroll)
    case PhoneKind => Key("phone", t.ref + "|" + t.state, t.scroll)
    case PairKind => Key("phone_pair", t.ref + "|" + t.state + "|" + t.scene, t.scroll)
  }

  /** Fields a kind of target does not use are empty, and no bar hides in what comes before one. */
  predicate Plain(t: Target) {
    match t.kind
    case SlideKind => t.scroll == 0 && t.state == "" && t.scene == ""
    case PageKind => t.state == "" && t.scene == ""
    case PhoneKind => '|' !in t.state && t.scene == ""
    case PairKind => t.ref == "/lens" && '|' !in t.state
  }

  lemma FirstBar(a: string, x: string, b: string, y: string)
    requires a + "|" + x == b + "|" + y && '|' !in a && '|' !in b
    ensures a == b && x == y
  {
    var s := a + "|" + x;
    assert s[|a|] == '|' && s[|b|] == '|';
    assert forall k :: 0 <= k < |a| ==> s[k] != '|';
    assert forall k :: 0 <= k < |b| ==> s[k] != '|';
    assert a == s[..|a|] && x == s[|a| + 1..];
    assert b == s[..|b|] && y == s[|b| + 1..];
  }

  lemma LastBar(a: string, x: string, b: string, y: string)
    requires a + "|" + x == b + "|" + y && '|' !in x && '|' !in y
    ensures a == b && x == y
  {
    var s := a + "|" + x;
    assert s[|a|] == '|' && s[|b|] == '|';
    assert forall k :: |a| < k < |s| ==> s[k] == x[k - |a| - 1];
    assert forall k :: |b| < k < |s| ==> s[k] == y[k - |b| - 1];
    assert a == s[..|a|] && x == s[|a| + 1..];
    assert b == s[..|b|] && y == s[|b| + 1..];
  }

  /** Two targets have the same key just when they are the same target. */
  lemma KeysTellApart(t: Target, u: Target)
    requires Plain(t) && Plain(u)
    ensures KeyOf(t) == KeyOf(u) <==> t == u
  {
    if KeyOf(t) == KeyOf(u) && t.kind == u.kind {
      if t.kind == PhoneKind {
        LastBar(t.ref, t.state, u.ref, u.state);
      } else if t.kind == PairKind {
        assert t.ref + "|" + t.state + "|" + t.scene == t.ref + "|" + (t.state + "|" + t.scene);
        assert u.ref + "|" + u.state + "|" + u.scene == u.ref + "|" + (u.state + "|" + u.scene);
        FirstBar(t.ref, t.state + "|" + t.scene, u.ref, u.state + "|" + u.scene);
        FirstBar(t.state, t.scene, u.state, u.scene);
      }
    }
  }

  // ---- what the script has to keep to ----

  /** Paths begin with a slash, states are written as the capture would rewrite them, and a pair's
      state holds no bar. */
  predicate Normalised(shot: Shot) {
    match shot
    case Slide(_) => true
    case Page(path, _) => Slashed(path) == path
    case Phone(path, state, _) => (path == "" || Slashed(path) == path) && Clean(state) == state
    case PhonePair(_, state, _) => Lower(state) == state && '|' !in state
    case Sequence(shots, _) => shots == [] || Normalised(shots[0])
  }

  lemma StatesHoldNoBar(state: string)
    requires state in STATES
    ensures '|' !in state
  {
    assert state == "scan" || state == "card" || state == "picker" || state == "unknown";
  }

  lemma {:induction false} TargetHasKey(shot: Shot, current: string)
    requires Normalised(shot) && TargetOf(shot).Ok?
    ensures TargetKey(shot, current) == KeyOf(TargetOf(shot).value) && Plain(TargetOf(shot).value)
  {
    match shot
    case Sequence(shots, _) => TargetHasKey(shots[0], current);
    case Phone(path, state, _) =>
      StatesHoldNoBar(state);
      assert Slashed("/lens") == "/lens";
    case PhonePair(_, state, _) => LowerScan();
    case Page(_, _) =>
    case Slide(_) =>
  }

  lemma LowerScan()
    ensures Lower("scan") == "scan"
  {
    var s := "scan";
    assert s[1..] == "can" && "can"[1..] == "an" && "an"[1..] == "n" && "n"[1..] == "";
    assert Lower("") == "" && Lower("n") == "n" && Lower("an") == "an" && Lower("can") == "can";
  }

  /** A single shot written out in full, nothing left to a default. */
  predicate WrittenOut(shot: Shot) {
    match shot
    case Slide(_) => true
    case Page(path, _) => path != ""
    case Phone(path, _, _) => path != ""
    case PhonePair(_, state, _) => state != ""
    case Sequence(_, _) => false
  }

  /** A single shot is accepted exactly with a name, a path, or one of the four screens; a pair always. */
  lemma AcceptedExactly(shot: Shot)
    ensures shot.Slide? ==> (TargetOf(shot).Ok? <==> shot.name != "")
    ensures shot.Page? ==> (TargetOf(shot).Ok? <==> shot.path != "")
    ensures shot.Phone? ==>
              (TargetOf(shot).Ok? <==> Clean(shot.state) in ["scan", "card", "picker", "unknown"])
    ensures shot.PhonePair? ==> TargetOf(shot).Ok?
  {
    assert "" !in STATES by {
      assert |"scan"| == 4 && |"card"| == 4 && |"picker"| == 6 && |"unknown"| == 7;
    }
  }

  /** Neither planner takes two different shots for one: everything a shot says is in its target and in
      its key. */
  lemma ShotsTellApart(a: Shot, b: Shot)
    requires Normalised(a) && WrittenOut(a) && TargetOf(a).Ok? && Normalised(b) && WrittenOut(b) && TargetOf(b).Ok?
    ensures TargetOf(a) == TargetOf(b) <==> a == b
    ensures TargetKey(a, "") == TargetKey(b, "") <==> a == b
  {
    TargetHasKey(a, "");
    TargetHasKey(b, "");
    KeysTellApart(TargetOf(a).value, TargetOf(b).value);
  }

  // ---- agreement ----

  /** A captured state as the compositor describes it. */
  function ViewOf(p: Planned): Transition {
    var heard := Sorting.Map(Heard, p.origins);
    Transition(p.at, heard, KeyOf(p.target), if Scrolled in heard then Some(KeyOf(p.target).scroll) else None)
  }

  ghost predicate Agree(plan: seq<Planned>, changes: seq<Transition>) {
    && |changes| == |plan|
    && forall i :: 0 <= i < |plan| ==> Plain(plan[i].target) && changes[i] == ViewOf(plan[i])
  }

  lemma NextAgrees(t: Target, payload: Payload)
    requires Plain(t) && Next(t, payload).Ok? && (payload.Show? ==> Normalised(payload.shot))
    ensures Plain(Next(t, payload).value) && NextKey(KeyOf(t), payload) == KeyOf(Next(t, payload).value)
    ensures payload.ScrollTo? ==> KeyOf(Next(t, payload).value).scroll == payload.y
  {
    if payload.Show? {
      TargetHasKey(payload.shot, KeyOf(t).text);
    }
  }

  predicate Scrolls(e: Entry) { e.payload.ScrollTo? <==> e.origin == Scrolled || e.origin == PhoneScrolled }

  lemma ViewOfMerged(p: Planned, o: Origin)
    ensures var heard := ViewOf(p).origins + [Heard(o)];
            ViewOf(p.(origins := p.origins + [o]))
            == ViewOf(p).(origins := heard,
                          toY := if Heard(o) == Scrolled then Some(KeyOf(p.target).scroll) else ViewOf(p).toY)
  {
    Sorting.MapSnoc(Heard, p.origins, o);
  }

  lemma ViewOfNew(at: real, t: Target, o: Origin)
    ensures ViewOf(Planned(at, t, [o]))
            == Transition(at, [Heard(o)], KeyOf(t), if Heard(o) == Scrolled then Some(KeyOf(t).scroll) else None)
  {
    Sorting.MapSnoc(Heard, [], o);
    assert [] + [o] == [o];
  }

  lemma AgreeMerged(plan: seq<Planned>, changes: seq<Transition>, p: Planned)
    requires plan != [] && Agree(plan, changes) && Plain(p.target)
    ensures Agree(plan[|plan| - 1 := p], changes[|plan| - 1 := ViewOf(p)])
  {
  }

  lemma AgreeSnoc(plan: seq<Planned>, changes: seq<Transition>, p: Planned)
    requires Agree(plan, changes) && Plain(p.target)
    ensures Agree(plan + [p], changes + [ViewOf(p)])
  {
  }

  lemma StepAgrees(plan: seq<Planned>, changes: seq<Transition>, e: Entry)
    requires plan != [] && changes != [] && Agree(plan, changes) && Planning(plan, e).Ok?
    requires Scrolls(e) && (e.payload.Show? ==> Normalised(e.payload.shot))
    ensures Agree(Planning(plan, e).value, Changing(changes, HeardEntry(e)))
  {
    var n := |plan| - 1;
    var last := plan[n];
    assert changes[n] == ViewOf(last) && Plain(last.target);
    NextAgrees(last.target, e.payload);
    var next := Next(last.target, e.payload).value;
    KeysTellApart(next, last.target);
    if next == last.target && e.at - last.at <= MERGE_WINDOW {
      var merged := last.(origins := last.origins + [e.origin]);
      ViewOfMerged(last, e.origin);
      AgreeMerged(plan, changes, merged);
      assert Changing(changes, HeardEntry(e)) == changes[n := ViewOf(merged)];
    } else {
      ViewOfNew(e.at, next, e.origin);
      AgreeSnoc(plan, changes, Planned(e.at, next, [e.origin]));
    }
  }

  lemma {:induction false} PlansAgree(first: Target, entries: seq<Entry>, k: nat)
    requires k <= |entries| && Plain(first) && PlannedTo(first, entries, k).Ok?
    requires EntriesKeep(entries, Normalised) && forall e :: e in entries ==> Scrolls(e)
    ensures Agree(PlannedTo(first, entries, k).value, ChangedTo(KeyOf(first), Sorting.Map(HeardEntry, entries), k))
  {
    if k == 0 {
      ViewOfNew(0.0, first, Shown);
    } else {
      PlansAgree(first, entries, k - 1);
      assert entries[k - 1] in entries;
      StepAgrees(PlannedTo(first, entries, k - 1).value,
                 ChangedTo(KeyOf(first), Sorting.Map(HeardEntry, entries), k - 1), entries[k - 1]);
    }
  }

  lemma {:induction false} MembersScroll(shot: Shot, n: nat)
    requires 1 <= n <= |Members(shot)|
    ensures forall e :: e in MemberEntries(shot, n) ==> Scrolls(e)
  {
    if n > 1 {
      MembersScroll(shot, n - 1);
    }
  }

  lemma {:induction false} ActionsScroll(actions: seq<Action>, n: nat)
    requires n <= |actions|
    ensures forall e :: e in ActionEntries(actions, n) ==> Scrolls(e)
  {
    if n > 0 {
      ActionsScroll(actions, n - 1);
      assert forall e :: e in ActionEntry(actions[n - 1]) ==> Scrolls(e);
    }
  }

  lemma EntriesScroll(shot: Shot, actions: seq<Action>)
    requires Members(shot) != []
    ensures forall e :: e in Entries(shot, actions) ==> Scrolls(e)
  {
    MembersScroll(shot, |Members(shot)|);
    ActionsScroll(Sorting.SortBy((a: Action) => a.at, actions), |actions|);
    Sorting.SortBySorts((e: Entry) => e.at, Declared(shot, actions));
  }

  /** For every scene the capture accepts and whose shots are normalised, the compositor finds as
      many states; and its change `k` is the capture's state `k + 1`: same time, same target, same
      declarations. */
  lemma PlannersAgree(scene: Scene)
    requires CapturePlan(scene).Ok? && ShotsKeep(scene.shot.value, scene.actions, Normalised)
    ensures var states, changes := CapturePlan(scene).value, ComposePlan(scene);
            && |changes| == |states| - 1
            && forall k :: 0 <= k < |changes| ==> Plain(states[k + 1].target) && changes[k] == ViewOf(states[k + 1])
  {
    var shot := scene.shot.value;
    var entries := Entries(shot, scene.actions);
    var first := TargetOf(Members(shot)[0]).value;
    assert Members(shot)[0] in Members(shot);
    TargetHasKey(Members(shot)[0], "");
    EntriesFromShots(shot, scene.actions, Normalised);
    EntriesScroll(shot, scene.actions);
    PlansAgree(first, entries, |entries|);
    Sorting.SortMapped((e: Entry) => e.at, (e: Entry) => e.at, HeardEntry, Declared(shot, scene.actions));
  }

  // ---- what a plan looks like ----

  /** Neighbours are different targets or more than the window apart, and after the first, times
      never go back. */
  ghost predicate Merged(plan: seq<Planned>) {
    && (forall i :: 0 < i < |plan| ==>
          plan[i].target != plan[i - 1].target || plan[i].at - plan[i - 1].at > MERGE_WINDOW)
    && (forall i, j :: 1 <= i < j < |plan| ==> plan[i].at <= plan[j].at)
  }

  lemma PlanningMerges(plan: seq<Planned>, e: Entry)
    requires plan != [] && Merged(plan) && (|plan| > 1 ==> plan[|plan| - 1].at <= e.at) && Planning(plan, e).Ok?
    ensures var r := Planning(plan, e).value;
            && Merged(r) && (|r| > 1 ==> r[|r| - 1].at <= e.at)
            && (e.payload.Show? ==> TargetOf(e.payload.shot) == Ok(r[|r| - 1].target))
  {
  }

  lemma {:induction false} PlanIsMerged(first: Target, entries: seq<Entry>, k: nat)
    requires k <= |entries| && PlannedTo(first, entries, k).Ok?
    requires forall i, j :: 0 <= i < j < |entries| ==> entries[i].at <= entries[j].at
    ensures var plan := PlannedTo(first, entries, k).value;
            && Merged(plan)
            && (|plan| > 1 ==> k > 0 && plan[|plan| - 1].at <= entries[k - 1].at)
            && (k > 0 && entries[k - 1].payload.Show? ==>
                  TargetOf(entries[k - 1].payload.shot) == Ok(plan[|plan| - 1].target))
  {
    if k > 0 {
      PlanIsMerged(first, entries, k - 1);
      PlanningMerges(PlannedTo(first, entries, k - 1).value, entries[k - 1]);
    }
  }

  /** No state of a plan repeats its neighbour within the window, and the narration ends on what was
      declared last. */
  lemma StatesInOrder(scene: Scene)
    requires CapturePlan(scene).Ok?
    ensures var states := CapturePlan(scene).value;
            var entries := Entries(scene.shot.value, scene.actions);
            && Merged(states)
            && (entries != [] && entries[|entries| - 1].payload.Show? ==>
                  TargetOf(entries[|entries| - 1].payload.shot) == Ok(states[|states| - 1].target))
  {
    var entries := Entries(scene.shot.value, scene.actions);
    Sorting.SortBySorts((e: Entry) => e.at, Declared(scene.shot.value, scene.actions));
    PlanIsMerged(TargetOf(Members(scene.shot.value)[0]).value, entries, |entries|);
  }
}
