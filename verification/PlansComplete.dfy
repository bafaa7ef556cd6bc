/** Every state a scene declares is in the plan of each planner, and every state of a plan was declared
    (video/capture.py, video/compose.py). */
module PlansComplete {
  import opened Options
  import opened Scenes
  import opened Planners
  import opened PlannersAgree
  import Sorting

  ghost predicate InOrder(entries: seq<Entry>) {
    forall i, j :: 0 <= i < j < |entries| ==> entries[i].at <= entries[j].at
  }

  function OriginsOf(entries: seq<Entry>): (origins: seq<Origin>)
    ensures |origins| == |entries| && forall k :: 0 <= k < |entries| ==> origins[k] == entries[k].origin
  {
    seq(|entries|, k requires 0 <= k < |entries| => entries[k].origin)
  }

  lemma OriginsOn(entries: seq<Entry>, n: nat)
    requires n < |entries|
    ensures [Shown] + OriginsOf(entries[..n + 1]) == [Shown] + OriginsOf(entries[..n]) + [entries[n].origin]
  {
    assert OriginsOf(entries[..n + 1]) == OriginsOf(entries[..n]) + [entries[n].origin];
  }

  // ---- the capture ----

  /** The target is what the entry asks for. */
  predicate Asked(t: Target, payload: Payload) {
    match payload
    case Show(shot) => TargetOf(shot) == Ok(t)
    case ScrollTo(y) => t.scroll == y && t.kind != SlideKind
  }

  /** State `i` has the entry among its declarations, is what it asks for, and came up at its time or, if
      the entry was merged, no more than a tenth before. */
  predicate Holds(states: seq<Planned>, i: int, e: Entry) {
    && 0 <= i < |states| && e.origin in states[i].origins && Asked(states[i].target, e.payload)
    && e.at - states[i].at <= 0.10 && (i > 0 ==> states[i].at <= e.at)
  }

  lemma PlanningHolds(plan: seq<Planned>, e: Entry)
    requires plan != [] && Planning(plan, e).Ok? && (|plan| > 1 ==> plan[|plan| - 1].at <= e.at)
    ensures var r := Planning(plan, e).value; Holds(r, |r| - 1, e)
  {
    var r, n := Planning(plan, e).value, |plan| - 1;
    assert Next(plan[n].target, e.payload).Ok? && Asked(Next(plan[n].target, e.payload).value, e.payload);
    assert e.origin in plan[n].origins + [e.origin];
  }

  lemma PlanningKeeps(plan: seq<Planned>, e: Entry, i: int, old': Entry)
    requires plan != [] && Planning(plan, e).Ok? && Holds(plan, i, old')
    ensures Holds(Planning(plan, e).value, i, old')
  {
  }

  /** Each entry read so far has its state. */
  lemma {:induction false} EntryHeld(first: Target, entries: seq<Entry>, n: nat, k: nat) returns (i: nat)
    requires k < n <= |entries| && PlannedTo(first, entries, n).Ok? && InOrder(entries)
    ensures Holds(PlannedTo(first, entries, n).value, i, entries[k])
    decreases n
  {
    var before := PlannedTo(first, entries, n - 1).value;
    if k == n - 1 {
      PlanIsMerged(first, entries, n - 1);
      PlanningHolds(before, entries[k]);
      i := |PlannedTo(first, entries, n).value| - 1;
    } else {
      i := EntryHeld(first, entries, n - 1, k);
      PlanningKeeps(before, entries[n - 1], i, entries[k]);
    }
  }

  /** A state after the first is what some entry asks for, at that entry's time. */
  predicate Made(p: Planned, e: Entry) {
    p.at == e.at && p.origins != [] && p.origins[0] == e.origin && Asked(p.target, e.payload)
  }

  lemma {:induction false} StateMade(first: Target, entries: seq<Entry>, n: nat, i: nat) returns (k: nat)
    requires n <= |entries| && PlannedTo(first, entries, n).Ok? && 0 < i < |PlannedTo(first, entries, n).value|
    ensures k < n && Made(PlannedTo(first, entries, n).value[i], entries[k])
    decreases n
  {
    var before := PlannedTo(first, entries, n - 1).value;
    if i < |before| {
      k := StateMade(first, entries, n - 1, i);
    } else {
      k := n - 1;
    }
  }

  lemma {:induction false} FirstStays(first: Target, entries: seq<Entry>, n: nat)
    requires n <= |entries| && PlannedTo(first, entries, n).Ok?
    ensures var opening := PlannedTo(first, entries, n).value[0]; opening.at == 0.0 && opening.target == first
  {
    if n > 0 {
      FirstStays(first, entries, n - 1);
    }
  }

  /** All declarations of a plan's states, in turn. */
  function Origins(states: seq<Planned>): seq<Origin> {
    if states == [] then [] else Origins(states[..|states| - 1]) + states[|states| - 1].origins
  }

  lemma PlanningOrigins(plan: seq<Planned>, e: Entry)
    requires plan != [] && Planning(plan, e).Ok?
    ensures Origins(Planning(plan, e).value) == Origins(plan) + [e.origin]
  {
    var r, n := Planning(plan, e).value, |plan| - 1;
    if |r| == |plan| {
      assert r[..n] == plan[..n];
    } else {
      assert r[..n + 1] == plan;
    }
  }

  lemma OriginsOfOne(p: Planned)
    ensures Origins([p]) == p.origins
  {
    assert [p][..0] == [] && [] + p.origins == p.origins;
  }

  lemma {:induction false} OriginsTo(first: Target, entries: seq<Entry>, n: nat)
    requires n <= |entries| && PlannedTo(first, entries, n).Ok?
    ensures Origins(PlannedTo(first, entries, n).value) == [Shown] + OriginsOf(entries[..n])
  {
    if n == 0 {
      OriginsOfOne(Planned(0.0, first, [Shown]));
      assert [Shown] + OriginsOf(entries[..0]) == [Shown];
    } else {
      var k := n - 1;
      var before := PlannedTo(first, entries, k).value;
      OriginsTo(first, entries, k);
      PlanningOrigins(before, entries[k]);
      OriginsOn(entries, k);
    }
  }

  ghost predicate AllHeld(states: seq<Planned>, entries: seq<Entry>) {
    forall k :: 0 <= k < |entries| ==> HeldByOne(states, entries[k])
  }

  ghost predicate HeldByOne(states: seq<Planned>, e: Entry) { exists i :: Holds(states, i, e) }

  ghost predicate AllMade(states: seq<Planned>, entries: seq<Entry>) {
    forall i :: 0 < i < |states| ==> MadeByOne(states[i], entries)
  }

  ghost predicate MadeByOne(p: Planned, entries: seq<Entry>) {
    exists k :: 0 <= k < |entries| && Made(p, entries[k])
  }

  lemma EntriesHeld(first: Target, entries: seq<Entry>)
    requires PlannedTo(first, entries, |entries|).Ok? && InOrder(entries)
    ensures AllHeld(PlannedTo(first, entries, |entries|).value, entries)
  {
    var states := PlannedTo(first, entries, |entries|).value;
    forall k | 0 <= k < |entries| ensures HeldByOne(states, entries[k]) {
      var i := EntryHeld(first, entries, |entries|, k);
      assert Holds(states, i, entries[k]);
    }
  }

  lemma StatesMade(first: Target, entries: seq<Entry>)
    requires PlannedTo(first, entries, |entries|).Ok?
    ensures AllMade(PlannedTo(first, entries, |entries|).value, entries)
  {
    var states := PlannedTo(first, entries, |entries|).value;
    forall i | 0 < i < |states| ensures MadeByOne(states[i], entries) {
      var k := StateMade(first, entries, |entries|, i);
      assert Made(states[i], entries[k]);
    }
  }

  /** The capture's plan opens with the scene's first shot; every entry has a state that is what it asks
      for; every other state was made by an entry; and the states' declarations are the opening and
      the entries', one for one, in order. */
  lemma StatesAreDeclared(scene: Scene)
    requires CapturePlan(scene).Ok?
    ensures var states, entries := CapturePlan(scene).value, Entries(scene.shot.value, scene.actions);
            && states[0].at == 0.0 && TargetOf(Members(scene.shot.value)[0]) == Ok(states[0].target)
            && AllHeld(states, entries) && AllMade(states, entries)
            && Origins(states) == [Shown] + OriginsOf(entries)
  {
    var entries := Entries(scene.shot.value, scene.actions);
    var first := TargetOf(Members(scene.shot.value)[0]).value;
    Sorting.SortBySorts((e: Entry) => e.at, Declared(scene.shot.value, scene.actions));
    FirstStays(first, entries, |entries|);
    EntriesHeld(first, entries);
    StatesMade(first, entries);
    OriginsTo(first, entries, |entries|);
    assert entries[..|entries|] == entries;
  }

  // ---- the compositor ----

  /** The key is what the entry asks for; only a page without a path takes what is on screen. */
  ghost predicate AskedKey(key: Key, payload: Payload) {
    match payload
    case Show(shot) => exists current: string :: key == TargetKey(shot, current)
    case ScrollTo(y) => key.scroll == y && key.kind != "slide"
  }

  ghost predicate HoldsKey(plan: seq<Transition>, i: int, e: Entry) {
    && 0 <= i < |plan| && e.origin in plan[i].origins && AskedKey(plan[i].key, e.payload)
    && e.at - plan[i].at <= 0.10 && (i > 0 ==> plan[i].at <= e.at)
  }

  lemma NextIsAsked(current: Key, payload: Payload)
    ensures AskedKey(NextKey(current, payload), payload)
  {
  }

  lemma ChangingHolds(plan: seq<Transition>, e: Entry)
    requires plan != [] && (|plan| > 1 ==> plan[|plan| - 1].at <= e.at)
    ensures var r := Changing(plan, e); HoldsKey(r, |r| - 1, e)
  {
    var n := |plan| - 1;
    NextIsAsked(plan[n].key, e.payload);
    assert e.origin in plan[n].origins + [e.origin];
  }

  lemma ChangingKeeps(plan: seq<Transition>, e: Entry, i: int, other: Entry)
    requires plan != [] && HoldsKey(plan, i, other)
    ensures HoldsKey(Changing(plan, e), i, other)
  {
    var r := Changing(plan, e);
    assert r[i].key == plan[i].key && r[i].at == plan[i].at && plan[i].origins <= r[i].origins;
  }

  lemma {:induction false} ChangesInTime(first: Key, entries: seq<Entry>, n: nat)
    requires n <= |entries| && InOrder(entries)
    ensures var plan := ChangedTo(first, entries, n);
            |plan| > 1 ==> n > 0 && plan[|plan| - 1].at <= entries[n - 1].at
  {
    if n > 0 {
      ChangesInTime(first, entries, n - 1);
    }
  }

  lemma {:induction false} EntryHeard(first: Key, entries: seq<Entry>, n: nat, k: nat) returns (i: nat)
    requires k < n <= |entries| && InOrder(entries)
    ensures HoldsKey(ChangedTo(first, entries, n), i, entries[k])
    decreases n
  {
    var before := ChangedTo(first, entries, n - 1);
    if k == n - 1 {
      ChangesInTime(first, entries, n - 1);
      ChangingHolds(before, entries[k]);
      i := |ChangedTo(first, entries, n)| - 1;
    } else {
      i := EntryHeard(first, entries, n - 1, k);
      ChangingKeeps(before, entries[n - 1], i, entries[k]);
    }
  }

  ghost predicate MadeKey(c: Transition, e: Entry) {
    c.at == e.at && c.origins != [] && c.origins[0] == e.origin && AskedKey(c.key, e.payload)
  }

  lemma ChangingMakes(plan: seq<Transition>, e: Entry, i: nat)
    requires plan != [] && i < |Changing(plan, e)|
    ensures i >= |plan| ==> MadeKey(Changing(plan, e)[i], e)
    ensures i < |plan| && plan[i].origins != [] ==>
              var c := Changing(plan, e)[i];
              c.at == plan[i].at && c.key == plan[i].key && c.origins != [] && c.origins[0] == plan[i].origins[0]
  {
    NextIsAsked(plan[|plan| - 1].key, e.payload);
  }

  lemma {:induction false} ChangeMade(first: Key, entries: seq<Entry>, n: nat, i: nat) returns (k: nat)
    requires n <= |entries| && 0 < i < |ChangedTo(first, entries, n)|
    ensures k < n && MadeKey(ChangedTo(first, entries, n)[i], entries[k])
    decreases n
  {
    var before := ChangedTo(first, entries, n - 1);
    ChangingMakes(before, entries[n - 1], i);
    if i < |before| {
      k := ChangeMade(first, entries, n - 1, i);
    } else {
      k := n - 1;
    }
  }

  lemma {:induction false} OpeningStays(first: Key, entries: seq<Entry>, n: nat)
    requires n <= |entries|
    ensures var opening := ChangedTo(first, entries, n)[0]; opening.at == 0.0 && opening.key == first
  {
    if n > 0 {
      OpeningStays(first, entries, n - 1);
    }
  }

  /** The declarations of a plan's changes, in turn. */
  function ChangeOrigins(plan: seq<Transition>): seq<Origin> {
    if plan == [] then [] else ChangeOrigins(plan[..|plan| - 1]) + plan[|plan| - 1].origins
  }

  lemma ChangingOrigins(plan: seq<Transition>, e: Entry)
    requires plan != []
    ensures ChangeOrigins(Changing(plan, e)) == ChangeOrigins(plan) + [e.origin]
  {
    var r, n := Changing(plan, e), |plan| - 1;
    if |r| == |plan| {
      assert r[..n] == plan[..n];
    } else {
      assert r[..n + 1] == plan;
    }
  }

  lemma ChangeOriginsOfOne(c: Transition)
    ensures ChangeOrigins([c]) == c.origins
  {
    assert [c][..0] == [] && [] + c.origins == c.origins;
  }

  lemma {:induction false} ChangeOriginsTo(first: Key, entries: seq<Entry>, n: nat)
    requires n <= |entries|
    ensures ChangeOrigins(ChangedTo(first, entries, n)) == [Shown] + OriginsOf(entries[..n])
  {
    if n == 0 {
      ChangeOriginsOfOne(Transition(0.0, [Shown], first, None));
      assert [Shown] + OriginsOf(entries[..0]) == [Shown];
    } else {
      var k := n - 1;
      ChangeOriginsTo(first, entries, k);
      ChangingOrigins(ChangedTo(first, entries, k), entries[k]);
      OriginsOn(entries, k);
    }
  }

  ghost predicate AllHeardIn(plan: seq<Transition>, entries: seq<Entry>) {
    forall k :: 0 <= k < |entries| ==> HeardByOne(plan, entries[k])
  }

  ghost predicate HeardByOne(plan: seq<Transition>, e: Entry) { exists i :: HoldsKey(plan, i, e) }

  ghost predicate AllChangesMade(plan: seq<Transition>, entries: seq<Entry>) {
    forall i :: 0 < i < |plan| ==> ChangeMadeByOne(plan[i], entries)
  }

  ghost predicate ChangeMadeByOne(c: Transition, entries: seq<Entry>) {
    exists k :: 0 <= k < |entries| && MadeKey(c, entries[k])
  }

  lemma EntriesHeard(first: Key, entries: seq<Entry>)
    requires InOrder(entries)
    ensures AllHeardIn(ChangedTo(first, entries, |entries|), entries)
  {
    var plan := ChangedTo(first, entries, |entries|);
    forall k | 0 <= k < |entries| ensures HeardByOne(plan, entries[k]) {
      var i := EntryHeard(first, entries, |entries|, k);
      assert HoldsKey(plan, i, entries[k]);
    }
  }

  lemma ChangesMade(first: Key, entries: seq<Entry>)
    ensures AllChangesMade(ChangedTo(first, entries, |entries|), entries)
  {
    var plan := ChangedTo(first, entries, |entries|);
    forall i | 0 < i < |plan| ensures ChangeMadeByOne(plan[i], entries) {
      var k := ChangeMade(first, entries, |entries|, i);
      assert MadeKey(plan[i], entries[k]);
    }
  }

  /** A plan that opens with `first`, and has every entry and nothing else. */
  ghost predicate PlanOf(plan: seq<Transition>, first: Key, entries: seq<Entry>) {
    match first
    case Key(_, _, _) =>
      && plan != [] && plan[0].at == 0.0 && plan[0].key == first
      && AllHeardIn(plan, entries) && AllChangesMade(plan, entries)
      && ChangeOrigins(plan) == [Shown] + OriginsOf(entries)
  }

  lemma ChangedIsPlanOf(first: Key, entries: seq<Entry>)
    requires InOrder(entries)
    ensures PlanOf(ChangedTo(first, entries, |entries|), first, entries)
  {
    OpeningStays(first, entries, |entries|);
    EntriesHeard(first, entries);
    ChangesMade(first, entries);
    ChangeOriginsTo(first, entries, |entries|);
    assert entries[..|entries|] == entries;
  }

  lemma HeardInOrder(shot: Shot, actions: seq<Action>)
    requires Members(shot) != []
    ensures InOrder(Sorting.Map(HeardEntry, Entries(shot, actions)))
  {
    Sorting.SortBySorts((e: Entry) => e.at, Declared(shot, actions));
  }

  lemma ComposedOf(scene: Scene, heard: seq<Entry>)
    requires scene.shot.Some? && Members(scene.shot.value) != []
    requires heard == Sorting.Map(HeardEntry, Entries(scene.shot.value, scene.actions))
    ensures ComposePlan(scene) == ChangedTo(TargetKey(Members(scene.shot.value)[0], ""), heard, |heard|)[1..]
  {
    Sorting.SortMapped((e: Entry) => e.at, (e: Entry) => e.at, HeardEntry, Declared(scene.shot.value, scene.actions));
  }

  lemma PlanWithOpening(first: Key, heard: seq<Entry>, changes: seq<Transition>) returns (opening: Transition)
    requires InOrder(heard) && changes == ChangedTo(first, heard, |heard|)[1..]
    ensures PlanOf([opening] + changes, first, heard)
  {
    var plan := ChangedTo(first, heard, |heard|);
    opening := plan[0];
    assert [opening] + changes == plan;
    ChangedIsPlanOf(first, heard);
  }

  /** The same of the compositor's changes, with the opening it leaves out put back in front: it hears
      the entries the capture reads, the two kinds of scrolling as one. */
  lemma ChangesAreDeclared(scene: Scene) returns (opening: Transition)
    requires scene.shot.Some? && Members(scene.shot.value) != []
    ensures PlanOf([opening] + ComposePlan(scene), TargetKey(Members(scene.shot.value)[0], ""),
                   Sorting.Map(HeardEntry, Entries(scene.shot.value, scene.actions)))
  {
    var heard := Sorting.Map(HeardEntry, Entries(scene.shot.value, scene.actions));
    HeardInOrder(scene.shot.value, scene.actions);
    ComposedOf(scene, heard);
    opening := PlanWithOpening(TargetKey(Members(scene.shot.value)[0], ""), heard, ComposePlan(scene));
  }

  // ---- the end of the scene ----

  /** The last thing declared is what is on screen at the end. */
  lemma EndsOnLast(scene: Scene)
    requires CapturePlan(scene).Ok? && Entries(scene.shot.value, scene.actions) != []
    ensures var states, entries := CapturePlan(scene).value, Entries(scene.shot.value, scene.actions);
            states != [] && Asked(states[|states| - 1].target, entries[|entries| - 1].payload)
  {
    var entries := Entries(scene.shot.value, scene.actions);
    var first := TargetOf(Members(scene.shot.value)[0]).value;
    var n := |entries| - 1;
    Sorting.SortBySorts((e: Entry) => e.at, Declared(scene.shot.value, scene.actions));
    PlanIsMerged(first, entries, n);
    PlanningHolds(PlannedTo(first, entries, n).value, entries[n]);
  }
}
