/** The state planners of the capture (video/capture.py) and of the compositor (video/compose.py).
    The compositor finds the picture for its change `k` at position `k + 1` of the capture's list. */
module Planners {
  import opened Options
  import opened Scenes
  import Sorting
  import Words

  const MERGE_WINDOW := 0.10
  const STATES := ["scan", "card", "picker", "unknown"]

  function Or(s: string, default: string): string { if s == "" then default else s }

  // ---- capture.py ----

  datatype Kind = SlideKind | PageKind | PhoneKind | PairKind

  datatype Target = Target(kind: Kind, ref: string, scroll: int, state: string, scene: string)

  datatype Planned = Planned(at: real, target: Target, origins: seq<Origin>)

  datatype CaptureError =
    | NoShot | EmptySequence | EmptyNested | NoSlideName | NoPagePath | NoPhoneState | UnknownPhoneState
    | NothingToScroll

  function Slashed(path: string): string { if path != "" && path[0] == '/' then path else "/" + path }

  function Lower(s: string): (r: string)
    ensures |r| == |s|
  {
    if s == "" then "" else [if 'A' <= s[0] <= 'Z' then s[0] + 32 as char else s[0]] + Lower(s[1..])
  }

  function Strip(s: string): string
    decreases |s|
  {
    if s != "" && Words.IsSpace(s[0]) then Strip(s[1..])
    else if s != "" && Words.IsSpace(s[|s| - 1]) then Strip(s[..|s| - 1])
    else s
  }

  function Clean(state: string): string { Lower(Strip(state)) }

  /** `_target_of` */
  function TargetOf(shot: Shot): Result<Target, CaptureError> {
    match shot
    case Slide(name) => if name == "" then Err(NoSlideName) else Ok(Target(SlideKind, name, 0, "", ""))
    case PhonePair(png, state, scroll) => Ok(Target(PairKind, "/lens", scroll, Lower(Or(state, "scan")), png))
    case Phone(path, state, scroll) =>
      if Clean(state) == "" then Err(NoPhoneState)
      else if Clean(state) !in STATES then Err(UnknownPhoneState)
      else Ok(Target(PhoneKind, Slashed(Or(path, "/lens")), scroll, Clean(state), ""))
    case Sequence(shots, _) => if shots == [] then Err(EmptyNested) else TargetOf(shots[0])
    case Page(path, scroll) => if path == "" then Err(NoPagePath) else Ok(Target(PageKind, Slashed(path), scroll, "", ""))
  }

  /** What an entry puts on screen, given what is on screen. */
  function Next(current: Target, payload: Payload): Result<Target, CaptureError> {
    match payload
    case ScrollTo(y) => if current.kind == SlideKind then Err(NothingToScroll) else Ok(current.(scroll := y))
    case Show(shot) => TargetOf(shot)
  }

  function Planning(plan: seq<Planned>, e: Entry): (r: Result<seq<Planned>, CaptureError>)
    requires plan != []
    ensures r.Ok? ==> r.value != []
  {
    var n := |plan| - 1;
    var next := Next(plan[n].target, e.payload);
    if next.Err? then Err(next.error)
    else if next.value == plan[n].target && e.at - plan[n].at <= MERGE_WINDOW then
      Ok(plan[n := plan[n].(origins := plan[n].origins + [e.origin])])
    else Ok(plan + [Planned(e.at, next.value, [e.origin])])
  }

  function PlannedTo(first: Target, entries: seq<Entry>, k: nat): (r: Result<seq<Planned>, CaptureError>)
    requires k <= |entries|
    ensures r.Ok? ==> r.value != []
  {
    if k == 0 then Ok([Planned(0.0, first, [Shown])])
    else
      var before := PlannedTo(first, entries, k - 1);
      if before.Err? then before else Planning(before.value, entries[k - 1])
  }

  function CapturePlan(scene: Scene): Result<seq<Planned>, CaptureError> {
    if scene.shot.None? then Err(NoShot)
    else if Members(scene.shot.value) == [] then Err(EmptySequence)
    else
      var first := TargetOf(Members(scene.shot.value)[0]);
      if first.Err? then Err(first.error)
      else
        var entries := Entries(scene.shot.value, scene.actions);
        PlannedTo(first.value, entries, |entries|)
  }

  method DeclareActions(sorted: seq<Action>) returns (declared: seq<Entry>)
    ensures declared == ActionEntries(sorted, |sorted|)
  {
    declared := [];
    for i := 0 to |sorted|
      invariant declared == ActionEntries(sorted, i)
    {
      match sorted[i] {
        case Click(at, next) =>
          if next.Some? { declared := declared + [Entry(at, Show(next.value), Clicked)]; }
        case Tap(at, next) =>
          if next.Some? { declared := declared + [Entry(at, Show(next.value), Tapped)]; }
        case Scroll(at, y) => declared := declared + [Entry(at, ScrollTo(y), Scrolled)];
        case PhoneScroll(at, y) => declared := declared + [Entry(at, ScrollTo(y), PhoneScrolled)];
        case Other(_) =>
      }
    }
  }

  method DeclareStates(shot: Shot, actions: seq<Action>) returns (declared: seq<Entry>)
    requires Members(shot) != []
    ensures declared == Declared(shot, actions)
  {
    var members, ats := Members(shot), Ats(shot);
    declared := [];
    for i := 1 to |members|
      invariant declared == MemberEntries(shot, i)
    {
      var at := if |ats| == |members| then ats[i] else i as real / |members| as real;
      declared := declared + [Entry(at, Show(members[i]), Member)];
    }
    var more := DeclareActions(Sorting.SortBy((a: Action) => a.at, actions));
    declared := declared + more;
  }

  /** `plan_states` */
  method PlanStates(scene: Scene) returns (planned: Result<seq<Planned>, CaptureError>)
    ensures planned == CapturePlan(scene)
  {
    if scene.shot.None? {
      return Err(NoShot);
    }
    var shot := scene.shot.value;
    if Members(shot) == [] {
      return Err(EmptySequence);
    }
    var declared := DeclareStates(shot, scene.actions);
    var entries := Sorting.SortBy((e: Entry) => e.at, declared);
    var first := TargetOf(Members(shot)[0]);
    if first.Err? {
      return Err(first.error);
    }
    var plan, current := [Planned(0.0, first.value, [Shown])], first.value;
    for k := 0 to |entries|
      invariant plan != [] && current == plan[|plan| - 1].target
      invariant PlannedTo(first.value, entries, k) == Ok(plan)
    {
      var next := Next(current, entries[k].payload);
      if next.Err? {
        PlanStops(first.value, entries, k + 1, |entries|);
        return Err(next.error);
      }
      var previous := plan[|plan| - 1];
      if next.value == previous.target && entries[k].at - previous.at <= MERGE_WINDOW {
        plan := plan[|plan| - 1 := previous.(origins := previous.origins + [entries[k].origin])];
      } else {
        plan, current := plan + [Planned(entries[k].at, next.value, [entries[k].origin])], next.value;
      }
    }
    return Ok(plan);
  }

  lemma {:induction false} PlanStops(first: Target, entries: seq<Entry>, k: nat, n: nat)
    requires k <= n <= |entries| && PlannedTo(first, entries, k).Err?
    ensures PlannedTo(first, entries, n) == PlannedTo(first, entries, k)
    decreases n
  {
    if k < n {
      PlanStops(first, entries, k, n - 1);
    }
  }

  // ---- compose.py ----

  datatype Key = Key(kind: string, text: string, scroll: int)

  datatype Transition = Transition(at: real, origins: seq<Origin>, key: Key, toY: Option<int>)

  /** `_target_key` */
  function TargetKey(shot: Shot, current: string): Key {
    match shot
    case Slide(name) => Key("slide", name, 0)
    case Sequence(shots, _) => if shots == [] then Key("page", "/", 0) else TargetKey(shots[0], current)
    case PhonePair(png, state, scroll) => Key("phone_pair", "/lens" + "|" + Or(state, "scan") + "|" + png, scroll)
    case Phone(path, state, scroll) => Key("phone", Or(path, "/lens") + "|" + state, scroll)
    case Page(path, scroll) => Key("page", Or(path, Or(current, "/")), scroll)
  }

  function NextKey(current: Key, payload: Payload): Key {
    match payload
    case ScrollTo(y) => Key(if current.kind == "slide" then "page" else current.kind, current.text, y)
    case Show(shot) => TargetKey(shot, current.text)
  }

  function Changing(plan: seq<Transition>, e: Entry): (r: seq<Transition>)
    requires plan != []
    ensures r != []
  {
    var n := |plan| - 1;
    var key := NextKey(plan[n].key, e.payload);
    var toY := if e.payload.ScrollTo? then Some(e.payload.y) else None;
    if key == plan[n].key && e.at - plan[n].at <= MERGE_WINDOW then
      plan[n := plan[n].(origins := plan[n].origins + [e.origin],
                         toY := if e.origin == Scrolled then toY else plan[n].toY)]
    else plan + [Transition(e.at, [e.origin], key, if e.origin == Scrolled then toY else None)]
  }

  function ChangedTo(first: Key, entries: seq<Entry>, k: nat): (r: seq<Transition>)
    requires k <= |entries|
    ensures r != []
  {
    if k == 0 then [Transition(0.0, [Shown], first, None)] else Changing(ChangedTo(first, entries, k - 1), entries[k - 1])
  }

  /** The compositor does not tell one kind of scrolling from the other. */
  function Heard(o: Origin): Origin { if o == PhoneScrolled then Scrolled else o }

  function HeardEntry(e: Entry): Entry { e.(origin := Heard(e.origin)) }

  function ComposePlan(scene: Scene): seq<Transition> {
    if scene.shot.None? || Members(scene.shot.value) == [] then []
    else
      var declared := Sorting.Map(HeardEntry, Declared(scene.shot.value, scene.actions));
      var entries := Sorting.SortBy((e: Entry) => e.at, declared);
      ChangedTo(TargetKey(Members(scene.shot.value)[0], ""), entries, |entries|)[1..]
  }

  ghost predicate AllHeard(declared: seq<Entry>, entries: seq<Entry>) {
    |declared| == |entries| && forall i :: 0 <= i < |entries| ==> declared[i] == HeardEntry(entries[i])
  }

  method HearActions(sorted: seq<Action>) returns (declared: seq<Entry>)
    ensures AllHeard(declared, ActionEntries(sorted, |sorted|))
  {
    declared := [];
    for i := 0 to |sorted|
      invariant AllHeard(declared, ActionEntries(sorted, i))
    {
      match sorted[i] {
        case Click(at, next) =>
          if next.Some? { declared := declared + [Entry(at, Show(next.value), Clicked)]; }
        case Tap(at, next) =>
          if next.Some? { declared := declared + [Entry(at, Show(next.value), Tapped)]; }
        case Scroll(at, y) => declared := declared + [Entry(at, ScrollTo(y), Scrolled)];
        case PhoneScroll(at, y) => declared := declared + [Entry(at, ScrollTo(y), Scrolled)];
        case Other(_) =>
      }
    }
  }

  lemma AllHeardJoined(a: seq<Entry>, x: seq<Entry>, b: seq<Entry>, y: seq<Entry>)
    requires AllHeard(a, x) && AllHeard(b, y)
    ensures a + b == Sorting.Map(HeardEntry, x + y)
  {
  }

  method HearMembers(shot: Shot) returns (declared: seq<Entry>)
    requires Members(shot) != []
    ensures AllHeard(declared, MemberEntries(shot, |Members(shot)|))
  {
    var members, ats := Members(shot), Ats(shot);
    declared := [];
    for i := 1 to |members|
      invariant AllHeard(declared, MemberEntries(shot, i))
    {
      var at := if |ats| == |members| then ats[i] else i as real / |members| as real;
      declared := declared + [Entry(at, Show(members[i]), Member)];
    }
  }

  method DeclareChanges(shot: Shot, actions: seq<Action>) returns (declared: seq<Entry>)
    requires Members(shot) != []
    ensures declared == Sorting.Map(HeardEntry, Declared(shot, actions))
  {
    declared := HearMembers(shot);
    var sorted := Sorting.SortBy((a: Action) => a.at, actions);
    var more := HearActions(sorted);
    AllHeardJoined(declared, MemberEntries(shot, |Members(shot)|), more, ActionEntries(sorted, |sorted|));
    declared := declared + more;
  }

  /** The loop of `plan_transitions`. */
  method ChangesOf(first: Key, entries: seq<Entry>) returns (plan: seq<Transition>)
    ensures plan == ChangedTo(first, entries, |entries|)
  {
    var current := first;
    plan := [Transition(0.0, [Shown], first, None)];
    for k := 0 to |entries|
      invariant plan != [] && current == plan[|plan| - 1].key
      invariant ChangedTo(first, entries, k) == plan
    {
      var e := entries[k];
      var key := NextKey(current, e.payload);
      var toY := if e.payload.ScrollTo? then Some(e.payload.y) else None;
      var previous := plan[|plan| - 1];
      if key == previous.key && e.at - previous.at <= MERGE_WINDOW {
        var labelled := if e.origin == Scrolled then toY else previous.toY;
        plan := plan[|plan| - 1 := previous.(origins := previous.origins + [e.origin], toY := labelled)];
      } else {
        plan, current := plan + [Transition(e.at, [e.origin], key, if e.origin == Scrolled then toY else None)], key;
      }
    }
  }

  /** `plan_transitions` */
  method PlanTransitions(scene: Scene) returns (changes: seq<Transition>)
    ensures changes == ComposePlan(scene)
  {
    if scene.shot.None? || Members(scene.shot.value) == [] {
      return [];
    }
    var shot := scene.shot.value;
    var declared := DeclareChanges(shot, scene.actions);
    var plan := ChangesOf(TargetKey(Members(shot)[0], ""), Sorting.SortBy((e: Entry) => e.at, declared));
    return plan[1..];
  }
}
