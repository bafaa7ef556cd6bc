/** What a scene of the script declares, and the state changes both planners read out of it
    (video/script.py, video/capture.py, video/compose.py). */
module Scenes {
  import opened Options
  import Sorting

  datatype Shot =
    | Slide(name: string)
    | Page(path: string, scroll: int)
    | Phone(path: string, state: string, scroll: int)
    | PhonePair(png: string, state: string, scroll: int)
    | Sequence(shots: seq<Shot>, ats: seq<real>)

  datatype Action =
    | Click(at: real, next: Option<Shot>)
    | Tap(at: real, next: Option<Shot>)
    | Scroll(at: real, toY: int)
    | PhoneScroll(at: real, toY: int)
    | Other(at: real)

  datatype Scene = Scene(shot: Option<Shot>, actions: seq<Action>)

  /** What declared a state. */
  datatype Origin = Shown | Member | Clicked | Tapped | Scrolled | PhoneScrolled

  datatype Payload = Show(shot: Shot) | ScrollTo(y: int)

  datatype Entry = Entry(at: real, payload: Payload, origin: Origin)

  function Members(shot: Shot): seq<Shot> { if shot.Sequence? then shot.shots else [shot] }

  function Ats(shot: Shot): seq<real> { if shot.Sequence? then shot.ats else [] }

  /** When member `i` takes over. */
  function TakesOver(shot: Shot, i: nat): real
    requires i < |Members(shot)|
  {
    if |Ats(shot)| == |Members(shot)| then Ats(shot)[i] else i as real / |Members(shot)| as real
  }

  function MemberEntries(shot: Shot, n: nat): seq<Entry>
    requires 1 <= n <= |Members(shot)|
  {
    if n == 1 then [] else MemberEntries(shot, n - 1) + [Entry(TakesOver(shot, n - 1), Show(Members(shot)[n - 1]), Member)]
  }

  function ActionEntry(a: Action): seq<Entry> {
    match a
    case Click(at, next) => if next.Some? then [Entry(at, Show(next.value), Clicked)] else []
    case Tap(at, next) => if next.Some? then [Entry(at, Show(next.value), Tapped)] else []
    case Scroll(at, y) => [Entry(at, ScrollTo(y), Scrolled)]
    case PhoneScroll(at, y) => [Entry(at, ScrollTo(y), PhoneScrolled)]
    case Other(_) => []
  }

  function ActionEntries(actions: seq<Action>, n: nat): seq<Entry>
    requires n <= |actions|
  {
    if n == 0 then [] else ActionEntries(actions, n - 1) + ActionEntry(actions[n - 1])
  }

  function Declared(shot: Shot, actions: seq<Action>): seq<Entry>
    requires Members(shot) != []
  {
    MemberEntries(shot, |Members(shot)|) + ActionEntries(Sorting.SortBy((a: Action) => a.at, actions), |actions|)
  }

  /** Every state change a scene declares, in the order of the narration. */
  function Entries(shot: Shot, actions: seq<Action>): seq<Entry>
    requires Members(shot) != []
  {
    Sorting.SortBy((e: Entry) => e.at, Declared(shot, actions))
  }

  // ---- where shots come from ----

  ghost predicate ShotsKeep(shot: Shot, actions: seq<Action>, keep: Shot -> bool) {
    && (forall m :: m in Members(shot) ==> keep(m))
    && forall a :: a in actions && (a.Click? || a.Tap?) && a.next.Some? ==> keep(a.next.value)
  }

  ghost predicate EntriesKeep(entries: seq<Entry>, keep: Shot -> bool) {
    forall e :: e in entries && e.payload.Show? ==> keep(e.payload.shot)
  }

  lemma {:induction false} MembersKeep(shot: Shot, n: nat, keep: Shot -> bool)
    requires 1 <= n <= |Members(shot)| && forall m :: m in Members(shot) ==> keep(m)
    ensures EntriesKeep(MemberEntries(shot, n), keep)
  {
    if n > 1 {
      MembersKeep(shot, n - 1, keep);
    }
  }

  lemma {:induction false} ActionsKeep(actions: seq<Action>, n: nat, keep: Shot -> bool)
    requires n <= |actions|
    requires forall a :: a in actions && (a.Click? || a.Tap?) && a.next.Some? ==> keep(a.next.value)
    ensures EntriesKeep(ActionEntries(actions, n), keep)
  {
    if n > 0 {
      ActionsKeep(actions, n - 1, keep);
      assert actions[n - 1] in actions;
    }
  }

  /** What holds of every shot in the scene holds of every shot declared. */
  lemma EntriesFromShots(shot: Shot, actions: seq<Action>, keep: Shot -> bool)
    requires Members(shot) != [] && ShotsKeep(shot, actions, keep)
    ensures EntriesKeep(Entries(shot, actions), keep)
  {
    var sorted := Sorting.SortBy((a: Action) => a.at, actions);
    Sorting.SortBySorts((a: Action) => a.at, actions);
    ActionsKeep(sorted, |actions|, keep);
    MembersKeep(shot, |Members(shot)|, keep);
    Sorting.SortBySorts((e: Entry) => e.at, Declared(shot, actions));
  }
}
