/** Nothing a scene's script declares is lost on the way into the planners, and nothing is added
    (video/capture.py, video/compose.py). */
module Declarations {
  import opened Scenes
  import opened Sequences
  import Sorting

  /** Where in the script an entry comes from: a later member of the shot, or an action. */
  datatype Source = FromMember(i: nat) | FromAction(j: nat)

  /** The entry as the script has it written at `s`. */
  predicate WrittenAs(shot: Shot, actions: seq<Action>, s: Source, e: Entry) {
    match s
    case FromMember(i) =>
      && shot.Sequence? && 1 <= i < |shot.shots|
      && e == Entry(if |shot.ats| == |shot.shots| then shot.ats[i] else i as real / |shot.shots| as real,
                    Show(shot.shots[i]), Member)
    case FromAction(j) =>
      && j < |actions|
      && match actions[j]
         case Click(at, next) => next.Some? && e == Entry(at, Show(next.value), Clicked)
         case Tap(at, next) => next.Some? && e == Entry(at, Show(next.value), Tapped)
         case Scroll(at, y) => e == Entry(at, ScrollTo(y), Scrolled)
         case PhoneScroll(at, y) => e == Entry(at, ScrollTo(y), PhoneScrolled)
         case Other(_) => false
  }

  // ---- entries with their sources ----

  datatype Numbered = Numbered(j: nat, action: Action)

  datatype Labelled = Labelled(source: Source, entry: Entry)

  function NumberAll(actions: seq<Action>): seq<Numbered> {
    seq(|actions|, j requires 0 <= j < |actions| => Numbered(j, actions[j]))
  }

  function ActionOf(x: Numbered): Action { x.action }

  function EntryOf(x: Labelled): Entry { x.entry }

  function InTime(actions: seq<Action>): seq<Numbered> {
    Sorting.SortBy((x: Numbered) => x.action.at, NumberAll(actions))
  }

  function LabelOne(x: Numbered): seq<Labelled> {
    if ActionEntry(x.action) == [] then [] else [Labelled(FromAction(x.j), ActionEntry(x.action)[0])]
  }

  function LabelActions(numbered: seq<Numbered>, n: nat): seq<Labelled>
    requires n <= |numbered|
  {
    if n == 0 then [] else LabelActions(numbered, n - 1) + LabelOne(numbered[n - 1])
  }

  function LabelMembers(shot: Shot, n: nat): seq<Labelled>
    requires 1 <= n <= |Members(shot)|
  {
    if n == 1 then []
    else
      LabelMembers(shot, n - 1)
      + [Labelled(FromMember(n - 1), Entry(TakesOver(shot, n - 1), Show(Members(shot)[n - 1]), Member))]
  }

  function LabelAll(shot: Shot, actions: seq<Action>): seq<Labelled>
    requires Members(shot) != []
  {
    LabelMembers(shot, |Members(shot)|) + LabelActions(InTime(actions), |actions|)
  }

  // ---- without the sources they are the entries ----

  lemma ActionsInTime(actions: seq<Action>)
    ensures Sorting.Map(ActionOf, InTime(actions)) == Sorting.SortBy((a: Action) => a.at, actions)
  {
    assert Sorting.Map(ActionOf, NumberAll(actions)) == actions;
    Sorting.SortMapped((x: Numbered) => x.action.at, (a: Action) => a.at, ActionOf, NumberAll(actions));
  }

  ghost predicate Unlabels(all: seq<Labelled>, entries: seq<Entry>) {
    |all| == |entries| && forall i :: 0 <= i < |all| ==> all[i].entry == entries[i]
  }

  lemma UnlabelsBoth(a: seq<Labelled>, x: seq<Entry>, b: seq<Labelled>, y: seq<Entry>)
    requires Unlabels(a, x) && Unlabels(b, y)
    ensures Unlabels(a + b, x + y)
  {
  }

  lemma OneUnlabelled(x: Numbered)
    ensures Unlabels(LabelOne(x), ActionEntry(x.action))
  {
  }

  lemma {:induction false} ActionsUnlabelled(numbered: seq<Numbered>, actions: seq<Action>, n: nat)
    requires n <= |numbered| == |actions| && forall k :: 0 <= k < |actions| ==> numbered[k].action == actions[k]
    ensures Unlabels(LabelActions(numbered, n), ActionEntries(actions, n))
  {
    if n > 0 {
      ActionsUnlabelled(numbered, actions, n - 1);
      OneUnlabelled(numbered[n - 1]);
      UnlabelsBoth(LabelActions(numbered, n - 1), ActionEntries(actions, n - 1),
                   LabelOne(numbered[n - 1]), ActionEntry(actions[n - 1]));
    }
  }

  lemma {:induction false} MembersUnlabelled(shot: Shot, n: nat)
    requires 1 <= n <= |Members(shot)|
    ensures Unlabels(LabelMembers(shot, n), MemberEntries(shot, n))
  {
    if n > 1 {
      MembersUnlabelled(shot, n - 1);
    }
  }

  lemma InTimeUnlabelled(actions: seq<Action>)
    ensures var sorted := Sorting.SortBy((a: Action) => a.at, actions);
            Unlabels(LabelActions(InTime(actions), |actions|), ActionEntries(sorted, |actions|))
  {
    var numbered := InTime(actions);
    var sorted := Sorting.Map(ActionOf, numbered);
    ActionsInTime(actions);
    ActionsUnlabelled(numbered, sorted, |actions|);
  }

  lemma UnlabelsAll(all: seq<Labelled>, entries: seq<Entry>)
    requires Unlabels(all, entries)
    ensures Sorting.Map(EntryOf, all) == entries
  {
  }

  lemma AllUnlabelled(shot: Shot, actions: seq<Action>)
    requires Members(shot) != []
    ensures Sorting.Map(EntryOf, LabelAll(shot, actions)) == Declared(shot, actions)
  {
    var n, sorted := |Members(shot)|, Sorting.SortBy((a: Action) => a.at, actions);
    MembersUnlabelled(shot, n);
    InTimeUnlabelled(actions);
    UnlabelsBoth(LabelMembers(shot, n), MemberEntries(shot, n),
                 LabelActions(InTime(actions), |actions|), ActionEntries(sorted, |actions|));
    UnlabelsAll(LabelAll(shot, actions), Declared(shot, actions));
  }

  // ---- which sources there are ----

  predicate Declares(a: Action) { a.Scroll? || a.PhoneScroll? || ((a.Click? || a.Tap?) && a.next.Some?) }

  ghost predicate Sourced(shot: Shot, actions: seq<Action>, all: seq<Labelled>) {
    forall x :: x in all ==> WrittenAs(shot, actions, x.source, x.entry)
  }

  ghost predicate Has(all: seq<Labelled>, s: Source) { exists x :: x in all && x.source == s }

  lemma {:induction false} DistinctCounted<T>(s: seq<T>)
    requires Distinct(s)
    ensures forall x :: multiset(s)[x] <= 1
  {
    if s != [] {
      var n := |s| - 1;
      DistinctCounted(s[..n]);
      assert s == s[..n] + [s[n]];
      assert s[n] !in s[..n];
    }
  }

  lemma CountedDistinct<T>(s: seq<T>)
    requires forall x :: multiset(s)[x] <= 1
    ensures Distinct(s)
  {
    forall i, j | 0 <= i < j < |s| ensures s[i] != s[j] {
      var later := s[i + 1..];
      assert s == s[..i] + [s[i]] + later;
      assert later[j - i - 1] == s[j] && s[j] in multiset(later);
      assert multiset(s)[s[i]] == multiset(s[..i])[s[i]] + 1 + multiset(later)[s[i]];
    }
  }

  lemma InTimeHasAll(actions: seq<Action>, x: Numbered)
    ensures x in InTime(actions) <==> x.j < |actions| && x.action == actions[x.j]
    ensures Distinct(InTime(actions))
  {
    var all, sorted := NumberAll(actions), InTime(actions);
    assert x in sorted <==> x in multiset(sorted);
    assert x in all <==> x in multiset(all);
    assert x.j < |actions| && x.action == actions[x.j] ==> all[x.j] == x;
    DistinctCounted(all);
    CountedDistinct(sorted);
  }

  /** No two entries have one source. */
  ghost predicate Apart(all: seq<Labelled>) {
    forall i, k :: 0 <= i < k < |all| ==> all[i].source != all[k].source
  }

  ghost predicate NumbersApart(numbered: seq<Numbered>) {
    forall i, k :: 0 <= i < k < |numbered| ==> numbered[i].j != numbered[k].j
  }

  lemma LabelOnce(x: Numbered, y: Labelled)
    requires y in LabelOne(x)
    ensures LabelOne(x) == [y] && y.source == FromAction(x.j)
  {
  }

  /** The action a label was made of. */
  lemma {:induction false} LabelMadeOf(numbered: seq<Numbered>, n: nat, y: Labelled) returns (k: nat)
    requires n <= |numbered| && y in LabelActions(numbered, n)
    ensures k < n && LabelOne(numbered[k]) == [y] && y.source == FromAction(numbered[k].j)
  {
    if y in LabelActions(numbered, n - 1) {
      k := LabelMadeOf(numbered, n - 1, y);
    } else {
      k := n - 1;
      LabelOnce(numbered[k], y);
    }
  }

  lemma {:induction false} LabelStays(numbered: seq<Numbered>, n: nat, k: nat, y: Labelled)
    requires k < n <= |numbered| && y in LabelOne(numbered[k])
    ensures y in LabelActions(numbered, n)
  {
    if k < n - 1 {
      LabelStays(numbered, n - 1, k, y);
    }
  }

  lemma ApartMore(all: seq<Labelled>, x: Labelled)
    requires Apart(all) && forall y :: y in all ==> y.source != x.source
    ensures Apart(all + [x])
  {
  }

  lemma {:induction false} ActionLabelsApart(numbered: seq<Numbered>, n: nat)
    requires n <= |numbered| && NumbersApart(numbered)
    ensures Apart(LabelActions(numbered, n))
  {
    if n > 0 {
      var before, last := LabelActions(numbered, n - 1), numbered[n - 1];
      ActionLabelsApart(numbered, n - 1);
      if LabelOne(last) == [] {
        assert before + LabelOne(last) == before;
      } else {
        forall y | y in before ensures y.source != FromAction(last.j) {
          var k := LabelMadeOf(numbered, n - 1, y);
        }
        LabelOnce(last, LabelOne(last)[0]);
        ApartMore(before, LabelOne(last)[0]);
      }
    }
  }

  lemma LabelIsWritten(shot: Shot, actions: seq<Action>, x: Numbered, y: Labelled)
    requires x.j < |actions| && x.action == actions[x.j] && LabelOne(x) == [y]
    ensures y.source == FromAction(x.j) && WrittenAs(shot, actions, y.source, y.entry)
  {
  }

  ghost predicate Known(numbered: seq<Numbered>, actions: seq<Action>) {
    forall x :: x in numbered ==> x.j < |actions| && x.action == actions[x.j]
  }

  lemma InTimeKnown(actions: seq<Action>)
    ensures Known(InTime(actions), actions)
  {
    forall x | x in InTime(actions) ensures x.j < |actions| && x.action == actions[x.j] {
      InTimeHasAll(actions, x);
    }
  }

  lemma ActionLabelsWritten(shot: Shot, actions: seq<Action>, numbered: seq<Numbered>, n: nat, y: Labelled)
    requires n <= |numbered| && Known(numbered, actions) && y in LabelActions(numbered, n)
    ensures y.source.FromAction? && WrittenAs(shot, actions, y.source, y.entry)
  {
    var k := LabelMadeOf(numbered, n, y);
    assert numbered[k] in numbered;
    LabelIsWritten(shot, actions, numbered[k], y);
  }

  lemma ActionLabelsAll(actions: seq<Action>, j: nat)
    requires j < |actions| && Declares(actions[j])
    ensures Has(LabelActions(InTime(actions), |actions|), FromAction(j))
  {
    var numbered, x := InTime(actions), Numbered(j, actions[j]);
    InTimeHasAll(actions, x);
    var k :| 0 <= k < |numbered| && numbered[k] == x;
    LabelOnce(x, LabelOne(x)[0]);
    LabelStays(numbered, |actions|, k, LabelOne(x)[0]);
  }

  lemma {:induction false} MemberLabels(shot: Shot, actions: seq<Action>, n: nat)
    requires 1 <= n <= |Members(shot)|
    ensures Apart(LabelMembers(shot, n)) && Sourced(shot, actions, LabelMembers(shot, n))
    ensures forall x :: x in LabelMembers(shot, n) ==> x.source.FromMember? && x.source.i < n
    ensures forall i: nat :: 1 <= i < n ==> Has(LabelMembers(shot, n), FromMember(i))
  {
    if n > 1 {
      var before := LabelMembers(shot, n - 1);
      var x := Labelled(FromMember(n - 1), Entry(TakesOver(shot, n - 1), Show(Members(shot)[n - 1]), Member));
      MemberLabels(shot, actions, n - 1);
      ApartMore(before, x);
      forall i: nat | 1 <= i < n ensures Has(before + [x], FromMember(i)) {
        if i < n - 1 {
          var y :| y in before && y.source == FromMember(i);
          assert y in before + [x];
        } else {
          assert x in before + [x];
        }
      }
    }
  }

  // ---- all of them ----

  lemma NumbersInTimeApart(actions: seq<Action>)
    ensures NumbersApart(InTime(actions))
  {
    var numbered := InTime(actions);
    forall i, k | 0 <= i < k < |numbered| ensures numbered[i].j != numbered[k].j {
      assert numbered[i] in numbered && numbered[k] in numbered;
      InTimeHasAll(actions, numbered[i]);
      InTimeHasAll(actions, numbered[k]);
    }
  }

  lemma ApartBoth(a: seq<Labelled>, b: seq<Labelled>)
    requires Apart(a) && Apart(b)
    requires forall x :: x in a ==> x.source.FromMember?
    requires forall x :: x in b ==> x.source.FromAction?
    ensures Apart(a + b)
  {
    var all := a + b;
    forall i, k | 0 <= i < k < |all| ensures all[i].source != all[k].source {
      assert i < |a| <= k ==> all[i] in a && all[k] in b;
    }
  }

  /** Every label tells truly where its entry is written, no two the same place, and all places that
      declare something have one. */
  ghost predicate Complete(shot: Shot, actions: seq<Action>, all: seq<Labelled>) {
    && Sourced(shot, actions, all) && Apart(all)
    && (forall j: nat :: j < |actions| && Declares(actions[j]) ==> Has(all, FromAction(j)))
    && (forall i: nat :: shot.Sequence? && 1 <= i < |shot.shots| ==> Has(all, FromMember(i)))
  }

  lemma HasLater(a: seq<Labelled>, b: seq<Labelled>, s: Source)
    requires Has(a, s) || Has(b, s)
    ensures Has(a + b, s)
  {
    var x :| (x in a || x in b) && x.source == s;
    assert x in a + b;
  }

  lemma AllComplete(shot: Shot, actions: seq<Action>)
    requires Members(shot) != []
    ensures Complete(shot, actions, LabelAll(shot, actions))
  {
    var n, numbered := |Members(shot)|, InTime(actions);
    var a, b := LabelMembers(shot, n), LabelActions(numbered, |actions|);
    MemberLabels(shot, actions, n);
    InTimeKnown(actions);
    NumbersInTimeApart(actions);
    ActionLabelsApart(numbered, |actions|);
    forall x | x in b ensures x.source.FromAction? && WrittenAs(shot, actions, x.source, x.entry) {
      ActionLabelsWritten(shot, actions, numbered, |actions|, x);
    }
    ApartBoth(a, b);
    forall j: nat | j < |actions| && Declares(actions[j]) ensures Has(a + b, FromAction(j)) {
      ActionLabelsAll(actions, j);
      HasLater(a, b, FromAction(j));
    }
    forall i: nat | shot.Sequence? && 1 <= i < |shot.shots| ensures Has(a + b, FromMember(i)) {
      HasLater(a, b, FromMember(i));
    }
  }

  lemma CompleteMoved(shot: Shot, actions: seq<Action>, a: seq<Labelled>, b: seq<Labelled>)
    requires Complete(shot, actions, a) && multiset(a) == multiset(b)
    ensures Complete(shot, actions, b)
  {
    assert forall x :: x in a <==> x in multiset(a);
    assert forall x :: x in b <==> x in multiset(b);
    DistinctCounted(a);
    CountedDistinct(b);
    forall i, k | 0 <= i < k < |b| ensures b[i].source != b[k].source {
      assert b[i] in b && b[k] in b;
    }
    forall s | Has(a, s) ensures Has(b, s) {
      var x :| x in a && x.source == s;
      assert x in b;
    }
  }

  /** The planners' entries are just what the script declares: each is written at the source given for it,
      no two at the same, and each later member of the shot, each scroll of either kind, and each click
      or tap that leads somewhere is the source of one. */
  lemma EntriesAreDeclared(shot: Shot, actions: seq<Action>) returns (from: seq<Source>)
    requires Members(shot) != []
    ensures |from| == |Entries(shot, actions)| && Distinct(from)
    ensures forall k :: 0 <= k < |from| ==> WrittenAs(shot, actions, from[k], Entries(shot, actions)[k])
    ensures forall i: nat :: FromMember(i) in from <==> shot.Sequence? && 1 <= i < |shot.shots|
    ensures forall j: nat :: FromAction(j) in from <==>
              && j < |actions|
              && match actions[j]
                 case Click(_, next) => next.Some?
                 case Tap(_, next) => next.Some?
                 case Other(_) => false
                 case _ => true
  {
    var all := LabelAll(shot, actions);
    var sorted := Sorting.SortBy((x: Labelled) => x.entry.at, all);
    AllUnlabelled(shot, actions);
    Sorting.SortMapped((x: Labelled) => x.entry.at, (e: Entry) => e.at, EntryOf, all);
    AllComplete(shot, actions);
    CompleteMoved(shot, actions, all, sorted);
    from := Sorting.Map((x: Labelled) => x.source, sorted);
    SourcesAre(shot, actions, sorted, from);
  }

  lemma SourcesAre(shot: Shot, actions: seq<Action>, all: seq<Labelled>, from: seq<Source>)
    requires Complete(shot, actions, all) && |from| == |all| && forall k :: 0 <= k < |all| ==> from[k] == all[k].source
    ensures Distinct(from)
    ensures forall k :: 0 <= k < |from| ==> WrittenAs(shot, actions, from[k], all[k].entry)
    ensures forall i: nat :: FromMember(i) in from <==> shot.Sequence? && 1 <= i < |shot.shots|
    ensures forall j: nat :: FromAction(j) in from <==> j < |actions| && Declares(actions[j])
  {
    forall k | 0 <= k < |from| ensures WrittenAs(shot, actions, from[k], all[k].entry) {
      assert all[k] in all;
    }
    forall s | Has(all, s) ensures s in from {
      var x :| x in all && x.source == s;
      var k :| 0 <= k < |all| && all[k] == x;
      assert from[k] == s;
    }
  }
}
