/** The clip cache of video/render.py: a scene's clip is reused when the hash stamped beside it is
    the one its inputs give now.  A clip dissolves from the last frame of the clip before it, so
    the hash is chained: each scene's covers the scene before it. */
module RenderCache {
  import opened Options

  type Point = (int, int)

  datatype MoveSeg = MoveSeg(p0: Point, p1: Point)

  /** What rendering a planned scene reads.  `facts` is the text `fingerprint` feeds to the hash and
      `moves` the plan's cursor moves, which it feeds too; `unhashed` is what the hash does not
      cover: the later frames of a burst, their interval, the measured scroller, a page's path. */
  datatype Inputs = Inputs(facts: string, moves: seq<MoveSeg>, unhashed: string)

  datatype Job = Job(id: string, shot: Inputs)

  /** An injective hash, as the tree of what went into it. */
  datatype Hash = Nothing | Chained(previous: Hash, facts: string, moves: seq<MoveSeg>)

  type Frame = string

  datatype Settings = Settings(preset: string, crf: int)

  datatype Rendered = Rendered(clip: string, last: Frame)

  /** `compose.render_scene`: what it makes of a scene, the frame before it, where the cursor
      stands and the encoder settings. */
  type Renderer = (Inputs, Option<Frame>, Point, Settings) -> Rendered

  /** The three files of one scene, each of which may be missing. */
  datatype Entry = Entry(clip: Option<string>, last: Option<Frame>, stamp: Option<Hash>)

  /** Files are named by a scene's position and id. */
  type Stem = (nat, string)
  type Disk = map<Stem, Entry>

  const CURSOR_START: Point := (1180, 760)

  function StemOf(jobs: seq<Job>, k: nat): Stem
    requires k < |jobs|
  {
    (k + 1, jobs[k].id)
  }

  function EntryAt(disk: Disk, stem: Stem): Entry {
    if stem in disk then disk[stem] else Entry(None, None, None)
  }

  function Last<T>(s: seq<T>): T requires s != [] { s[|s| - 1] }

  function Front<T>(s: seq<T>): seq<T> requires s != [] { s[..|s| - 1] }

  /** The hash of the last scene of a film that so far has these scenes. */
  function HashOf(jobs: seq<Job>): Hash {
    if jobs == [] then Nothing else Chained(HashOf(Front(jobs)), Last(jobs).shot.facts, Last(jobs).shot.moves)
  }

  function CursorEnd(start: Point, moves: seq<MoveSeg>): Point {
    if moves == [] then start else Last(moves).p1
  }

  function CursorAfter(jobs: seq<Job>): Point {
    if jobs == [] then CURSOR_START else CursorEnd(CursorAfter(Front(jobs)), Last(jobs).shot.moves)
  }

  /** The last scene of the film, rendered with everything before it rendered afresh. */
  function Clean(render: Renderer, jobs: seq<Job>, settings: Settings): Rendered
    requires jobs != []
  {
    render(Last(jobs).shot, if |jobs| == 1 then None else Some(Clean(render, Front(jobs), settings).last),
           CursorAfter(Front(jobs)), settings)
  }

  /** The cursor stands at `at` before scene `k`: where the last move of the last scene `i` that has any
      left it. */
  predicate LeftAt(jobs: seq<Job>, k: nat, i: nat, at: Point)
    requires k <= |jobs|
  {
    && i < k && jobs[i].shot.moves != [] && at == Last(jobs[i].shot.moves).p1
    && forall m :: i < m < k ==> jobs[m].shot.moves == []
  }

  lemma {:induction false} CursorIsLeft(jobs: seq<Job>, k: nat)
    requires k <= |jobs|
    ensures || (CursorAfter(jobs[..k]) == (1180, 760) && forall m :: 0 <= m < k ==> jobs[m].shot.moves == [])
            || exists i :: LeftAt(jobs, k, i, CursorAfter(jobs[..k]))
    decreases k
  {
    if k > 0 {
      var n := k - 1;
      assert Front(jobs[..k]) == jobs[..n] && Last(jobs[..k]) == jobs[n];
      CursorIsLeft(jobs, n);
      if jobs[n].shot.moves != [] {
        assert LeftAt(jobs, k, n, CursorAfter(jobs[..k]));
      } else if i :| LeftAt(jobs, n, i, CursorAfter(jobs[..k])) {
        assert LeftAt(jobs, k, i, CursorAfter(jobs[..k]));
      }
    }
  }

  /** What a clean build is, scene by scene: each is rendered once, in order, after the last frame of the
      one before it, with the cursor where the moves before it left it. */
  lemma CleanIsChained(render: Renderer, jobs: seq<Job>, settings: Settings, k: nat)
    requires k < |jobs|
    ensures var at := CursorAfter(jobs[..k]);
            && Clean(render, jobs[..k + 1], settings)
               == render(jobs[k].shot, if k == 0 then None else Some(Clean(render, jobs[..k], settings).last), at,
                         settings)
            && (|| (at == (1180, 760) && forall m :: 0 <= m < k ==> jobs[m].shot.moves == [])
                || exists i :: LeftAt(jobs, k, i, at))
  {
    assert Front(jobs[..k + 1]) == jobs[..k] && Last(jobs[..k + 1]) == jobs[k];
    CursorIsLeft(jobs, k);
  }

  // ---- one run ----

  predicate Fresh(entry: Entry, want: Hash) {
    entry.clip.Some? && entry.last.Some? && entry.stamp == Some(want)
  }

  function Made(r: Rendered, want: Hash): Entry { Entry(Some(r.clip), Some(r.last), Some(want)) }

  function PrevFrame(disk: Disk, jobs: seq<Job>, k: nat): Option<Frame>
    requires k <= |jobs|
  {
    if k == 0 then None else EntryAt(disk, StemOf(jobs, k - 1)).last
  }

  predicate Reuses(disk: Disk, jobs: seq<Job>, force: bool, k: nat)
    requires k < |jobs|
  {
    !force && Fresh(EntryAt(disk, StemOf(jobs, k)), HashOf(jobs[..k + 1]))
  }

  /** Scene `k` of a run: reused, or rendered and stamped. */
  function SceneDone(render: Renderer, disk: Disk, jobs: seq<Job>, settings: Settings, force: bool, k: nat): Disk
    requires k < |jobs|
  {
    var stem, want := StemOf(jobs, k), HashOf(jobs[..k + 1]);
    if Reuses(disk, jobs, force, k) then disk
    else disk[stem := Made(render(jobs[k].shot, PrevFrame(disk, jobs, k), CursorAfter(jobs[..k]), settings), want)]
  }

  /** The disk once the first `k` scenes are done. */
  function Composed(render: Renderer, disk: Disk, jobs: seq<Job>, settings: Settings, force: bool, k: nat): Disk
    requires k <= |jobs|
  {
    if k == 0 then disk
    else SceneDone(render, Composed(render, disk, jobs, settings, force, k - 1), jobs, settings, force, k - 1)
  }

  /** Which of the first `k` scenes are not rendered again. */
  function Reused(render: Renderer, disk: Disk, jobs: seq<Job>, settings: Settings, force: bool, k: nat): seq<bool>
    requires k <= |jobs|
  {
    if k == 0 then []
    else Reused(render, disk, jobs, settings, force, k - 1)
         + [Reuses(Composed(render, disk, jobs, settings, force, k - 1), jobs, force, k - 1)]
  }

  lemma FilmGrows(jobs: seq<Job>, k: nat)
    requires k < |jobs|
    ensures HashOf(jobs[..k + 1]) == Chained(HashOf(jobs[..k]), jobs[k].shot.facts, jobs[k].shot.moves)
    ensures CursorAfter(jobs[..k + 1]) == CursorEnd(CursorAfter(jobs[..k]), jobs[k].shot.moves)
  {
    assert Front(jobs[..k + 1]) == jobs[..k];
  }

  /** The run comes to a scene's files only in that scene's turn: no two scenes share files. */
  lemma {:induction false} UntouchedYet(render: Renderer, disk: Disk, jobs: seq<Job>, settings: Settings, force: bool,
                                        k: nat, i: nat)
    requires k <= i < |jobs|
    ensures EntryAt(Composed(render, disk, jobs, settings, force, k), StemOf(jobs, i)) == EntryAt(disk, StemOf(jobs, i))
    decreases k
  {
    if k > 0 {
      UntouchedYet(render, disk, jobs, settings, force, k - 1, i);
      assert StemOf(jobs, i) != StemOf(jobs, k - 1);
    }
  }

  /** So which scenes are reused can be told before the run. */
  lemma {:induction false} ReusedExactly(render: Renderer, disk: Disk, jobs: seq<Job>, settings: Settings, force: bool,
                                         k: nat, i: nat)
    requires i < k <= |jobs|
    ensures |Reused(render, disk, jobs, settings, force, k)| == k
    ensures Reused(render, disk, jobs, settings, force, k)[i] <==>
            !force && Fresh(EntryAt(disk, StemOf(jobs, i)), HashOf(jobs[..i + 1]))
    decreases k
  {
    if k > 1 {
      ReusedExactly(render, disk, jobs, settings, force, k - 1, if i < k - 1 then i else 0);
    }
    if i == k - 1 {
      UntouchedYet(render, disk, jobs, settings, force, i, i);
    }
  }

  class Studio {
    var disk: Disk

    constructor ()
      ensures disk == map[]
    {
      disk := map[];
    }

    /** One scene of the loop, given what the scenes before it left. */
    method ComposeScene(render: Renderer, jobs: seq<Job>, settings: Settings, force: bool, k: nat,
                        prevFrame: Option<Frame>, cursor: Point, want: Hash) returns (reuses: bool, frame: Option<Frame>)
      requires k < |jobs| && want == HashOf(jobs[..k + 1])
      requires prevFrame == PrevFrame(disk, jobs, k) && cursor == CursorAfter(jobs[..k])
      modifies this
      ensures disk == SceneDone(render, old(disk), jobs, settings, force, k)
      ensures frame == PrevFrame(disk, jobs, k + 1)
      ensures reuses <==> Reuses(old(disk), jobs, force, k)
    {
      var stem := StemOf(jobs, k);
      var entry := EntryAt(disk, stem);
      if !force && Fresh(entry, want) {
        return true, entry.last;
      }
      var made := render(jobs[k].shot, prevFrame, cursor, settings);
      disk := disk[stem := Made(made, want)];
      return false, Some(made.last);
    }

    /** `compose_all` without `--only`. */
    method ComposeAll(render: Renderer, jobs: seq<Job>, settings: Settings, force: bool) returns (reused: seq<bool>)
      modifies this
      ensures disk == Composed(render, old(disk), jobs, settings, force, |jobs|)
      ensures reused == Reused(render, old(disk), jobs, settings, force, |jobs|)
      ensures |reused| == |jobs|
      ensures force ==> forall k :: 0 <= k < |jobs| ==> !reused[k]
      ensures !force ==> forall k :: 0 <= k < |jobs| ==>
                (reused[k] <==> var files := EntryAt(old(disk), StemOf(jobs, k));
                                files.clip.Some? && files.last.Some? && files.stamp == Some(HashOf(jobs[..k + 1])))
    {
      ghost var was := disk;
      var previousHash, prevFrame, cursor := Nothing, None, CURSOR_START;
      reused := [];
      for k := 0 to |jobs|
        invariant disk == Composed(render, was, jobs, settings, force, k)
        invariant previousHash == HashOf(jobs[..k])
        invariant prevFrame == PrevFrame(disk, jobs, k)
        invariant cursor == CursorAfter(jobs[..k])
        invariant reused == Reused(render, was, jobs, settings, force, k)
      {
        FilmGrows(jobs, k);
        var want := Chained(previousHash, jobs[k].shot.facts, jobs[k].shot.moves);
        var reuses: bool;
        reuses, prevFrame := ComposeScene(render, jobs, settings, force, k, prevFrame, cursor, want);
        reused := reused + [reuses];
        cursor := CursorEnd(cursor, jobs[k].shot.moves);
        previousHash := want;
      }
      assert jobs[..|jobs|] == jobs;
      forall k | 0 <= k < |jobs|
        ensures |reused| == |jobs|
        ensures reused[k] <==> !force && Fresh(EntryAt(was, StemOf(jobs, k)), HashOf(jobs[..k + 1]))
      {
        ReusedExactly(render, was, jobs, settings, force, |jobs|, k);
      }
    }
  }

  // ---- the hash tells films apart ----

  predicate HashedAlike(a: Inputs, b: Inputs) { a.facts == b.facts && a.moves == b.moves }

  ghost predicate SameHashed(a: seq<Job>, b: seq<Job>) {
    |a| == |b| && forall k :: 0 <= k < |a| ==> HashedAlike(a[k].shot, b[k].shot)
  }

  lemma {:induction false} HashTells(a: seq<Job>, b: seq<Job>)
    requires HashOf(a) == HashOf(b)
    ensures SameHashed(a, b)
  {
    if a != [] && b != [] {
      HashTells(Front(a), Front(b));
      assert forall k :: 0 <= k < |a| - 1 ==> a[k] == Front(a)[k] && b[k] == Front(b)[k];
    }
  }

  /** The cursor's start is not hashed, but the chain fixes it: it is where hashed moves left it. */
  lemma {:induction false} HashFixesCursor(a: seq<Job>, b: seq<Job>)
    requires SameHashed(a, b)
    ensures CursorAfter(a) == CursorAfter(b)
  {
    if a != [] {
      assert forall k :: 0 <= k < |a| - 1 ==> a[k] == Front(a)[k] && b[k] == Front(b)[k];
      HashFixesCursor(Front(a), Front(b));
    }
  }

  /** Among these scenes the hashed inputs tell whatever rendering reads. */
  ghost predicate Covered(known: set<Inputs>) {
    forall a, b :: a in known && b in known && HashedAlike(a, b) ==> a == b
  }

  ghost predicate From(jobs: seq<Job>, known: set<Inputs>) { forall j :: j in jobs ==> j.shot in known }

  lemma {:induction false} HashFixesClip(render: Renderer, a: seq<Job>, b: seq<Job>, known: set<Inputs>, settings: Settings)
    requires SameHashed(a, b) && a != [] && From(a, known) && From(b, known) && Covered(known)
    ensures Clean(render, a, settings) == Clean(render, b, settings)
  {
    assert forall k :: 0 <= k < |a| - 1 ==> a[k] == Front(a)[k] && b[k] == Front(b)[k];
    HashFixesCursor(Front(a), Front(b));
    assert Last(a) in a && Last(b) in b;
    assert HashedAlike(Last(a).shot, Last(b).shot);
    if |a| > 1 {
      HashFixesClip(render, Front(a), Front(b), known, settings);
    }
  }

  // ---- what every run keeps ----

  /** A stamp tells the truth: the clip and last frame beside it are what a clean build of some film
      with that hash ends with. */
  ghost predicate Honest(render: Renderer, entry: Entry, known: set<Inputs>, settings: Settings) {
    entry.clip.Some? && entry.last.Some? && entry.stamp.Some? ==>
      exists film: seq<Job> | film != [] && From(film, known) && HashOf(film) == entry.stamp.value ::
        Clean(render, film, settings) == Rendered(entry.clip.value, entry.last.value)
  }

  ghost predicate AllHonest(render: Renderer, disk: Disk, known: set<Inputs>, settings: Settings) {
    forall stem :: HonestAt(render, disk, stem, known, settings)
  }

  ghost predicate HonestAt(render: Renderer, disk: Disk, stem: Stem, known: set<Inputs>, settings: Settings) {
    stem in disk ==> Honest(render, disk[stem], known, settings)
  }

  predicate HasClean(render: Renderer, disk: Disk, jobs: seq<Job>, settings: Settings, k: nat)
    requires k < |jobs|
  {
    var entry := EntryAt(disk, StemOf(jobs, k));
    var clean := Clean(render, jobs[..k + 1], settings);
    entry.clip == Some(clean.clip) && entry.last == Some(clean.last)
  }

  lemma FreshIsClean(render: Renderer, entry: Entry, film: seq<Job>, known: set<Inputs>, settings: Settings)
    requires Honest(render, entry, known, settings) && Covered(known) && film != [] && From(film, known)
    requires Fresh(entry, HashOf(film))
    ensures entry.clip == Some(Clean(render, film, settings).clip)
    ensures entry.last == Some(Clean(render, film, settings).last)
  {
    var earlier :| earlier != [] && From(earlier, known) && HashOf(earlier) == entry.stamp.value
                && Clean(render, earlier, settings) == Rendered(entry.clip.value, entry.last.value);
    HashTells(earlier, film);
    HashFixesClip(render, earlier, film, known, settings);
  }

  /** One scene of a run, given that the scene before it is as a clean build has it. */
  lemma SceneIsClean(render: Renderer, before: Disk, jobs: seq<Job>, settings: Settings, force: bool, k: nat,
                     known: set<Inputs>)
    requires k < |jobs| && From(jobs, known) && Covered(known) && AllHonest(render, before, known, settings)
    requires k > 0 ==> HasClean(render, before, jobs, settings, k - 1)
    ensures AllHonest(render, SceneDone(render, before, jobs, settings, force, k), known, settings)
    ensures HasClean(render, SceneDone(render, before, jobs, settings, force, k), jobs, settings, k)
  {
    var film := jobs[..k + 1];
    assert Front(film) == jobs[..k] && Last(film) == jobs[k];
    if k > 0 {
      assert jobs[..k - 1 + 1] == jobs[..k];
    }
    var made := render(jobs[k].shot, PrevFrame(before, jobs, k), CursorAfter(jobs[..k]), settings);
    assert made == Clean(render, film, settings);
    assert Honest(render, Made(made, HashOf(film)), known, settings);
    assert HonestAt(render, before, StemOf(jobs, k), known, settings);
    if Fresh(EntryAt(before, StemOf(jobs, k)), HashOf(film)) {
      FreshIsClean(render, EntryAt(before, StemOf(jobs, k)), film, known, settings);
    }
    var after := SceneDone(render, before, jobs, settings, force, k);
    forall stem ensures HonestAt(render, after, stem, known, settings) {
      assert HonestAt(render, before, stem, known, settings);
    }
  }

  ghost predicate AllClean(render: Renderer, disk: Disk, jobs: seq<Job>, settings: Settings, k: nat)
    requires k <= |jobs|
  {
    forall i :: 0 <= i < k ==> HasClean(render, disk, jobs, settings, i)
  }

  lemma SceneKeeps(render: Renderer, before: Disk, jobs: seq<Job>, settings: Settings, force: bool, k: nat, i: nat)
    requires i < k < |jobs| && HasClean(render, before, jobs, settings, i)
    ensures HasClean(render, SceneDone(render, before, jobs, settings, force, k), jobs, settings, i)
  {
  }

  lemma SceneKeepsAll(render: Renderer, before: Disk, jobs: seq<Job>, settings: Settings, force: bool, k: nat)
    requires k < |jobs| && AllClean(render, before, jobs, settings, k)
    ensures AllClean(render, SceneDone(render, before, jobs, settings, force, k), jobs, settings, k)
  {
    forall i | 0 <= i < k ensures HasClean(render, SceneDone(render, before, jobs, settings, force, k), jobs, settings, i) {
      SceneKeeps(render, before, jobs, settings, force, k, i);
    }
  }

  lemma SceneAdds(render: Renderer, before: Disk, jobs: seq<Job>, settings: Settings, force: bool, k: nat,
                  known: set<Inputs>)
    requires k < |jobs| && From(jobs, known) && Covered(known) && AllHonest(render, before, known, settings)
    requires AllClean(render, before, jobs, settings, k)
    ensures var after := SceneDone(render, before, jobs, settings, force, k);
            AllHonest(render, after, known, settings) && AllClean(render, after, jobs, settings, k + 1)
  {
    SceneIsClean(render, before, jobs, settings, force, k, known);
    SceneKeepsAll(render, before, jobs, settings, force, k);
  }

  ghost predicate RunOk(render: Renderer, disk: Disk, jobs: seq<Job>, settings: Settings, k: nat, known: set<Inputs>)
    requires k <= |jobs|
  {
    AllHonest(render, disk, known, settings) && AllClean(render, disk, jobs, settings, k)
  }

  lemma RunOn(render: Renderer, before: Disk, after: Disk, jobs: seq<Job>, settings: Settings, force: bool, k: nat,
              known: set<Inputs>)
    requires k < |jobs| && From(jobs, known) && Covered(known) && RunOk(render, before, jobs, settings, k, known)
    requires after == SceneDone(render, before, jobs, settings, force, k)
    ensures RunOk(render, after, jobs, settings, k + 1, known)
  {
    SceneAdds(render, before, jobs, settings, force, k, known);
  }

  lemma {:induction false} RunGoes(render: Renderer, disk: Disk, jobs: seq<Job>, settings: Settings, force: bool,
                                   k: nat, known: set<Inputs>)
    requires k <= |jobs| && From(jobs, known) && Covered(known) && RunOk(render, disk, jobs, settings, 0, known)
    ensures RunOk(render, Composed(render, disk, jobs, settings, force, k), jobs, settings, k, known)
    decreases k
  {
    if k > 0 {
      RunGoes(render, disk, jobs, settings, force, k - 1, known);
      RunOn(render, Composed(render, disk, jobs, settings, force, k - 1), Composed(render, disk, jobs, settings, force, k),
            jobs, settings, force, k - 1, known);
    }
  }

  /** One full run, from any honest disk: every scene of the film has the clip and the last frame a
      clean build would give it, and the disk stays honest. */
  lemma RunIsClean(render: Renderer, disk: Disk, jobs: seq<Job>, settings: Settings, force: bool,
                   k: nat, known: set<Inputs>)
    requires k <= |jobs| && From(jobs, known) && Covered(known) && AllHonest(render, disk, known, settings)
    ensures AllHonest(render, Composed(render, disk, jobs, settings, force, k), known, settings)
    ensures AllClean(render, Composed(render, disk, jobs, settings, force, k), jobs, settings, k)
  {
    RunGoes(render, disk, jobs, settings, force, k, known);
  }

  /** `--force` needs nothing to be honest: whatever lay on the disk, made by whatever renderer under
      whatever settings, every scene comes out as in a clean build with these. */
  lemma {:induction false} ForcedIsClean(render: Renderer, disk: Disk, jobs: seq<Job>, settings: Settings, k: nat)
    requires k <= |jobs|
    ensures AllClean(render, Composed(render, disk, jobs, settings, true, k), jobs, settings, k)
    decreases k
  {
    if k > 0 {
      var before := Composed(render, disk, jobs, settings, true, k - 1);
      ForcedIsClean(render, disk, jobs, settings, k - 1);
      SceneKeepsAll(render, before, jobs, settings, true, k - 1);
      ForcedScene(render, before, jobs, settings, k - 1);
    }
  }

  lemma ForcedScene(render: Renderer, before: Disk, jobs: seq<Job>, settings: Settings, k: nat)
    requires k < |jobs| && (k > 0 ==> HasClean(render, before, jobs, settings, k - 1))
    ensures HasClean(render, SceneDone(render, before, jobs, settings, true, k), jobs, settings, k)
  {
    assert Front(jobs[..k + 1]) == jobs[..k] && Last(jobs[..k + 1]) == jobs[k];
    if k > 0 {
      assert jobs[..k - 1 + 1] == jobs[..k];
    }
  }

  lemma {:induction false} FreshAfterwards(render: Renderer, disk: Disk, jobs: seq<Job>, settings: Settings, force: bool,
                                           k: nat, i: nat)
    requires i < k <= |jobs|
    ensures Reuses(Composed(render, disk, jobs, settings, force, k), jobs, false, i)
  {
    if i < k - 1 {
      FreshAfterwards(render, disk, jobs, settings, force, k - 1, i);
    }
  }

  /** A film run again as it was: everything is reused and not a file changes, whatever renderer or
      settings the second run is given. */
  lemma {:induction false} RerunChangesNothing(render: Renderer, disk: Disk, jobs: seq<Job>, settings: Settings,
                                               force: bool, again: Renderer, other: Settings, k: nat)
    requires k <= |jobs|
    ensures var done := Composed(render, disk, jobs, settings, force, |jobs|);
            && Composed(again, done, jobs, other, false, k) == done
            && (k < |jobs| ==> Reuses(done, jobs, false, k))
  {
    var done := Composed(render, disk, jobs, settings, force, |jobs|);
    if k < |jobs| {
      FreshAfterwards(render, disk, jobs, settings, force, |jobs|, k);
    }
    if k > 0 {
      RerunChangesNothing(render, disk, jobs, settings, force, again, other, k - 1);
    }
  }

  // ---- histories ----

  datatype Part = ClipFile | LastFile | StampFile

  /** What happens to the folder: a full run of the film as it then is, or the loss of a file. */
  datatype Act = Film(jobs: seq<Job>, force: bool, settings: Settings) | Loss(stem: Stem, part: Part)

  function Without(entry: Entry, part: Part): Entry {
    match part
    case ClipFile => entry.(clip := None)
    case LastFile => entry.(last := None)
    case StampFile => entry.(stamp := None)
  }

  function AfterAct(render: Renderer, disk: Disk, act: Act): Disk {
    match act
    case Film(jobs, force, settings) => Composed(render, disk, jobs, settings, force, |jobs|)
    case Loss(stem, part) => disk[stem := Without(EntryAt(disk, stem), part)]
  }

  function AfterActs(render: Renderer, acts: seq<Act>): Disk {
    if acts == [] then map[] else AfterAct(render, AfterActs(render, Front(acts)), Last(acts))
  }

  ghost predicate AllFrom(acts: seq<Act>, known: set<Inputs>) {
    forall act :: act in acts && act.Film? ==> From(act.jobs, known)
  }

  ghost predicate AllWith(acts: seq<Act>, kinds: set<Settings>) {
    forall act :: act in acts && act.Film? ==> act.settings in kinds
  }

  lemma {:induction false} HistoryIsHonest(render: Renderer, acts: seq<Act>, settings: Settings, known: set<Inputs>)
    requires AllFrom(acts, known) && AllWith(acts, {settings}) && Covered(known)
    ensures AllHonest(render, AfterActs(render, acts), known, settings)
  {
    if acts != [] {
      assert forall act :: act in Front(acts) ==> act in acts;
      HistoryIsHonest(render, Front(acts), settings, known);
      var disk, act := AfterActs(render, Front(acts)), Last(acts);
      assert act in acts;
      if act.Film? {
        RunIsClean(render, disk, act.jobs, settings, act.force, |act.jobs|, known);
      } else {
        forall stem ensures HonestAt(render, AfterAct(render, disk, act), stem, known, settings) {
          assert HonestAt(render, disk, stem, known, settings);
        }
      }
    }
  }

  /** Incremental build equals clean build: after any history of full runs and lost files, with scenes
      edited, added, removed and reordered between them, a run leaves every clip and every last
      frame as if the whole film had been rendered in order -- provided the encoder settings stay
      and what the hash leaves out never changes alone. */
  lemma IncrementalIsClean(render: Renderer, acts: seq<Act>, settings: Settings, known: set<Inputs>, i: nat)
    requires AllFrom(acts, known) && AllWith(acts, {settings}) && Covered(known)
    requires acts != [] && Last(acts).Film? && i < |Last(acts).jobs|
    ensures HasClean(render, AfterActs(render, acts), Last(acts).jobs, settings, i)
  {
    assert forall act :: act in Front(acts) ==> act in acts;
    HistoryIsHonest(render, Front(acts), settings, known);
    var act := Last(acts);
    assert act in acts;
    RunIsClean(render, AfterActs(render, Front(acts)), act.jobs, settings, act.force, |act.jobs|, known);
  }

  // ---- exactly when ----

  /** Film one scene, then film `b` in its place: is the second run clean? */
  ghost predicate SecondRunClean(render: Renderer, a: Job, b: Job, s: Settings, t: Settings) {
    HasClean(render, Composed(render, Composed(render, map[], [a], s, false, 1), [b], t, false, 1), [b], t, 0)
  }

  lemma SecondRun(render: Renderer, a: Job, b: Job, s: Settings, t: Settings)
    requires a.id == b.id
    ensures SecondRunClean(render, a, b, s, t)
            <==> !HashedAlike(a.shot, b.shot)
                 || render(a.shot, None, CURSOR_START, s) == render(b.shot, None, CURSOR_START, t)
  {
    var stem := StemOf([a], 0);
    assert [a][..1] == [a] && [b][..1] == [b] && [a][..0] == [] && [b][..0] == [];
    assert Front([a]) == [] && Front([b]) == [];
    var first := SceneDone(render, map[], [a], s, false, 0);
    assert Composed(render, map[], [a], s, false, 1) == first;
    assert first[stem] == Made(render(a.shot, None, CURSOR_START, s), HashOf([a]));
    assert HashOf([a]) == HashOf([b]) <==> HashedAlike(a.shot, b.shot);
    assert Composed(render, first, [b], t, false, 1) == SceneDone(render, first, [b], t, false, 0);
  }

  /** The proviso is exactly right: after an edit to a scene, or to the encoder settings, the next
      run is clean for every renderer if and only if the edit changed something hashed or changed
      nothing at all. */
  lemma StaleExactly(a: Job, b: Job, s: Settings, t: Settings)
    requires a.id == b.id
    ensures (forall render: Renderer :: SecondRunClean(render, a, b, s, t))
            <==> !HashedAlike(a.shot, b.shot) || (a == b && s == t)
  {
    forall render: Renderer
      ensures SecondRunClean(render, a, b, s, t)
              <==> !HashedAlike(a.shot, b.shot)
                   || render(a.shot, None, CURSOR_START, s) == render(b.shot, None, CURSOR_START, t)
    {
      SecondRun(render, a, b, s, t);
    }
    var telling: Renderer := (shot, prev, cursor, x) =>
      Rendered(if shot == a.shot && x == s then "first" else "second", "");
    assert SecondRunClean(telling, a, b, s, t)
           <==> !HashedAlike(a.shot, b.shot)
                || telling(a.shot, None, CURSOR_START, s) == telling(b.shot, None, CURSOR_START, t);
  }

  /** Among these scenes and settings the hash tells apart whatever rendering does. */
  ghost predicate Told(known: set<Inputs>, kinds: set<Settings>) {
    forall a, b, s, t :: a in known && b in known && s in kinds && t in kinds && HashedAlike(a, b) ==> a == b && s == t
  }

  /** A history that ends in a run leaves scene `i` of it clean. */
  ghost predicate EndsClean(render: Renderer, acts: seq<Act>, known: set<Inputs>, kinds: set<Settings>, i: nat) {
    AllFrom(acts, known) && AllWith(acts, kinds) && acts != [] && Last(acts).Film? && i < |Last(acts).jobs| ==>
      HasClean(render, AfterActs(render, acts), Last(acts).jobs, Last(acts).settings, i)
  }

  lemma ToldEndsClean(render: Renderer, acts: seq<Act>, known: set<Inputs>, kinds: set<Settings>, i: nat)
    requires Told(known, kinds)
    ensures EndsClean(render, acts, known, kinds, i)
  {
    if AllFrom(acts, known) && AllWith(acts, kinds) && acts != [] && Last(acts).Film? && i < |Last(acts).jobs| {
      var settings, shot := Last(acts).settings, Last(acts).jobs[i].shot;
      assert Last(acts) in acts && Last(acts).jobs[i] in Last(acts).jobs;
      assert settings in kinds && shot in known;
      forall act | act in acts && act.Film? ensures act.settings == settings {
        assert HashedAlike(shot, shot);
      }
      assert Covered(known) by {
        forall a, b | a in known && b in known && HashedAlike(a, b) ensures a == b {
        }
      }
      IncrementalIsClean(render, acts, settings, known, i);
    }
  }

  function TwoFilms(a: Inputs, b: Inputs, s: Settings, t: Settings): seq<Act> {
    [Film([Job("", a)], false, s), Film([Job("", b)], false, t)]
  }

  lemma TwoFilmsRun(render: Renderer, a: Inputs, b: Inputs, s: Settings, t: Settings)
    ensures HasClean(render, AfterActs(render, TwoFilms(a, b, s, t)), [Job("", b)], t, 0)
            <==> SecondRunClean(render, Job("", a), Job("", b), s, t)
  {
    var acts := TwoFilms(a, b, s, t);
    assert Front(acts) == [acts[0]] && Front([acts[0]]) == [];
    assert AfterActs(render, [acts[0]]) == AfterAct(render, map[], acts[0]);
  }

  /** The proviso is exactly right, for films of any length: whatever the renderer, every history of
      runs made of these scenes under these settings, with any files lost in between, ends clean if
      and only if the hash tells them all apart. */
  lemma CleanExactly(known: set<Inputs>, kinds: set<Settings>)
    ensures (forall render: Renderer, acts, i: nat :: EndsClean(render, acts, known, kinds, i)) <==> Told(known, kinds)
  {
    if Told(known, kinds) {
      forall render: Renderer, acts, i: nat ensures EndsClean(render, acts, known, kinds, i) {
        ToldEndsClean(render, acts, known, kinds, i);
      }
    } else {
      var a, b, s, t :| a in known && b in known && s in kinds && t in kinds && HashedAlike(a, b) && !(a == b && s == t);
      StaleExactly(Job("", a), Job("", b), s, t);
      var render: Renderer :| !SecondRunClean(render, Job("", a), Job("", b), s, t);
      TwoFilmsRun(render, a, b, s, t);
      assert !EndsClean(render, TwoFilms(a, b, s, t), known, kinds, 0);
    }
  }
}
