/** Where a second process changes the story: each promise that one process keeps and several
    do not, with the exact reason and a run that shows it. */
module LensAcrossProcesses {
  import opened Options
  import opened LensTables
  import opened LensProtocol
  import opened LensSafety

  /** The rows of `early` are still the first rows of `late`, at most with more revoked. */
  ghost predicate Grown(early: seq<Token>, late: seq<Token>) {
    |early| <= |late| && OnlyRevokes(early, late[..|early|])
  }

  ghost predicate Counted(c: Caller, db: Db, limit: int) {
    c.Pairing? ==> Grown(c.entry.tokens, db.tokens) && CountActive(c.entry.tokens, c.check) < limit
  }

  /** The count was below the limit, and a mint that then failed met rows inserted since. */
  ghost predicate WasteOk(pc: Pc, db: Db, limit: int) {
    match pc
    case SpendReadsNow(_, c) => Counted(c, db, limit)
    case SpendLocks(_, _, c) => Counted(c, db, limit)
    case SpendLists(_, _, c) => Counted(c, db, limit)
    case SpendDeletes(_, _, _, _, c) => Counted(c, db, limit)
    case SpendUnlocks(_, _, _, c) => Counted(c, db, limit)
    case MintReadsExpiry(_, c) => Counted(c, db, limit)
    case MintReadsNow(_, c) => Counted(c, db, limit)
    case MintLocks(_, _, c) => Counted(c, db, limit)
    case MintInserts(_, _, c) => Counted(c, db, limit)
    case MintUnlocks(_, _, minted, c) => c.Pairing? && !minted ==> |db.tokens| > |c.entry.tokens|
    case PairUnlocks(outcome, _, entry, _, _, _, _) => outcome == Wasted ==> |db.tokens| > |entry.tokens|
    case _ => true
  }

  ghost predicate WastesOk(s: State) {
    forall t :: t in s.threads ==> WasteOk(s.threads[t], s.db, Ceiling(s.maxTokens))
  }

  lemma GrownOn(a: seq<Token>, b: seq<Token>, c: seq<Token>)
    requires Grown(a, b) && Grown(b, c)
    ensures Grown(a, c)
  {
  }

  lemma TurnGrows(pc: Pc, db: Db, clock: int, limit: int, pick: Code)
    ensures Grown(db.tokens, Act(pc, db, clock, limit, pick).db.tokens)
  {
    TurnTokens(pc, db, clock, limit, pick);
  }

  lemma GrownWaste(pc: Pc, db: Db, after: Db, limit: int)
    requires WasteOk(pc, db, limit) && Grown(db.tokens, after.tokens)
    ensures WasteOk(pc, after, limit)
  {
    var early := match pc
      case SpendReadsNow(_, c) => Entry(c)
      case SpendLocks(_, _, c) => Entry(c)
      case SpendLists(_, _, c) => Entry(c)
      case SpendDeletes(_, _, _, _, c) => Entry(c)
      case SpendUnlocks(_, _, _, c) => Entry(c)
      case MintReadsExpiry(_, c) => Entry(c)
      case MintReadsNow(_, c) => Entry(c)
      case MintLocks(_, _, c) => Entry(c)
      case MintInserts(_, _, c) => Entry(c)
      case _ => [];
    if Grown(early, db.tokens) {
      GrownOn(early, db.tokens, after.tokens);
    }
  }

  function Entry(c: Caller): seq<Token> { if c.Pairing? then c.entry.tokens else [] }

  /** A count below the limit stays below it while no row is added. */
  lemma FullMeansGrown(c: Caller, now: int, db: Db, limit: int)
    requires c.Pairing? && Counted(c, db, limit) && c.check <= now && CountActive(db.tokens, now) >= limit
    ensures |db.tokens| > |c.entry.tokens|
  {
    if |db.tokens| == |c.entry.tokens| {
      assert db.tokens[..|c.entry.tokens|] == db.tokens;
      CountRevoked(c.entry.tokens, db.tokens, now);
      CountLater(c.entry.tokens, c.check, now);
    }
  }

  lemma TurnWaste(pc: Pc, db: Db, clock: int, limit: int, pick: Code)
    requires WasteOk(pc, db, limit) && ClockOk(pc, clock)
    ensures var turn := Act(pc, db, clock, limit, pick); WasteOk(turn.pc, turn.db, limit)
  {
    if InMint(pc) {
      if pc.MintInserts? && pc.caller.Pairing? && CountActive(db.tokens, pc.now) >= limit {
        FullMeansGrown(pc.caller, pc.now, db, limit);
      }
    } else if InSpend(pc) {
    } else if InPair(pc) {
    }
  }

  lemma WasteStep(s: State, e: Event)
    requires ClocksOk(s) && WastesOk(s) && Enabled(s, e)
    ensures WastesOk(Next(s, e))
  {
    match e
    case Tick =>
    case Start(t, call) => assert WasteOk(Begin(call), s.db, Ceiling(s.maxTokens));
    case Step(t, pick) =>
      var limit, after := Ceiling(s.maxTokens), TurnOf(s, t, pick).db;
      TurnWaste(PcOf(s, t), s.db, s.clock, limit, pick);
      TurnGrows(PcOf(s, t), s.db, s.clock, limit, pick);
      forall u | u in s.threads && u != t ensures WasteOk(s.threads[u], after, limit) {
        GrownWaste(s.threads[u], s.db, after, limit);
      }
  }

  lemma {:induction false} WasteRun(s: State, run: seq<Event>)
    requires ClocksOk(s) && WastesOk(s) && Legal(s, run)
    ensures WastesOk(After(s, run))
    decreases run
  {
    if run != [] {
      ClockStep(s, run[0]);
      WasteStep(s, run[0]);
      WasteRun(Next(s, run[0]), run[1..]);
    }
  }

  // ---- who can waste a code ----

  /** A call that may insert a token. */
  predicate MayMint(e: Event) { e.Start? && (e.call.MintCall? || e.call.PairCall?) }

  ghost predicate MintsIn(run: seq<Event>, places: set<nat>) {
    forall e :: e in run && MayMint(e) ==> e.t.process in places
  }

  predicate Minter(pc: Pc) { InMint(pc) || InPair(pc) || (InSpend(pc) && pc.caller.Pairing?) }

  /** Since the count no row was added, so the mint to come will find room. */
  ghost predicate Room(c: Caller, db: Db, limit: int) {
    c.Pairing? ==> OnlyRevokes(c.entry.tokens, db.tokens) && CountActive(c.entry.tokens, c.check) < limit
  }

  ghost predicate RoomOk(pc: Pc, db: Db, limit: int) {
    match pc
    case SpendReadsNow(_, c) => Room(c, db, limit)
    case SpendLocks(_, _, c) => Room(c, db, limit)
    case SpendLists(_, _, c) => Room(c, db, limit)
    case SpendDeletes(_, _, _, _, c) => Room(c, db, limit)
    case SpendUnlocks(_, _, _, c) => Room(c, db, limit)
    case MintReadsExpiry(_, c) => Room(c, db, limit)
    case MintReadsNow(_, c) => Room(c, db, limit)
    case MintLocks(_, _, c) => Room(c, db, limit)
    case MintInserts(_, _, c) => Room(c, db, limit)
    case MintUnlocks(_, _, minted, c) => c.Pairing? ==> minted
    case PairUnlocks(outcome, _, _, _, _, _, _) => outcome != Wasted
    case _ => true
  }

  /** Tokens are only minted in one process, and none of its pairing calls has lost its place. */
  ghost predicate RoomsOk(s: State, process: nat) {
    && (forall t :: t in s.threads && Minter(s.threads[t]) ==> t.process == process)
    && (forall t :: t in s.threads ==> RoomOk(s.threads[t], s.db, Ceiling(s.maxTokens)))
  }

  lemma RevokesOn(a: seq<Token>, b: seq<Token>, c: seq<Token>)
    requires OnlyRevokes(a, b) && OnlyRevokes(b, c)
    ensures OnlyRevokes(a, c)
  {
  }

  lemma RoomEnough(c: Caller, now: int, db: Db, limit: int)
    requires c.Pairing? && Room(c, db, limit) && c.check <= now
    ensures CountActive(db.tokens, now) < limit
  {
    CountRevoked(c.entry.tokens, db.tokens, now);
    CountLater(c.entry.tokens, c.check, now);
  }

  lemma TurnRoom(pc: Pc, db: Db, clock: int, limit: int, pick: Code)
    requires RoomOk(pc, db, limit) && ClockOk(pc, clock)
    ensures var turn := Act(pc, db, clock, limit, pick); RoomOk(turn.pc, turn.db, limit)
    ensures Minter(Act(pc, db, clock, limit, pick).pc) ==> Minter(pc)
  {
    if InMint(pc) {
      if pc.MintInserts? && pc.caller.Pairing? {
        RoomEnough(pc.caller, pc.now, db, limit);
      }
    } else if InSpend(pc) {
    } else if InPair(pc) {
    }
  }

  lemma RoomKept(pc: Pc, db: Db, after: Db, limit: int)
    requires RoomOk(pc, db, limit) && (Depth(pc) == 0 || OnlyRevokes(db.tokens, after.tokens))
    ensures RoomOk(pc, after, limit)
  {
    var c := CallerOf(pc);
    if Depth(pc) > 0 && c.Pairing? && OnlyRevokes(c.entry.tokens, db.tokens) {
      RevokesOn(c.entry.tokens, db.tokens, after.tokens);
    }
  }

  function CallerOf(pc: Pc): Caller {
    match pc
    case SpendReadsNow(_, c) => c
    case SpendLocks(_, _, c) => c
    case SpendLists(_, _, c) => c
    case SpendDeletes(_, _, _, _, c) => c
    case SpendUnlocks(_, _, _, c) => c
    case MintReadsExpiry(_, c) => c
    case MintReadsNow(_, c) => c
    case MintLocks(_, _, c) => c
    case MintInserts(_, _, c) => c
    case _ => Direct
  }

  /** Whoever is inside the lock with a count taken, nobody else can be inserting. */
  lemma OthersKeepRoom(s: State, t: Thread, pick: Code, u: Thread, process: nat)
    requires LockOk(s) && RoomsOk(s, process) && u in s.threads && u != t
    ensures RoomOk(s.threads[u], TurnOf(s, t, pick).db, Ceiling(s.maxTokens))
  {
    var pc, after := PcOf(s, t), TurnOf(s, t, pick).db;
    TurnTokens(pc, s.db, s.clock, Ceiling(s.maxTokens), pick);
    if Depth(s.threads[u]) > 0 && Minter(s.threads[u]) && !OnlyRevokes(s.db.tokens, after.tokens) {
      OwnerIsInside(s, t, u);
    } else if Minter(s.threads[u]) {
      RoomKept(s.threads[u], s.db, after, Ceiling(s.maxTokens));
    }
  }

  lemma RoomStep(s: State, e: Event, process: nat)
    requires LockOk(s) && ClocksOk(s) && RoomsOk(s, process) && Enabled(s, e)
    requires MayMint(e) ==> e.t.process == process
    ensures RoomsOk(Next(s, e), process)
  {
    match e
    case Tick =>
    case Start(t, call) => assert RoomOk(Begin(call), s.db, Ceiling(s.maxTokens));
    case Step(t, pick) =>
      TurnRoom(PcOf(s, t), s.db, s.clock, Ceiling(s.maxTokens), pick);
      forall u | u in s.threads && u != t
        ensures RoomOk(s.threads[u], TurnOf(s, t, pick).db, Ceiling(s.maxTokens))
      {
        OthersKeepRoom(s, t, pick, u, process);
      }
  }

  lemma {:induction false} RoomRun(s: State, run: seq<Event>, process: nat)
    requires LockOk(s) && ClocksOk(s) && RoomsOk(s, process) && Legal(s, run) && MintsIn(run, {process})
    ensures RoomsOk(After(s, run), process)
    decreases run
  {
    if run != [] {
      assert run[0] in run;
      LockStep(s, run[0]);
      ClockStep(s, run[0]);
      RoomStep(s, run[0], process);
      assert forall e :: e in run[1..] ==> e in run;
      RoomRun(Next(s, run[0]), run[1..], process);
    }
  }

  /** No two processes among them. */
  ghost predicate AtMostOne(places: set<nat>) { forall p, q :: p in places && q in places ==> p == q }

  lemma OnePlace(places: set<nat>) returns (process: nat)
    requires AtMostOne(places)
    ensures forall p :: p in places ==> p == process
  {
    process := 0;
    if p :| p in places {
      process := p;
    }
  }

  /** The thread does not end a pairing call that spent its code and got no token. */
  ghost predicate NotWasted(s: State, run: seq<Event>, t: Thread, places: set<nat>) {
    Initial(s) && Legal(s, run) && MintsIn(run, places) && PcOf(After(s, run), t).PairUnlocks? ==>
      PcOf(After(s, run), t).outcome != Wasted
  }

  /** If tokens are minted in one process only, no code is ever spent without a token, whatever any
      other process does: issue codes, spend them, revoke. */
  lemma NeverWastedByOneMinter(s: State, run: seq<Event>, t: Thread, places: set<nat>)
    requires AtMostOne(places)
    ensures NotWasted(s, run, t, places)
  {
    var process := OnePlace(places);
    assert forall p :: p in places ==> p in {process};
    if Initial(s) && Legal(s, run) && MintsIn(run, places) {
      RoomRun(s, run, process);
    }
  }

  /** In any interleaving of any processes, a pairing call that spent its code and got no token
      was overtaken: rows were inserted after it counted, and another process has called for one. */
  lemma WasteNeedsAnotherMint(s: State, run: seq<Event>, t: Thread)
    requires Initial(s) && Legal(s, run)
    requires PcOf(After(s, run), t).PairUnlocks? && PcOf(After(s, run), t).outcome == Wasted
    ensures |After(s, run).db.tokens| > |PcOf(After(s, run), t).entry.tokens|
    ensures exists e :: e in run && MayMint(e) && e.t.process != t.process
  {
    WasteRun(s, run);
    if MintsIn(run, {t.process}) {
      NeverWastedByOneMinter(s, run, t, {t.process});
    }
  }

  // ---- who can have an expired code accepted ----

  /** A call that issues or spends a code. */
  predicate MayUseCodes(e: Event) { e.Start? && (e.call.NewCodeCall? || e.call.SpendCall? || e.call.PairCall?) }

  ghost predicate CodesIn(run: seq<Event>, places: set<nat>) {
    forall e :: e in run && MayUseCodes(e) ==> e.t.process in places
  }

  predicate UsesCodes(pc: Pc) {
    Minting(pc).Some? || InSpend(pc) || InPair(pc) || (InMint(pc) && pc.caller.Pairing?)
  }

  /** Codes are used in one process only, so between a SELECT and its DELETE nothing is stored. */
  ghost predicate ListsOk(s: State, process: nat) {
    && (forall t :: t in s.threads && UsesCodes(s.threads[t]) ==> t.process == process)
    && (forall t :: t in s.threads ==> ListedOk(s.threads[t], s.db))
    && (forall a :: a in s.db.accepted ==> a.listed)
  }

  predicate ListedOk(pc: Pc, db: Db) { pc.SpendDeletes? ==> db.codes.Keys <= pc.listed }

  lemma TurnLists(pc: Pc, db: Db, clock: int, limit: int, pick: Code)
    requires ListedOk(pc, db) && forall a :: a in db.accepted ==> a.listed
    ensures var turn := Act(pc, db, clock, limit, pick);
            && ListedOk(turn.pc, turn.db) && (forall a :: a in turn.db.accepted ==> a.listed)
            && (UsesCodes(turn.pc) ==> UsesCodes(pc))
            && (pc.NewStores? || turn.db.codes.Keys <= db.codes.Keys)
  {
    if InMint(pc) {
    } else if InSpend(pc) {
    } else if InPair(pc) {
    }
  }

  /** Storing a code needs the lock that deleting holds. */
  lemma StoresElsewhere(s: State, t: Thread, u: Thread)
    requires LockOk(s) && u != t && PcOf(s, t).NewStores? && MayEnter(s, t)
    requires u in s.threads && s.threads[u].SpendDeletes?
    ensures u.process != t.process
  {
    assert LockOf(s, u.process) == Held(u, Depth(s.threads[u]));
  }

  lemma ListsStep(s: State, e: Event, process: nat)
    requires LockOk(s) && ListsOk(s, process) && Enabled(s, e) && (MayUseCodes(e) ==> e.t.process == process)
    ensures ListsOk(Next(s, e), process)
  {
    match e
    case Tick =>
    case Start(t, call) =>
    case Step(t, pick) =>
      var pc, turn := PcOf(s, t), TurnOf(s, t, pick);
      TurnLists(pc, s.db, s.clock, Ceiling(s.maxTokens), pick);
      forall u | u in s.threads && u != t ensures ListedOk(s.threads[u], turn.db) {
        if s.threads[u].SpendDeletes? && pc.NewStores? {
          StoresElsewhere(s, t, u);
        }
      }
  }

  lemma {:induction false} ListsRun(s: State, run: seq<Event>, process: nat)
    requires LockOk(s) && ListsOk(s, process) && Legal(s, run) && CodesIn(run, {process})
    ensures ListsOk(After(s, run), process)
    decreases run
  {
    if run != [] {
      assert run[0] in run;
      LockStep(s, run[0]);
      ListsStep(s, run[0], process);
      assert forall e :: e in run[1..] ==> e in run;
      ListsRun(Next(s, run[0]), run[1..], process);
    }
  }

  /** Every code accepted was unexpired at the clock its call read. */
  ghost predicate AcceptsFresh(s: State, run: seq<Event>, places: set<nat>) {
    Initial(s) && Legal(s, run) && CodesIn(run, places) ==>
      forall a :: a in After(s, run).db.accepted ==> a.expires > a.now
  }

  /** Where codes are issued and spent in one process only, even a code guessed before it is issued is
      never accepted once expired. */
  lemma FreshInOnePlace(s: State, run: seq<Event>, places: set<nat>)
    requires AtMostOne(places)
    ensures AcceptsFresh(s, run, places)
  {
    var process := OnePlace(places);
    if Initial(s) && Legal(s, run) && CodesIn(run, places) {
      ListsRun(s, run, process);
      CodesRun(s, run);
    }
  }

  // ---- runs that show the exceptions are real ----

  lemma {:induction false} Extend(s: State, run: seq<Event>, e: Event)
    requires Legal(s, run) && Enabled(After(s, run), e)
    ensures Legal(s, run + [e]) && After(s, run + [e]) == Next(After(s, run), e)
    decreases run
  {
    if run == [] {
      assert run + [e] == [e];
      assert [e][1..] == [];
    } else {
      Extend(Next(s, run[0]), run[1..], e);
      assert (run + [e])[1..] == run[1..] + [e];
    }
  }

  const CODE: Code := 7

  /** A world of one thread in each of two processes `p` and `q`, inside their locks `hereIn` and
      `thereIn` times. */
  datatype Duo = Duo(p: nat, q: nat, maxTokens: int, clock: int, db: Db, drawn: set<Code>,
                     here: Pc, hereIn: nat, there: Pc, thereIn: nat)

  function Here(w: Duo): Thread { Thread(w.p, 0) }

  function There(w: Duo): Thread { Thread(w.q, 0) }

  function World(w: Duo): State {
    State(w.maxTokens, w.clock, w.db, w.drawn,
          map[w.p := if w.hereIn == 0 then Free else Held(Here(w), w.hereIn),
              w.q := if w.thereIn == 0 then Free else Held(There(w), w.thereIn)],
          map[Here(w) := w.here, There(w) := w.there])
  }

  function Inside(depth: nat, move: LockMove): nat {
    match move
    case Keep => depth
    case Enter => depth + 1
    case Leave => if depth > 1 then depth - 1 else 0
  }

  datatype Move = HereCalls(call: Call) | HereGoes | ThereCalls(call: Call) | ThereGoes | ClockTicks

  predicate Possible(w: Duo, m: Move) {
    match m
    case HereCalls(call) => w.here.Idle? && !call.NewCodeCall?
    case HereGoes => !w.here.Idle?
    case ThereCalls(call) =>
      w.there.Idle? && (call.NewCodeCall? ==> call.code != BLANK && call.code !in w.drawn)
    case ThereGoes => !w.there.Idle?
    case ClockTicks => true
  }

  function Moved(w: Duo, m: Move): Duo {
    match m
    case HereCalls(call) => w.(here := Begin(call))
    case HereGoes =>
      var turn := Act(w.here, w.db, w.clock, Ceiling(w.maxTokens), BLANK);
      w.(here := turn.pc, db := turn.db, hereIn := Inside(w.hereIn, turn.move))
    case ThereCalls(call) =>
      w.(there := Begin(call), drawn := if call.NewCodeCall? then w.drawn + {call.code} else w.drawn)
    case ThereGoes =>
      var turn := Act(w.there, w.db, w.clock, Ceiling(w.maxTokens), BLANK);
      w.(there := turn.pc, db := turn.db, thereIn := Inside(w.thereIn, turn.move))
    case ClockTicks => w.(clock := w.clock + 1)
  }

  function EventOf(w: Duo, m: Move): Event {
    match m
    case HereCalls(call) => Start(Here(w), call)
    case HereGoes => Step(Here(w), BLANK)
    case ThereCalls(call) => Start(There(w), call)
    case ThereGoes => Step(There(w), BLANK)
    case ClockTicks => Tick
  }

  lemma HereGoesIsStep(w: Duo)
    requires Possible(w, HereGoes) && w.p != w.q
    ensures Enabled(World(w), Step(Here(w), BLANK))
    ensures Next(World(w), Step(Here(w), BLANK)) == World(Moved(w, HereGoes))
  {
    var s := World(w);
    assert PcOf(s, Here(w)) == w.here;
    var turn := TurnOf(s, Here(w), BLANK);
    assert s.threads[Here(w) := turn.pc] == map[Here(w) := turn.pc, There(w) := w.there];
    HereLocked(w, turn.move);
  }

  lemma HereLocked(w: Duo, move: LockMove)
    requires w.p != w.q
    ensures Locked(World(w), Here(w), move) == World(w.(hereIn := Inside(w.hereIn, move))).locks
  {
  }

  lemma ThereLocked(w: Duo, move: LockMove)
    requires w.p != w.q
    ensures Locked(World(w), There(w), move) == World(w.(thereIn := Inside(w.thereIn, move))).locks
  {
  }

  lemma ThereGoesIsStep(w: Duo)
    requires Possible(w, ThereGoes) && w.p != w.q
    ensures Enabled(World(w), Step(There(w), BLANK))
    ensures Next(World(w), Step(There(w), BLANK)) == World(Moved(w, ThereGoes))
  {
    var s := World(w);
    assert PcOf(s, There(w)) == w.there;
    var turn := TurnOf(s, There(w), BLANK);
    assert s.threads[There(w) := turn.pc] == map[Here(w) := w.here, There(w) := turn.pc];
    ThereLocked(w, turn.move);
  }

  lemma MoveIsEvent(w: Duo, m: Move)
    requires Possible(w, m) && w.p != w.q
    ensures Enabled(World(w), EventOf(w, m)) && Next(World(w), EventOf(w, m)) == World(Moved(w, m))
  {
    match m
    case HereGoes => HereGoesIsStep(w);
    case ThereGoes => ThereGoesIsStep(w);
    case _ =>
  }

  datatype Script = Curtain | Then(before: Script, m: Move)

  function Played(w: Duo, script: Script): Duo {
    match script
    case Curtain => w
    case Then(before, m) => Moved(Played(w, before), m)
  }

  ghost predicate Playable(w: Duo, script: Script) {
    script.Then? ==> Playable(w, script.before) && Possible(Played(w, script.before), script.m)
  }

  lemma {:induction false} ScriptIsRun(w: Duo, script: Script) returns (run: seq<Event>)
    requires Playable(w, script) && w.p != w.q
    ensures Legal(World(w), run) && After(World(w), run) == World(Played(w, script))
    ensures forall e :: e in run && !e.Tick? ==> e.t.process == w.p || e.t.process == w.q
    ensures Played(w, script).p == w.p && Played(w, script).q == w.q
  {
    match script
    case Curtain => run := [];
    case Then(before, m) =>
      var earlier := ScriptIsRun(w, before);
      var now := Played(w, before);
      MoveIsEvent(now, m);
      Extend(World(w), earlier, EventOf(now, m));
      run := earlier + [EventOf(now, m)];
  }

  /** One more move, checked on its own. */
  lemma OneMore(w: Duo, script: Script, now: Duo, m: Move, next: Duo) returns (longer: Script)
    requires Playable(w, script) && Played(w, script) == now && Possible(now, m) && Moved(now, m) == next
    ensures Playable(w, longer) && Played(w, longer) == next
  {
    longer := Then(script, m);
  }

  /** A verification that read its row just before the revocation still succeeds after it. */
  lemma RevokedMidFlight(p: nat, q: nat) returns (s: State, run: seq<Event>)
    requires p != q
    ensures Initial(s) && Legal(s, run)
    ensures After(s, run).db.tokens == [Token(None, true)] && After(s, run).db.verified == [0]
  {
    var live := Token(None, false);
    assert CountActive([live], 0) <= 1 by { assert [live][..0] == []; }
    var w := Duo(p, q, 10, 0, Db([live], map[], {}, [], []), {}, Idle, 0, Idle, 0);
    var x := RevokedScript(w, live);
    s := World(w);
    run := ScriptIsRun(w, x);
  }

  lemma RevokedScript(w: Duo, live: Token) returns (x: Script)
    requires live == Token(None, false) && w.db.tokens == [live] && w.db.verified == []
    requires w.here.Idle? && w.there.Idle?
    ensures Playable(w, x)
    ensures Played(w, x).db.tokens == [Token(None, true)] && Played(w, x).db.verified == [0]
  {
    var w2: Duo;
    x, w2 := VerifyBegins(w, live);
    var w3 := w2.(there := RevokesOne(0));
    var w4 := w2.(db := w.db.(tokens := [Token(None, true)]));
    x := OneMore(w, x, w2, ThereCalls(RevokeCall(0)), w3);
    x := OneMore(w, x, w3, ThereGoes, w4);
    x := OneMore(w, x, w4, HereGoes, w.(db := w4.db.(verified := [0])));
  }

  lemma VerifyBegins(w: Duo, live: Token) returns (x: Script, w2: Duo)
    requires w.db.tokens == [live] && w.here.Idle?
    ensures Playable(w, x) && Played(w, x) == w2 && w2 == w.(here := VerifyReadsClock(0, Some(live)))
  {
    var w1 := w.(here := VerifyReadsRow(0));
    w2 := w.(here := VerifyReadsClock(0, Some(live)));
    x := OneMore(w, Curtain, w, HereCalls(VerifyCall(0)), w1);
    x := OneMore(w, x, w1, HereGoes, w2);
  }

  /** A code guessed before it is issued: another process stores it between the call's SELECT and its
      DELETE, and it is accepted although it had expired at the clock the call read. */
  lemma ExpiredYetAccepted(p: nat, q: nat) returns (s: State, run: seq<Event>)
    requires p != q
    ensures Initial(s) && Legal(s, run) && CodesIn(run, {p, q})
    ensures After(s, run).db.accepted == [Acceptance(CODE, 1, 1, false)] && !IssuedFirst(s, run, CODE)
  {
    var w := Duo(p, q, 10, 0, Db([], map[], {}, [], []), {}, Idle, 0, Idle, 0);
    var x, w5 := LateStoreBegins(w);
    x := LateStoreEnds(w, x, w5);
    s := World(w);
    run := ScriptIsRun(w, x);
    CodeSpentOnce(s, run);
    assert Acceptance(CODE, 1, 1, false) in After(s, run).db.accepted;
  }

  lemma LateStoreBegins(w: Duo) returns (x: Script, w5: Duo)
    requires w == Duo(w.p, w.q, 10, 0, Db([], map[], {}, [], []), {}, Idle, 0, Idle, 0)
    ensures Playable(w, x) && Played(w, x) == w5
    ensures w5 == w.(drawn := {CODE}, there := NewStores(CODE, 1), clock := 1)
  {
    var w2: Duo;
    x, w2 := NewCodeBegins(w);
    var w3 := w2.(there := NewReadsClock(CODE, 1));
    var w4 := w2.(there := NewStores(CODE, 1));
    w5 := w4.(clock := 1);
    x := OneMore(w, x, w2, ThereGoes, w3);
    x := OneMore(w, x, w3, ThereGoes, w4);
    x := OneMore(w, x, w4, ClockTicks, w5);
  }

  lemma NewCodeBegins(w: Duo) returns (x: Script, w2: Duo)
    requires w.db.codes == map[] && w.drawn == {} && w.there.Idle?
    ensures Playable(w, x) && Played(w, x) == w2
    ensures w2 == w.(drawn := {CODE}, there := NewClears(CODE, 1, {}))
  {
    assert w.db.codes.Keys == {};
    var w1 := w.(drawn := {CODE}, there := NewLists(CODE, 1));
    w2 := w1.(there := NewClears(CODE, 1, {}));
    x := OneMore(w, Curtain, w, ThereCalls(NewCodeCall(CODE, 1)), w1);
    x := OneMore(w, x, w1, ThereGoes, w2);
  }

  lemma LateStoreListed(w: Duo, script: Script, w5: Duo) returns (x: Script, w9: Duo)
    requires Playable(w, script) && Played(w, script) == w5
    requires w5.db == Db([], map[], {}, [], []) && w5.clock == 1 && w5.here.Idle? && w5.hereIn == 0
    ensures Playable(w, x) && Played(w, x) == w9
    ensures w9 == w5.(here := SpendDeletes(CODE, 1, {}, {}, Direct), hereIn := 1)
  {
    assert w5.db.codes.Keys == {} && Stale(w5.db.codes, 1) == {};
    var w6 := w5.(here := SpendReadsNow(CODE, Direct));
    var w7 := w5.(here := SpendLocks(CODE, 1, Direct));
    var w8 := w5.(here := SpendLists(CODE, 1, Direct), hereIn := 1);
    w9 := w8.(here := SpendDeletes(CODE, 1, {}, {}, Direct));
    x := OneMore(w, script, w5, HereCalls(SpendCall(CODE)), w6);
    x := OneMore(w, x, w6, HereGoes, w7);
    x := OneMore(w, x, w7, HereGoes, w8);
    x := OneMore(w, x, w8, HereGoes, w9);
  }

  lemma LateStoreEnds(w: Duo, script: Script, w5: Duo) returns (x: Script)
    requires Playable(w, script) && Played(w, script) == w5
    requires w5.db == Db([], map[], {}, [], []) && w5.clock == 1
    requires w5.here.Idle? && w5.hereIn == 0 && w5.there == NewStores(CODE, 1)
    ensures Playable(w, x) && Played(w, x).db.accepted == [Acceptance(CODE, 1, 1, false)]
  {
    var w9: Duo;
    x, w9 := LateStoreListed(w, script, w5);
    var w10 := w9.(there := Idle, db := Db([], w5.db.codes[CODE := 1], {CODE}, [], []));
    x := OneMore(w, x, w9, ThereGoes, w10);
    x := OneMore(w, x, w10, HereGoes, Moved(w10, HereGoes));
  }

  /** With a ceiling of one, a pairing call that counted no token spends its code and then finds
      the place taken by a token another process minted meanwhile. */
  lemma CodeWasted(p: nat, q: nat) returns (s: State, run: seq<Event>)
    requires p != q
    ensures Initial(s) && Legal(s, run) && MintsIn(run, {p, q})
    ensures var pc := PcOf(After(s, run), Thread(p, 0)); pc.PairUnlocks? && pc.outcome == Wasted
    ensures After(s, run).db.codes == map[]
  {
    var one: Codes := map[CODE := 9];
    assert one.Keys == {CODE};
    var w := Duo(p, q, 1, 0, Db([], one, {CODE}, [], []), {CODE}, Idle, 0, Idle, 0);
    var x, w8, pairing := WastedBeginning(w, one);
    x := WastedEnding(w, x, w8, pairing);
    s := World(w);
    run := ScriptIsRun(w, x);
  }

  lemma WastedPairs(w: Duo, one: Codes, pairing: Caller) returns (x: Script, w4: Duo)
    requires one == map[CODE := 9] && w == Duo(w.p, w.q, 1, 0, Db([], one, {CODE}, [], []), {CODE}, Idle, 0, Idle, 0)
    requires pairing == Pairing(CODE, 0, Snapshot([], one), 0, 0)
    ensures Playable(w, x) && Played(w, x) == w4
    ensures w4 == w.(here := SpendReadsNow(CODE, pairing), hereIn := 1)
  {
    assert one.Keys == {CODE};
    var w1 := w.(here := PairLocks(CODE, 0));
    var w2 := w.(here := PairReadsClock(CODE, 0), hereIn := 1);
    var w3 := w2.(here := PairCounts(CODE, 0, 0));
    w4 := w2.(here := SpendReadsNow(CODE, pairing));
    x := OneMore(w, Curtain, w, HereCalls(PairCall(CODE, 0)), w1);
    x := OneMore(w, x, w1, HereGoes, w2);
    x := OneMore(w, x, w2, HereGoes, w3);
    x := OneMore(w, x, w3, HereGoes, w4);
  }

  lemma WastedBeginning(w: Duo, one: Codes) returns (x: Script, w8: Duo, pairing: Caller)
    requires one == map[CODE := 9] && w == Duo(w.p, w.q, 1, 0, Db([], one, {CODE}, [], []), {CODE}, Idle, 0, Idle, 0)
    ensures Playable(w, x) && Played(w, x) == w8 && pairing == Pairing(CODE, 0, Snapshot([], one), 0, 0)
    ensures w8 == w.(here := SpendUnlocks(CODE, 0, true, pairing), hereIn := 2, db := w8.db)
    ensures w8.db.tokens == [] && w8.db.codes == map[]
  {
    assert one.Keys == {CODE} && Stale(one, 0) == {} && one - {CODE} == map[];
    pairing := Pairing(CODE, 0, Snapshot([], one), 0, 0);
    var w4: Duo;
    x, w4 := WastedPairs(w, one, pairing);
    var w5 := w4.(here := SpendLocks(CODE, 0, pairing));
    var w6 := w4.(here := SpendLists(CODE, 0, pairing), hereIn := 2);
    var w7 := w6.(here := SpendDeletes(CODE, 0, {CODE}, {}, pairing));
    w8 := Moved(w7, HereGoes);
    x := OneMore(w, x, w4, HereGoes, w5);
    x := OneMore(w, x, w5, HereGoes, w6);
    x := OneMore(w, x, w6, HereGoes, w7);
    x := OneMore(w, x, w7, HereGoes, w8);
  }

  /** The other process mints the one token allowed. */
  lemma WastedOvertaken(w: Duo, script: Script, w1: Duo, one: seq<Token>) returns (x: Script, w6: Duo)
    requires Playable(w, script) && Played(w, script) == w1
    requires w1.there.Idle? && w1.thereIn == 0 && w1.maxTokens == 1 && w1.clock == 0 && w1.db.tokens == []
    requires one == [Token(None, false)]
    ensures Playable(w, x) && Played(w, x) == w6
    ensures w6 == w1.(there := MintUnlocks(None, 0, true, Direct), thereIn := 1, db := w1.db.(tokens := one))
  {
    var w2 := w1.(there := MintReadsExpiry(0, Direct));
    var w3 := w1.(there := MintReadsNow(None, Direct));
    var w4 := w1.(there := MintLocks(None, 0, Direct));
    var w5 := w1.(there := MintInserts(None, 0, Direct), thereIn := 1);
    w6 := w5.(there := MintUnlocks(None, 0, true, Direct), db := w1.db.(tokens := one));
    x := OneMore(w, script, w1, ThereCalls(MintCall(0)), w2);
    x := OneMore(w, x, w2, ThereGoes, w3);
    x := OneMore(w, x, w3, ThereGoes, w4);
    x := OneMore(w, x, w4, ThereGoes, w5);
    x := OneMore(w, x, w5, ThereGoes, w6);
  }

  lemma WastedEnding(w: Duo, script: Script, w0: Duo, pairing: Caller) returns (x: Script)
    requires Playable(w, script) && Played(w, script) == w0 && pairing.Pairing? && pairing.ttlDays == 0
    requires w0.here == SpendUnlocks(CODE, 0, true, pairing) && w0.hereIn == 2
    requires w0.there.Idle? && w0.thereIn == 0
    requires w0.maxTokens == 1 && w0.clock == 0 && w0.db.tokens == [] && pairing.spentAt == 0
    ensures Playable(w, x) && Played(w, x).here.PairUnlocks? && Played(w, x).here.outcome == Wasted
    ensures Played(w, x).db.codes == w0.db.codes
  {
    var one := [Token(None, false)];
    var w1 := w0.(here := MintReadsExpiry(0, pairing), hereIn := 1);
    x := OneMore(w, script, w0, HereGoes, w1);
    var w6: Duo;
    x, w6 := WastedOvertaken(w, x, w1, one);
    x := WastedRefused(w, x, w6, pairing);
  }

  /** And this one finds no room. */
  lemma WastedRefused(w: Duo, script: Script, w6: Duo, pairing: Caller) returns (x: Script)
    requires Playable(w, script) && Played(w, script) == w6 && pairing.Pairing?
    requires w6.here == MintReadsExpiry(0, pairing) && w6.hereIn == 1
    requires w6.maxTokens == 1 && w6.clock == 0 && w6.db.tokens == [Token(None, false)]
    ensures Playable(w, x) && Played(w, x).here.PairUnlocks? && Played(w, x).here.outcome == Wasted
    ensures Played(w, x).db.codes == w6.db.codes
  {
    assert CountActive(w6.db.tokens, 0) == 1 by { assert w6.db.tokens[..0] == []; }
    var w7 := w6.(here := MintReadsNow(None, pairing));
    var w8 := w6.(here := MintLocks(None, 0, pairing));
    var w9 := w6.(here := MintInserts(None, 0, pairing), hereIn := 2);
    var w10 := w9.(here := MintUnlocks(None, 0, false, pairing));
    x := OneMore(w, script, w6, HereGoes, w7);
    x := OneMore(w, x, w7, HereGoes, w8);
    x := OneMore(w, x, w8, HereGoes, w9);
    x := OneMore(w, x, w9, HereGoes, w10);
    x := OneMore(w, x, w10, HereGoes, Moved(w10, HereGoes));
  }

  // ---- exactly which processes ----

  /** Of the processes that mint tokens or pair: no code is ever spent without a token, in no run of
      any length, if and only if there are not two of them. */
  lemma NeverWastedExactly(places: set<nat>)
    ensures (forall s, run, t :: NotWasted(s, run, t, places)) <==> AtMostOne(places)
  {
    if AtMostOne(places) {
      forall s, run, t ensures NotWasted(s, run, t, places) {
        NeverWastedByOneMinter(s, run, t, places);
      }
    } else {
      var p, q :| p in places && q in places && p != q;
      var s, run := CodeWasted(p, q);
      assert !NotWasted(s, run, Thread(p, 0), places);
    }
  }

  /** Of the processes that issue, spend or pair: no code is ever accepted once expired, guessed or
      not, if and only if there are not two of them. */
  lemma AcceptsFreshExactly(places: set<nat>)
    ensures (forall s, run :: AcceptsFresh(s, run, places)) <==> AtMostOne(places)
  {
    if AtMostOne(places) {
      forall s, run ensures AcceptsFresh(s, run, places) {
        FreshInOnePlace(s, run, places);
      }
    } else {
      var p, q :| p in places && q in places && p != q;
      var s, run := ExpiredYetAccepted(p, q);
      assert Acceptance(CODE, 1, 1, false) in After(s, run).db.accepted;
      assert !AcceptsFresh(s, run, places);
    }
  }
}
