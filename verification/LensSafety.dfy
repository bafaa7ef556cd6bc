/** What every interleaving of the pairing protocol keeps. */
module LensSafety {
  import opened Options
  import opened LensTables
  import opened LensProtocol

  // ---- the lock ----

  /** How many times a thread at this point has entered the lock. */
  function Depth(pc: Pc): nat {
    match pc
    case MintReadsExpiry(_, c) => CallerDepth(c)
    case MintReadsNow(_, c) => CallerDepth(c)
    case MintLocks(_, _, c) => CallerDepth(c)
    case MintInserts(_, _, c) => CallerDepth(c) + 1
    case MintUnlocks(_, _, _, c) => CallerDepth(c) + 1
    case SpendReadsNow(_, c) => CallerDepth(c)
    case SpendLocks(_, _, c) => CallerDepth(c)
    case SpendLists(_, _, c) => CallerDepth(c) + 1
    case SpendDeletes(_, _, _, _, c) => CallerDepth(c) + 1
    case SpendUnlocks(_, _, _, c) => CallerDepth(c) + 1
    case PairReadsClock(_, _) => 1
    case PairCounts(_, _, _) => 1
    case PairUnlocks(_, _, _, _, _, _, _) => 1
    case _ => 0
  }

  function CallerDepth(c: Caller): nat { if c.Direct? then 0 else 1 }

  /** A thread inside holds its process's lock to its depth; a held lock has such a thread. */
  ghost predicate LockOk(s: State) {
    && (forall t :: t in s.threads && Depth(s.threads[t]) > 0 ==>
         LockOf(s, t.process) == Held(t, Depth(s.threads[t])))
    && (forall p :: p in s.locks && s.locks[p].Held? ==>
         s.locks[p].owner.process == p && Depth(PcOf(s, s.locks[p].owner)) == s.locks[p].depth > 0)
  }

  predicate InLock(s: State, t: Thread) { Depth(PcOf(s, t)) > 0 }

  lemma OwnerIsInside(s: State, t: Thread, u: Thread)
    requires LockOk(s) && t.process == u.process && InLock(s, t) && InLock(s, u)
    ensures t == u
  {
  }

  lemma TurnDepth(pc: Pc, db: Db, clock: int, limit: int, pick: Code)
    ensures var turn := Act(pc, db, clock, limit, pick);
            match turn.move
            case Keep => Depth(turn.pc) == Depth(pc)
            case Enter => Depth(turn.pc) == Depth(pc) + 1 && NeedsLock(pc)
            case Leave => Depth(turn.pc) == Depth(pc) - 1
  {
    if InMint(pc) {
    } else if InSpend(pc) {
    } else if InPair(pc) {
    }
  }

  lemma LockMove(s: State, s': State, t: Thread, pc: Pc, move: LockMove)
    requires LockOk(s)
    requires s'.threads == s.threads[t := pc] && s'.locks == Locked(s, t, move)
    requires match move
             case Keep => Depth(pc) == Depth(PcOf(s, t))
             case Enter => Depth(pc) == Depth(PcOf(s, t)) + 1 && MayEnter(s, t)
             case Leave => Depth(pc) == Depth(PcOf(s, t)) - 1
    ensures LockOk(s')
  {
  }

  lemma LockStep(s: State, e: Event)
    requires LockOk(s) && Enabled(s, e)
    ensures LockOk(Next(s, e))
  {
    match e
    case Tick =>
    case Start(t, call) => LockMove(s, Next(s, e), t, Begin(call), Keep);
    case Step(t, pick) =>
      var turn := TurnOf(s, t, pick);
      TurnDepth(PcOf(s, t), s.db, s.clock, Ceiling(s.maxTokens), pick);
      LockMove(s, Next(s, e), t, turn.pc, turn.move);
  }

  lemma {:induction false} LockRun(s: State, run: seq<Event>)
    requires LockOk(s) && Legal(s, run)
    ensures LockOk(After(s, run))
    decreases run
  {
    if run != [] {
      LockStep(s, run[0]);
      LockRun(Next(s, run[0]), run[1..]);
    }
  }

  /** Mutual exclusion: however many processes there are, two threads of one process are never both
      inside its lock. */
  lemma OneInside(s: State, run: seq<Event>, t: Thread, u: Thread)
    requires Initial(s) && Legal(s, run) && t.process == u.process
    requires InLock(After(s, run), t) && InLock(After(s, run), u)
    ensures t == u
  {
    LockRun(s, run);
    OwnerIsInside(After(s, run), t, u);
  }

  // ---- clocks ----

  predicate CallerClockOk(c: Caller, clock: int) {
    c.Pairing? ==> c.check <= c.spentAt <= clock
  }

  /** Clock readings a thread carries are in order and not in the future. */
  predicate ClockOk(pc: Pc, clock: int) {
    match pc
    case MintReadsExpiry(_, c) => CallerClockOk(c, clock)
    case MintReadsNow(_, c) => CallerClockOk(c, clock)
    case MintLocks(_, now, c) => now <= clock && CallerClockOk(c, now)
    case MintInserts(_, now, c) => now <= clock && CallerClockOk(c, now)
    case MintUnlocks(_, now, _, c) => now <= clock && CallerClockOk(c, now)
    case SpendReadsNow(_, c) => CallerClockOk(c, clock)
    case SpendLocks(_, now, c) => now <= clock && CallerClockOk(c, now)
    case SpendLists(_, now, c) => now <= clock && CallerClockOk(c, now)
    case SpendDeletes(_, now, _, _, c) => now <= clock && CallerClockOk(c, now)
    case SpendUnlocks(_, now, _, c) => now <= clock && CallerClockOk(c, now)
    case PairCounts(_, _, check) => check <= clock
    case PairUnlocks(_, _, _, check, spentAt, _, mintedAt) => check <= spentAt <= mintedAt <= clock
    case _ => true
  }

  ghost predicate ClocksOk(s: State) {
    forall t :: t in s.threads ==> ClockOk(s.threads[t], s.clock)
  }

  lemma TurnClock(pc: Pc, db: Db, clock: int, limit: int, pick: Code)
    requires ClockOk(pc, clock)
    ensures ClockOk(Act(pc, db, clock, limit, pick).pc, clock)
  {
    if InMint(pc) {
    } else if InSpend(pc) {
    } else if InPair(pc) {
    }
  }

  lemma ClockStep(s: State, e: Event)
    requires ClocksOk(s) && Enabled(s, e)
    ensures ClocksOk(Next(s, e))
  {
    match e
    case Tick =>
    case Start(t, call) => assert ClockOk(Begin(call), s.clock);
    case Step(t, pick) => TurnClock(PcOf(s, t), s.db, s.clock, Ceiling(s.maxTokens), pick);
  }

  // ---- the token ceiling ----

  ghost predicate CeilingOk(s: State) {
    CountActive(s.db.tokens, s.clock) <= Ceiling(s.maxTokens)
  }

  /** What one step can do to the token table: insert below the limit, or revoke. */
  lemma TurnTokens(pc: Pc, db: Db, clock: int, limit: int, pick: Code)
    ensures var after := Act(pc, db, clock, limit, pick).db.tokens;
            || OnlyRevokes(db.tokens, after)
            || (pc.MintInserts? && CountActive(db.tokens, pc.now) < limit
                && after == db.tokens + [Token(pc.expires, false)])
  {
    if InMint(pc) {
    } else if InSpend(pc) {
    } else if InPair(pc) {
    }
  }

  /** A mint counts the rows active at the clock it read, which are at least those active now;
      so a reading gone stale in the queue for the lock can only refuse too much. */
  lemma CeilingStep(s: State, e: Event)
    requires ClocksOk(s) && CeilingOk(s) && Enabled(s, e)
    ensures CeilingOk(Next(s, e))
  {
    match e
    case Tick => CountLater(s.db.tokens, s.clock, s.clock + 1);
    case Start(t, call) =>
    case Step(t, pick) =>
      var pc, after := PcOf(s, t), TurnOf(s, t, pick).db.tokens;
      TurnTokens(pc, s.db, s.clock, Ceiling(s.maxTokens), pick);
      if OnlyRevokes(s.db.tokens, after) {
        CountRevoked(s.db.tokens, after, s.clock);
      } else {
        CountLater(s.db.tokens, pc.now, s.clock);
        CountAppend(s.db.tokens, Token(pc.expires, false), s.clock);
      }
  }

  lemma {:induction false} CeilingRun(s: State, run: seq<Event>)
    requires ClocksOk(s) && CeilingOk(s) && Legal(s, run)
    ensures CeilingOk(After(s, run))
    decreases run
  {
    if run != [] {
      ClockStep(s, run[0]);
      CeilingStep(s, run[0]);
      CeilingRun(Next(s, run[0]), run[1..]);
    }
  }

  lemma {:induction false} SameLimit(s: State, run: seq<Event>)
    ensures After(s, run).maxTokens == s.maxTokens
    decreases run
  {
    if run != [] {
      SameLimit(Next(s, run[0]), run[1..]);
    }
  }

  /** However processes, threads and clock readings interleave, at most `lens.max_tokens`
      tokens can authenticate, or one if that is less. */
  lemma TokenCeiling(s: State, run: seq<Event>)
    requires Initial(s) && Legal(s, run)
    ensures var end := After(s, run);
            |ActiveRows(end.db.tokens, end.clock)| <= if s.maxTokens >= 1 then s.maxTokens else 1
  {
    CeilingRun(s, run);
    SameLimit(s, run);
    CountIsRows(After(s, run).db.tokens, After(s, run).clock);
  }

  // ---- codes ----

  function Minting(pc: Pc): Option<Code> {
    match pc
    case NewLists(code, _) => Some(code)
    case NewClears(code, _, _) => Some(code)
    case NewReadsClock(code, _) => Some(code)
    case NewStores(code, _) => Some(code)
    case _ => None
  }

  ghost predicate AcceptedOk(db: Db) {
    && db.codes.Keys <= db.stored
    && (forall a :: a in db.accepted ==> a.code in db.stored - db.codes.Keys && (a.listed ==> a.expires > a.now))
    && (forall i, j :: 0 <= i < j < |db.accepted| ==> db.accepted[i].code != db.accepted[j].code)
  }

  /** Rows a consuming call listed and did not find stale are still good.  Only rows stored since
      its SELECT escape this. */
  ghost predicate SweepOk(pc: Pc, db: Db) {
    pc.SpendDeletes? ==>
      && pc.listed <= db.stored
      && forall k :: k in db.codes && k in pc.listed && k !in pc.stale ==> db.codes[k] > pc.now
  }

  ghost predicate CodesOk(s: State) {
    && s.db.stored <= s.drawn && BLANK !in s.drawn && AcceptedOk(s.db)
    && (forall t :: t in s.threads ==> SweepOk(s.threads[t], s.db))
    && MintsNew(s) && MintsApart(s)
  }

  /** What a thread is about to store was drawn for it and is not stored yet. */
  ghost predicate MintsNew(s: State) {
    forall t :: t in s.threads && Minting(s.threads[t]).Some? ==> Minting(s.threads[t]).value in s.drawn - s.db.stored
  }

  ghost predicate MintsApart(s: State) {
    forall t, u :: t in s.threads && u in s.threads && t != u && Minting(s.threads[t]).Some? ==>
      Minting(s.threads[t]) != Minting(s.threads[u])
  }

  /** Rows only ever disappear, except that a minting thread stores its own fresh code. */
  ghost predicate CodesShrink(before: Db, after: Db, own: Option<Code>) {
    && before.stored <= after.stored <= before.stored + (if own.Some? then {own.value} else {})
    && (forall k :: k in after.codes && k in before.stored && k in before.codes ==>
          after.codes[k] == before.codes[k])
    && (forall k :: k in after.codes && k in before.stored ==> k in before.codes)
  }

  /** What a turn keeps of the codes. */
  ghost predicate CodesKept(pc: Pc, db: Db, turn: Turn) {
    && AcceptedOk(turn.db) && SweepOk(turn.pc, turn.db)
    && CodesShrink(db, turn.db, Minting(pc))
    && (Minting(turn.pc) == Minting(pc) || Minting(turn.pc).None?)
    && (turn.db.stored != db.stored ==> Minting(turn.pc).None?)
  }

  lemma SpendCodes(pc: Pc, db: Db, clock: int, pick: Code)
    requires AcceptedOk(db) && SweepOk(pc, db) && InSpend(pc)
    ensures CodesKept(pc, db, SpendTurn(pc, db, clock, pick))
  {
  }

  lemma OtherCodes(pc: Pc, db: Db, clock: int, pick: Code)
    requires AcceptedOk(db) && SweepOk(pc, db) && !InMint(pc) && !InSpend(pc) && !InPair(pc)
    requires Minting(pc).Some? ==> Minting(pc).value !in db.stored
    ensures CodesKept(pc, db, OtherTurn(pc, db, clock, pick))
  {
  }

  lemma TurnCodes(pc: Pc, db: Db, clock: int, limit: int, pick: Code)
    requires AcceptedOk(db) && SweepOk(pc, db)
    requires Minting(pc).Some? ==> Minting(pc).value !in db.stored
    ensures CodesKept(pc, db, Act(pc, db, clock, limit, pick))
  {
    if InMint(pc) {
    } else if InSpend(pc) {
      SpendCodes(pc, db, clock, pick);
    } else if !InPair(pc) {
      OtherCodes(pc, db, clock, pick);
    }
  }

  lemma SweepKept(pc: Pc, before: Db, after: Db, own: Option<Code>)
    requires SweepOk(pc, before) && CodesShrink(before, after, own)
    ensures SweepOk(pc, after)
  {
  }

  lemma CodesTurn(s: State, t: Thread, pick: Code)
    requires CodesOk(s) && Enabled(s, Step(t, pick))
    ensures CodesOk(Next(s, Step(t, pick)))
  {
    var pc, turn := PcOf(s, t), TurnOf(s, t, pick);
    TurnCodes(pc, s.db, s.clock, Ceiling(s.maxTokens), pick);
    forall u | u in s.threads && u != t ensures SweepOk(s.threads[u], turn.db) {
      SweepKept(s.threads[u], s.db, turn.db, Minting(pc));
    }
    MintsTurn(s, t, pick);
  }

  lemma MintsTurn(s: State, t: Thread, pick: Code)
    requires MintsNew(s) && MintsApart(s) && Enabled(s, Step(t, pick))
    requires var pc, turn := PcOf(s, t), TurnOf(s, t, pick);
             && CodesShrink(s.db, turn.db, Minting(pc))
             && (Minting(turn.pc) == Minting(pc) || Minting(turn.pc).None?)
             && (turn.db.stored != s.db.stored ==> Minting(turn.pc).None?)
    ensures MintsNew(Next(s, Step(t, pick))) && MintsApart(Next(s, Step(t, pick)))
  {
  }

  lemma CodesStep(s: State, e: Event)
    requires CodesOk(s) && Enabled(s, e)
    ensures CodesOk(Next(s, e))
  {
    match e
    case Tick =>
    case Start(t, call) =>
    case Step(t, pick) => CodesTurn(s, t, pick);
  }

  lemma {:induction false} CodesRun(s: State, run: seq<Event>)
    requires CodesOk(s) && Legal(s, run)
    ensures CodesOk(After(s, run))
    decreases run
  {
    if run != [] {
      CodesStep(s, run[0]);
      CodesRun(Next(s, run[0]), run[1..]);
    }
  }

  predicate Presents(call: Call, code: Code) { (call.SpendCall? || call.PairCall?) && call.code == code }

  /** In this run nobody presents `code` before it has been issued: `lens_new_pairing_code` returns a
      code only once its row is stored. */
  ghost predicate IssuedFirst(s: State, run: seq<Event>, code: Code)
    decreases run
  {
    run != [] ==>
      && (run[0].Start? && Presents(run[0].call, code) ==> code in s.db.stored)
      && IssuedFirst(Next(s, run[0]), run[1..], code)
  }

  /** The code a call under way was given. */
  function Presented(pc: Pc): Option<Code> {
    match pc
    case SpendReadsNow(code, _) => Some(code)
    case SpendLocks(code, _, _) => Some(code)
    case SpendLists(code, _, _) => Some(code)
    case SpendDeletes(code, _, _, _, _) => Some(code)
    case PairLocks(code, _) => Some(code)
    case PairReadsClock(code, _) => Some(code)
    case PairCounts(code, _, _) => Some(code)
    case _ => None
  }

  /** A call was given a code already stored, so its SELECT saw the row if the DELETE can find it. */
  ghost predicate KnownOk(pc: Pc, db: Db, code: Code) {
    Presented(pc) == Some(code) ==>
      code in db.stored && (pc.SpendDeletes? && code in db.codes ==> code in pc.listed)
  }

  ghost predicate AllListed(db: Db, code: Code) { forall a :: a in db.accepted && a.code == code ==> a.listed }

  ghost predicate KnownsOk(s: State, code: Code) {
    AllListed(s.db, code) && forall t :: t in s.threads ==> KnownOk(s.threads[t], s.db, code)
  }

  lemma TurnKnown(pc: Pc, db: Db, clock: int, limit: int, pick: Code, code: Code)
    requires KnownOk(pc, db, code) && AllListed(db, code)
    requires Minting(pc).Some? ==> Minting(pc).value !in db.stored
    ensures var turn := Act(pc, db, clock, limit, pick); KnownOk(turn.pc, turn.db, code) && AllListed(turn.db, code)
  {
    if InMint(pc) {
    } else if InSpend(pc) {
    } else if InPair(pc) {
    }
  }

  lemma KnownKept(pc: Pc, before: Db, after: Db, own: Option<Code>, code: Code)
    requires KnownOk(pc, before, code) && CodesShrink(before, after, own)
    ensures KnownOk(pc, after, code)
  {
  }

  lemma KnownStep(s: State, e: Event, code: Code)
    requires CodesOk(s) && KnownsOk(s, code) && Enabled(s, e)
    requires e.Start? && Presents(e.call, code) ==> code in s.db.stored
    ensures KnownsOk(Next(s, e), code)
  {
    match e
    case Tick =>
    case Start(t, call) => assert KnownOk(Begin(call), s.db, code);
    case Step(t, pick) =>
      var pc, turn := PcOf(s, t), TurnOf(s, t, pick);
      TurnCodes(pc, s.db, s.clock, Ceiling(s.maxTokens), pick);
      TurnKnown(pc, s.db, s.clock, Ceiling(s.maxTokens), pick, code);
      forall u | u in s.threads && u != t ensures KnownOk(s.threads[u], turn.db, code) {
        KnownKept(s.threads[u], s.db, turn.db, Minting(pc), code);
      }
  }

  lemma {:induction false} KnownRun(s: State, run: seq<Event>, code: Code)
    requires CodesOk(s) && KnownsOk(s, code) && Legal(s, run) && IssuedFirst(s, run, code)
    ensures KnownsOk(After(s, run), code)
    decreases run
  {
    if run != [] {
      CodesStep(s, run[0]);
      KnownStep(s, run[0], code);
      KnownRun(Next(s, run[0]), run[1..], code);
    }
  }

  /** Across threads and processes a code is accepted at most once and is gone once accepted; and
      at the clock its call read it had not expired, unless somebody presented it before it was
      issued. */
  lemma CodeSpentOnce(s: State, run: seq<Event>)
    requires Initial(s) && Legal(s, run)
    ensures var db := After(s, run).db;
            && (forall i, j :: 0 <= i < j < |db.accepted| ==> db.accepted[i].code != db.accepted[j].code)
            && (forall a :: a in db.accepted ==> a.code !in db.codes && (a.listed ==> a.expires > a.now))
            && (forall a :: a in db.accepted && IssuedFirst(s, run, a.code) ==> a.expires > a.now)
  {
    CodesRun(s, run);
    var db := After(s, run).db;
    forall a | a in db.accepted && IssuedFirst(s, run, a.code) ensures a.expires > a.now {
      KnownRun(s, run, a.code);
    }
  }

  // ---- revocation and expiry are final ----

  ghost predicate Dead(db: Db, clock: int, id: nat) {
    id < |db.tokens| && !ActiveAt(db.tokens[id], clock)
  }

  /** This thread has read a live row for `id` and will say yes to it. */
  predicate Judging(pc: Pc, clock: int, id: nat) {
    pc.VerifyReadsClock? && pc.id == id && pc.row.Some? && ActiveAt(pc.row.value, clock)
  }

  ghost predicate NoneJudging(s: State, id: nat) {
    forall t :: t in s.threads ==> !Judging(s.threads[t], s.clock, id)
  }

  lemma TurnDead(pc: Pc, db: Db, clock: int, limit: int, pick: Code, id: nat)
    requires Dead(db, clock, id) && !Judging(pc, clock, id)
    ensures var turn := Act(pc, db, clock, limit, pick);
            && Dead(turn.db, clock, id) && !Judging(turn.pc, clock, id)
            && db.verified <= turn.db.verified && id !in turn.db.verified[|db.verified|..]
  {
    if InMint(pc) {
    } else if InSpend(pc) {
    } else if InPair(pc) {
    }
  }

  /** The step of `lens_revoke_all_tokens` leaves every token dead, now and at any later clock. */
  lemma AllDead(s: State, t: Thread, pick: Code, clock: int, id: nat)
    requires PcOf(s, t).RevokesAll? && id < |s.db.tokens|
    ensures Dead(Next(s, Step(t, pick)).db, clock, id)
    ensures |Next(s, Step(t, pick)).db.tokens| == |s.db.tokens|
  {
    RevokedAll(s.db.tokens, clock);
  }

  lemma DeadStep(s: State, e: Event, id: nat)
    requires Enabled(s, e) && Dead(s.db, s.clock, id) && NoneJudging(s, id)
    ensures var s' := Next(s, e);
            && Dead(s'.db, s'.clock, id) && NoneJudging(s', id)
            && s.db.verified <= s'.db.verified && id !in s'.db.verified[|s.db.verified|..]
  {
    match e
    case Tick =>
    case Start(t, call) =>
    case Step(t, pick) => TurnDead(PcOf(s, t), s.db, s.clock, Ceiling(s.maxTokens), pick, id);
  }

  /** A run in which the token is not verified once more. */
  ghost predicate NotVerified(s: State, run: seq<Event>, id: nat) {
    Legal(s, run) ==>
      s.db.verified <= After(s, run).db.verified && id !in After(s, run).db.verified[|s.db.verified|..]
  }

  /** A dead token stays dead for as long as the system runs, and is never verified again if nobody
      holds a live copy of its row. */
  lemma {:induction false} DeadForGood(s: State, run: seq<Event>, id: nat)
    requires Legal(s, run) && Dead(s.db, s.clock, id) && NoneJudging(s, id)
    ensures Dead(After(s, run).db, After(s, run).clock, id) && NotVerified(s, run, id)
    decreases run
  {
    if run != [] {
      DeadStep(s, run[0], id);
      var next := Next(s, run[0]);
      DeadForGood(next, run[1..], id);
      var end := After(next, run[1..]).db.verified;
      assert end[|s.db.verified|..] == next.db.verified[|s.db.verified|..] + end[|next.db.verified|..];
    }
  }

  lemma JudgesNow(s: State, t: Thread, id: nat)
    requires t in s.threads && Judging(s.threads[t], s.clock, id)
    ensures !NotVerified(s, [Step(t, BLANK)], id)
  {
    var run := [Step(t, BLANK)];
    var next := Next(s, run[0]);
    assert run[1..] == [];
    assert Legal(next, run[1..]) && After(next, run[1..]) == next;
    assert next.db.verified[|s.db.verified|..] == [id];
  }

  /** Exactly when revoking is final: a dead token is verified in no continuation of any kind if and
      only if no call under way holds a live copy of its row. */
  lemma NeverAgainExactly(s: State, id: nat)
    requires Dead(s.db, s.clock, id)
    ensures (forall run :: NotVerified(s, run, id)) <==> NoneJudging(s, id)
  {
    if NoneJudging(s, id) {
      forall run ensures NotVerified(s, run, id) {
        if Legal(s, run) {
          DeadForGood(s, run, id);
        }
      }
    } else {
      var t :| t in s.threads && Judging(s.threads[t], s.clock, id);
      JudgesNow(s, t, id);
    }
  }

  /** A row read by a call under way is the table's row as it was: with its expiry, and revoked only
      if that is still so. */
  predicate CopyOk(pc: Pc, tokens: seq<Token>) {
    pc.VerifyReadsClock? && pc.row.Some? ==>
      && pc.id < |tokens| && tokens[pc.id].expires == pc.row.value.expires
      && (pc.row.value.revoked ==> tokens[pc.id].revoked)
  }

  ghost predicate CopiesOk(s: State) { forall t :: t in s.threads ==> CopyOk(s.threads[t], s.db.tokens) }

  lemma CopyKept(pc: Pc, before: seq<Token>, after: seq<Token>)
    requires CopyOk(pc, before) && |before| <= |after| && OnlyRevokes(before, after[..|before|])
    ensures CopyOk(pc, after)
  {
    if pc.VerifyReadsClock? && pc.row.Some? {
      assert after[..|before|][pc.id] == after[pc.id];
    }
  }

  lemma TurnCopy(pc: Pc, db: Db, clock: int, limit: int, pick: Code)
    requires CopyOk(pc, db.tokens)
    ensures var turn := Act(pc, db, clock, limit, pick); CopyOk(turn.pc, turn.db.tokens)
  {
    if InMint(pc) {
    } else if InSpend(pc) {
    } else if InPair(pc) {
    }
  }

  lemma CopiesStep(s: State, e: Event)
    requires CopiesOk(s) && Enabled(s, e)
    ensures CopiesOk(Next(s, e))
  {
    match e
    case Tick =>
    case Start(t, call) =>
    case Step(t, pick) =>
      var pc, before, after := PcOf(s, t), s.db.tokens, TurnOf(s, t, pick).db.tokens;
      TurnCopy(pc, s.db, s.clock, Ceiling(s.maxTokens), pick);
      TurnTokens(pc, s.db, s.clock, Ceiling(s.maxTokens), pick);
      assert after[..|before|] == before || (|after| == |before| && after[..|before|] == after);
      forall u | u in s.threads && u != t ensures CopyOk(s.threads[u], after) {
        CopyKept(s.threads[u], before, after);
      }
  }

  lemma {:induction false} CopiesRun(s: State, run: seq<Event>)
    requires CopiesOk(s) && Legal(s, run)
    ensures CopiesOk(After(s, run))
    decreases run
  {
    if run != [] {
      CopiesStep(s, run[0]);
      CopiesRun(Next(s, run[0]), run[1..]);
    }
  }

  predicate ExpiredAt(token: Token, now: int) { token.expires.Some? && token.expires.value <= now }

  /** An expired token never verifies again, whatever calls are under way: the rows they hold have the
      same expiry. */
  lemma ExpiredForGood(s: State, run: seq<Event>, more: seq<Event>, id: nat)
    requires Initial(s) && Legal(s, run)
    requires id < |After(s, run).db.tokens| && ExpiredAt(After(s, run).db.tokens[id], After(s, run).clock)
    ensures NotVerified(After(s, run), more, id)
  {
    CopiesRun(s, run);
    NeverAgainExactly(After(s, run), id);
  }
}
