/** Within one process `lens_pair_with_code` is one unit of work; across processes it is not. */
module LensAtomicity {
  import opened LensTables
  import opened LensProtocol
  import opened LensSafety

  /** Verifying a token only reads the tables. */
  predicate OnlyReads(pc: Pc) { pc.Idle? || pc.VerifyReadsRow? || pc.VerifyReadsClock? }

  /** Every thread that may write the tables is of this process. */
  ghost predicate WritesIn(s: State, process: nat) {
    forall t :: t in s.threads && !OnlyReads(s.threads[t]) ==> t.process == process
  }

  predicate MayWrite(e: Event) { e.Start? && !e.call.VerifyCall? }

  ghost predicate WritesOnlyIn(run: seq<Event>, process: nat) {
    forall e :: e in run && MayWrite(e) ==> e.t.process == process
  }

  /** The tables are as they were when the tokens were counted, and the count was below the limit. */
  ghost predicate Untouched(c: Caller, db: Db, limit: int) {
    c.Pairing? ==> db.codes == c.entry.codes && Below(c, db, limit)
  }

  ghost predicate Below(c: Caller, db: Db, limit: int) {
    c.Pairing? ==> c.code != BLANK && db.tokens == c.entry.tokens && CountActive(c.entry.tokens, c.check) < limit
  }

  ghost predicate CodeSpent(c: Caller, db: Db) {
    c.Pairing? ==> (db.codes, true) == Spend(c.entry.codes, c.code, c.spentAt)
  }

  /** How the tables relate, at each point of a call, to what they were when it counted. */
  ghost predicate OnTrack(pc: Pc, db: Db, limit: int) {
    match pc
    case SpendReadsNow(code, c) => Untouched(c, db, limit) && (c.Pairing? ==> code == c.code)
    case SpendLocks(code, _, c) => Untouched(c, db, limit) && (c.Pairing? ==> code == c.code)
    case SpendLists(code, _, c) => Untouched(c, db, limit) && (c.Pairing? ==> code == c.code)
    case SpendDeletes(code, now, listed, stale, c) =>
      && db.codes.Keys <= listed
      && (forall k :: k in db.codes ==> (db.codes[k] <= now <==> k in stale))
      && Below(c, db, limit)
      && (c.Pairing? ==> code == c.code && Unexpired(db.codes, now) == Unexpired(c.entry.codes, now))
    case SpendUnlocks(code, now, good, c) =>
      && Below(c, db, limit)
      && (c.Pairing? ==> code == c.code && (db.codes, good) == Spend(c.entry.codes, code, now))
    case MintReadsExpiry(_, c) => Below(c, db, limit) && CodeSpent(c, db)
    case MintReadsNow(_, c) => Below(c, db, limit) && CodeSpent(c, db)
    case MintLocks(_, _, c) => Below(c, db, limit) && CodeSpent(c, db)
    case MintInserts(_, _, c) => Below(c, db, limit) && CodeSpent(c, db)
    case MintUnlocks(x, now, minted, c) =>
      c.Pairing? ==>
        && minted && CodeSpent(c, db) && db.tokens == c.entry.tokens + [Token(x, false)]
        && CountActive(c.entry.tokens, c.check) < limit && CountActive(c.entry.tokens, now) < limit
    case PairUnlocks(outcome, code, entry, check, spentAt, x, mintedAt) =>
      (db.tokens, db.codes, outcome) == Pair(entry.tokens, entry.codes, code, x, check, spentAt, mintedAt, limit)
    case _ => true
  }

  ghost predicate Serial(s: State, process: nat) {
    && WritesIn(s, process) && LockOk(s) && ClocksOk(s)
    && (forall t :: t in s.threads ==> OnTrack(s.threads[t], s.db, Ceiling(s.maxTokens)))
    && (forall a :: a in s.db.accepted ==> a.listed)
  }

  lemma NoneStale(codes: Codes, code: Code, now: int)
    requires forall k :: k in codes ==> codes[k] > now
    ensures Unexpired(codes, now) == codes && (code !in codes ==> codes - {code} == codes)
  {
    assert forall k :: k in codes ==> k in Unexpired(codes, now);
    SameRows(Unexpired(codes, now), codes);
    if code !in codes {
      SameRows(codes - {code}, codes);
    }
  }

  lemma TurnOnTrack(pc: Pc, db: Db, clock: int, limit: int, pick: Code)
    requires OnTrack(pc, db, limit) && ClockOk(pc, clock)
    ensures var turn := Act(pc, db, clock, limit, pick); OnTrack(turn.pc, turn.db, limit)
  {
    if InMint(pc) {
      if pc.MintInserts? && pc.caller.Pairing? {
        CountLater(db.tokens, pc.caller.check, pc.now);
      }
    } else if InSpend(pc) {
      if pc.SpendDeletes? && pc.stale == {} {
        assert forall k :: k in db.codes && k !in pc.stale ==> db.codes[k] > pc.now;
        NoneStale(db.codes, pc.code, pc.now);
      }
    } else if InPair(pc) {
    }
  }

  /** Outside the lock a step writes nothing another call depends on. */
  lemma TurnOutside(pc: Pc, db: Db, clock: int, limit: int, pick: Code)
    requires Depth(pc) == 0 && !NeedsLock(pc)
    ensures var after := Act(pc, db, clock, limit, pick).db;
            after.tokens == db.tokens && after.codes == db.codes
  {
  }

  lemma TurnListed(pc: Pc, db: Db, clock: int, limit: int, pick: Code)
    requires OnTrack(pc, db, limit)
    requires forall a :: a in db.accepted ==> a.listed
    ensures forall a :: a in Act(pc, db, clock, limit, pick).db.accepted ==> a.listed
  {
    if InMint(pc) {
    } else if InSpend(pc) {
    } else if InPair(pc) {
    }
  }

  lemma OutsideOnTrack(pc: Pc, db: Db, limit: int)
    requires Depth(pc) == 0
    ensures OnTrack(pc, db, limit)
  {
  }

  /** A thread that only reads goes on reading and leaves the tables alone. */
  lemma TurnReads(pc: Pc, db: Db, clock: int, limit: int, pick: Code)
    ensures var turn := Act(pc, db, clock, limit, pick);
            && (OnlyReads(pc) ==> OnlyReads(turn.pc) && turn.db.tokens == db.tokens && turn.db.codes == db.codes)
            && (!OnlyReads(turn.pc) ==> !OnlyReads(pc))
  {
    if InMint(pc) {
    } else if InSpend(pc) {
    } else if InPair(pc) {
    }
  }

  lemma SerialStep(s: State, e: Event, process: nat)
    requires Serial(s, process) && Enabled(s, e) && (MayWrite(e) ==> e.t.process == process)
    ensures Serial(Next(s, e), process)
  {
    LockStep(s, e);
    ClockStep(s, e);
    match e
    case Tick =>
    case Start(t, call) => OutsideOnTrack(Begin(call), s.db, Ceiling(s.maxTokens));
    case Step(t, pick) =>
      TurnReads(PcOf(s, t), s.db, s.clock, Ceiling(s.maxTokens), pick);
      OthersOnTrack(s, t, pick, process);
  }

  lemma OthersOnTrack(s: State, t: Thread, pick: Code, process: nat)
    requires Serial(s, process) && Enabled(s, Step(t, pick))
    ensures var s' := Next(s, Step(t, pick));
            && (forall u :: u in s'.threads ==> OnTrack(s'.threads[u], s'.db, Ceiling(s.maxTokens)))
            && (forall a :: a in s'.db.accepted ==> a.listed)
  {
    var pc, limit := PcOf(s, t), Ceiling(s.maxTokens);
    var turn := TurnOf(s, t, pick);
    TurnOnTrack(pc, s.db, s.clock, limit, pick);
    TurnListed(pc, s.db, s.clock, limit, pick);
    forall u | u in s.threads && u != t ensures OnTrack(s.threads[u], turn.db, limit) {
      if Depth(s.threads[u]) == 0 {
        OutsideOnTrack(s.threads[u], turn.db, limit);
      } else {
        OthersLeave(s, t, pick, u, process);
        SameTables(s.threads[u], s.db, turn.db, limit);
      }
    }
  }

  /** While a thread is inside the lock nobody else writes. */
  lemma OthersLeave(s: State, t: Thread, pick: Code, u: Thread, process: nat)
    requires WritesIn(s, process) && LockOk(s) && Enabled(s, Step(t, pick))
    requires u in s.threads && u != t && Depth(s.threads[u]) > 0
    ensures TurnOf(s, t, pick).db.tokens == s.db.tokens && TurnOf(s, t, pick).db.codes == s.db.codes
  {
    var pc := PcOf(s, t);
    if OnlyReads(pc) {
      TurnReads(pc, s.db, s.clock, Ceiling(s.maxTokens), pick);
    } else {
      TurnOutside(pc, s.db, s.clock, Ceiling(s.maxTokens), pick);
    }
  }

  lemma SameTables(pc: Pc, db: Db, after: Db, limit: int)
    requires OnTrack(pc, db, limit) && after.tokens == db.tokens && after.codes == db.codes
    ensures OnTrack(pc, after, limit)
  {
  }

  lemma {:induction false} SerialRun(s: State, run: seq<Event>, process: nat)
    requires Serial(s, process) && Legal(s, run) && WritesOnlyIn(run, process)
    ensures Serial(After(s, run), process)
    decreases run
  {
    if run != [] {
      assert run[0] in run;
      assert forall e :: e in run[1..] ==> e in run;
      SerialStep(s, run[0], process);
      SerialRun(Next(s, run[0]), run[1..], process);
    }
  }

  lemma PairEnds(pc: Pc, db: Db, clock: int, limit: int)
    requires pc.PairUnlocks? && OnTrack(pc, db, limit) && ClockOk(pc, clock)
    ensures (db.tokens, db.codes, pc.outcome)
            == Pair(pc.entry.tokens, pc.entry.codes, pc.code, pc.expires, pc.check, pc.spentAt, pc.mintedAt, limit)
    ensures pc.outcome != Wasted
  {
    PairNeverWastes(pc.entry.tokens, pc.entry.codes, pc.code, pc.expires, pc.check, pc.spentAt, pc.mintedAt, limit);
  }

  /** If one process does all the writing, whatever its threads do and whoever verifies, a pairing call
      that reaches its end has done to the tables it counted exactly what `Pair` says: refused at the
      ceiling and changed nothing, found the code bad and added no token, or spent the code and added
      one token.  It never spends a code for nothing, and no accepted code had expired. */
  lemma PairIsAtomic(s: State, run: seq<Event>, t: Thread, process: nat)
    requires Initial(s) && Legal(s, run) && WritesOnlyIn(run, process)
    ensures var s' := After(s, run);
            var pc := PcOf(s', t);
            && (pc.PairUnlocks? ==>
                && (s'.db.tokens, s'.db.codes, pc.outcome)
                   == Pair(pc.entry.tokens, pc.entry.codes, pc.code, pc.expires, pc.check, pc.spentAt,
                           pc.mintedAt, Ceiling(s'.maxTokens))
                && pc.outcome != Wasted)
            && (forall a :: a in s'.db.accepted ==> a.expires > a.now)
  {
    SerialRun(s, run, process);
    CodesRun(s, run);
    var s' := After(s, run);
    if PcOf(s', t).PairUnlocks? {
      assert t in s'.threads;
      PairEnds(PcOf(s', t), s'.db, s'.clock, Ceiling(s'.maxTokens));
    }
  }
}
