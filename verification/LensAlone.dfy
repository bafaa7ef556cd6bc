/** A Lens call whose steps nobody interrupts does to the tables what the method of `LensStore` does. */
module LensAlone {
  import opened Options
  import opened LensTables
  import opened LensProtocol
  import opened LensAtomicity

  function Ttl(call: Call): int { if call.MintCall? || call.PairCall? then call.ttlDays else 0 }

  predicate Live(tokens: seq<Token>, id: nat, clock: int) {
    id < |tokens| && !tokens[id].revoked && (tokens[id].expires.Some? ==> tokens[id].expires.value > clock)
  }

  /** The tables after a call that began with `before` and took no time. */
  ghost predicate Ends(call: Call, before: Db, clock: int, limit: int, after: Db) {
    match call
    case MintCall(ttl) =>
      after.codes == before.codes && after.tokens == InsertBelow(before.tokens, ExpiryOf(clock, ttl), clock, limit)
    case SpendCall(code) =>
      after.tokens == before.tokens && after.codes == Spend(before.codes, code, clock).0
    case PairCall(code, ttl) =>
      var (tokens, codes, outcome) :=
        Pair(before.tokens, before.codes, code, ExpiryOf(clock, ttl), clock, clock, clock, limit);
      after.tokens == tokens && after.codes == codes
    case NewCodeCall(code, ttl) =>
      after.tokens == before.tokens && after.codes == map[code := clock + if ttl > 1 then ttl else 1]
    case RevokeCall(id) =>
      after.tokens == Revoke(before.tokens, id) && after.codes == before.codes
    case RevokeAllCall =>
      after.tokens == RevokeAll(before.tokens) && after.codes == before.codes
    case VerifyCall(id) =>
      after == if Live(before.tokens, id, clock) then before.(verified := before.verified + [id]) else before
  }

  /** Not yet minted: nothing has changed, or a pairing call has spent its code. */
  ghost predicate Mints(call: Call, before: Db, clock: int, limit: int, c: Caller, db: Db) {
    db.tokens == before.tokens &&
    if c.Direct? then call.MintCall? && db.codes == before.codes
    else
      && call.PairCall? && CountActive(before.tokens, clock) < limit
      && (db.codes, true) == Spend(before.codes, call.code, clock)
  }

  /** About to spend `code`, for its own sake or for a pairing call that counted room for a token. */
  ghost predicate Spends(call: Call, code: Code, before: Db, clock: int, limit: int, c: Caller, db: Db) {
    db.tokens == before.tokens && code != BLANK &&
    if c.Direct? then call == SpendCall(code)
    else call == PairCall(code, c.ttlDays) && CountActive(before.tokens, clock) < limit
  }

  ghost predicate AlongMint(pc: Pc, call: Call, before: Db, clock: int, limit: int, db: Db)
    requires InMint(pc)
  {
    match pc
    case MintReadsExpiry(ttl, c) => Mints(call, before, clock, limit, c, db) && ttl == Ttl(call)
    case MintReadsNow(x, c) => Mints(call, before, clock, limit, c, db) && x == ExpiryOf(clock, Ttl(call))
    case MintLocks(x, now, c) =>
      Mints(call, before, clock, limit, c, db) && x == ExpiryOf(clock, Ttl(call)) && now == clock
    case MintInserts(x, now, c) =>
      Mints(call, before, clock, limit, c, db) && x == ExpiryOf(clock, Ttl(call)) && now == clock
    case MintUnlocks(_, _, _, c) => Ends(call, before, clock, limit, db)
  }

  ghost predicate AlongSpend(pc: Pc, call: Call, before: Db, clock: int, limit: int, db: Db)
    requires InSpend(pc)
  {
    match pc
    case SpendReadsNow(code, c) => Spends(call, code, before, clock, limit, c, db) && db.codes == before.codes
    case SpendLocks(code, now, c) =>
      Spends(call, code, before, clock, limit, c, db) && db.codes == before.codes && now == clock
    case SpendLists(code, now, c) =>
      Spends(call, code, before, clock, limit, c, db) && db.codes == before.codes && now == clock
    case SpendDeletes(code, now, listed, stale, c) =>
      && Spends(call, code, before, clock, limit, c, db) && now == clock
      && (forall k :: k in db.codes ==> (db.codes[k] <= now <==> k in stale))
      && Unexpired(db.codes, now) == Unexpired(before.codes, now)
    case SpendUnlocks(code, now, good, c) =>
      && Spends(call, code, before, clock, limit, c, db)
      && (db.codes, good) == Spend(before.codes, code, clock)
  }

  ghost predicate AlongOther(pc: Pc, call: Call, before: Db, clock: int, limit: int, db: Db)
    requires !InMint(pc) && !InSpend(pc)
  {
    match pc
    case PairLocks(code, ttl) => call == PairCall(code, ttl) && db == before
    case PairReadsClock(code, ttl) => call == PairCall(code, ttl) && db == before
    case PairCounts(code, ttl, check) => call == PairCall(code, ttl) && db == before && check == clock
    case NewLists(code, ttl) => call == NewCodeCall(code, ttl) && db == before
    case NewClears(code, ttl, stale) =>
      call == NewCodeCall(code, ttl) && db.tokens == before.tokens && db.codes.Keys == stale
    case NewReadsClock(code, ttl) =>
      call == NewCodeCall(code, ttl) && db.tokens == before.tokens && db.codes.Keys == {}
    case NewStores(code, x) =>
      && call.NewCodeCall? && code == call.code && x == clock + (if call.ttlSeconds > 1 then call.ttlSeconds else 1)
      && db.tokens == before.tokens && db.codes.Keys == {}
    case RevokesOne(id) => call == RevokeCall(id) && db == before
    case RevokesAll => call.RevokeAllCall? && db == before
    case VerifyReadsRow(id) => call == VerifyCall(id) && db == before
    case VerifyReadsClock(id, row) =>
      call == VerifyCall(id) && db == before && row == if id < |db.tokens| then Some(db.tokens[id]) else None
    case _ => Ends(call, before, clock, limit, db)
  }

  ghost predicate Along(pc: Pc, call: Call, before: Db, clock: int, limit: int, db: Db) {
    if InMint(pc) then AlongMint(pc, call, before, clock, limit, db)
    else if InSpend(pc) then AlongSpend(pc, call, before, clock, limit, db)
    else AlongOther(pc, call, before, clock, limit, db)
  }

  lemma Begun(call: Call, db: Db, clock: int, limit: int)
    ensures Along(Begin(call), call, db, clock, limit, db)
  {
  }

  lemma MintAlong(pc: Pc, call: Call, before: Db, clock: int, limit: int, db: Db)
    requires InMint(pc) && AlongMint(pc, call, before, clock, limit, db)
    ensures var turn := MintTurn(pc, db, clock, limit); Along(turn.pc, call, before, clock, limit, turn.db)
  {
  }

  lemma SpendAlong(pc: Pc, call: Call, before: Db, clock: int, limit: int, db: Db, pick: Code)
    requires InSpend(pc) && AlongSpend(pc, call, before, clock, limit, db)
    ensures var turn := SpendTurn(pc, db, clock, pick); Along(turn.pc, call, before, clock, limit, turn.db)
  {
    if pc.SpendDeletes? {
      if pick in pc.stale {
        SameRows(Unexpired(db.codes - {pick}, clock), Unexpired(db.codes, clock));
      } else if pc.stale == {} {
        assert forall k :: k in db.codes && k !in pc.stale ==> db.codes[k] > pc.now;
        NoneStale(db.codes, pc.code, pc.now);
      }
    }
  }

  lemma OtherAlong(pc: Pc, call: Call, before: Db, clock: int, limit: int, db: Db, pick: Code)
    requires !InMint(pc) && !InSpend(pc) && AlongOther(pc, call, before, clock, limit, db)
    ensures var turn := Act(pc, db, clock, limit, pick); Along(turn.pc, call, before, clock, limit, turn.db)
  {
    if pc.NewStores? {
      SameRows(db.codes[pc.code := pc.expiresAt], map[pc.code := pc.expiresAt]);
    }
  }

  /** All events of the run are steps of `t`. */
  predicate StepsOf(run: seq<Event>, t: Thread) { forall e :: e in run ==> e.Step? && e.t == t }

  lemma {:induction false} RunAlong(s: State, run: seq<Event>, t: Thread, call: Call, before: Db)
    requires StepsOf(run, t) && Along(PcOf(s, t), call, before, s.clock, Ceiling(s.maxTokens), s.db)
    ensures var end := After(s, run); Along(PcOf(end, t), call, before, s.clock, Ceiling(s.maxTokens), end.db)
    decreases run
  {
    if run != [] {
      assert run[0] in run;
      assert forall e :: e in run[1..] ==> e in run;
      var pc, limit := PcOf(s, t), Ceiling(s.maxTokens);
      if InMint(pc) {
        MintAlong(pc, call, before, s.clock, limit, s.db);
      } else if InSpend(pc) {
        SpendAlong(pc, call, before, s.clock, limit, s.db, run[0].pick);
      } else {
        OtherAlong(pc, call, before, s.clock, limit, s.db, run[0].pick);
      }
      RunAlong(Next(s, run[0]), run[1..], t, call, before);
    }
  }

  /** Whatever other threads are in the middle of, a call that starts and runs to its end without a step
      of theirs or of the clock has done to the tables what its method does. */
  lemma AloneLikeStore(s: State, t: Thread, call: Call, run: seq<Event>)
    requires StepsOf(run, t) && PcOf(After(Next(s, Start(t, call)), run), t).Idle?
    ensures Ends(call, s.db, s.clock, Ceiling(s.maxTokens), After(Next(s, Start(t, call)), run).db)
  {
    Begun(call, s.db, s.clock, Ceiling(s.maxTokens));
    RunAlong(Next(s, Start(t, call)), run, t, call, s.db);
  }
}
