/** Pairing as a protocol: any number of processes, any number of threads in each, every SQL
    statement and every clock reading a step of its own.

    A process's threads share one re-entrant lock (`_WRITE_LOCK`); another process has its own
    and does not see this one, so across processes only single statements are atomic.  A thread
    may read its clock long before it gets the lock.  Helpers that hold the lock for one
    statement take one step, possible only while no other thread of the process holds it. */
module LensProtocol {
  import opened Options
  import opened LensTables

  datatype Thread = Thread(process: nat, number: nat)

  datatype Lock = Free | Held(owner: Thread, depth: nat)

  /** The tables when a pairing call, inside its locked block, counted the active tokens. */
  datatype Snapshot = Snapshot(tokens: seq<Token>, codes: Codes)

  /** Who called `lens_consume_pairing_code` or `lens_mint_token`: nobody, or a pairing call
      that counted at `check` and (once minting) spent its code at `spentAt`. */
  datatype Caller = Direct | Pairing(code: Code, ttlDays: int, entry: Snapshot, check: int, spentAt: int)

  /** Where a thread is.  Each value but `Idle` names the step the thread does next. */
  datatype Pc =
    | Idle
    | MintReadsExpiry(ttlDays: int, caller: Caller)
    | MintReadsNow(expires: Option<int>, caller: Caller)
    | MintLocks(expires: Option<int>, now: int, caller: Caller)
    | MintInserts(expires: Option<int>, now: int, caller: Caller)
    | MintUnlocks(expires: Option<int>, now: int, minted: bool, caller: Caller)
    | SpendReadsNow(code: Code, caller: Caller)
    | SpendLocks(code: Code, now: int, caller: Caller)
    | SpendLists(code: Code, now: int, caller: Caller)
    | SpendDeletes(code: Code, now: int, listed: set<Code>, stale: set<Code>, caller: Caller)
    | SpendUnlocks(code: Code, now: int, good: bool, caller: Caller)
    | PairLocks(code: Code, ttlDays: int)
    | PairReadsClock(code: Code, ttlDays: int)
    | PairCounts(code: Code, ttlDays: int, check: int)
    | PairUnlocks(outcome: Outcome, code: Code, entry: Snapshot, check: int, spentAt: int,
                  expires: Option<int>, mintedAt: int)
    | NewLists(code: Code, ttlSeconds: int)
    | NewClears(code: Code, ttlSeconds: int, stale: set<Code>)
    | NewReadsClock(code: Code, ttlSeconds: int)
    | NewStores(code: Code, expiresAt: int)
    | RevokesOne(id: nat)
    | RevokesAll
    | VerifyReadsRow(id: nat)
    | VerifyReadsClock(id: nat, row: Option<Token>)

  datatype Call =
    | MintCall(ttlDays: int)
    | SpendCall(code: Code)
    | PairCall(code: Code, ttlDays: int)
    | NewCodeCall(code: Code, ttlSeconds: int)
    | RevokeCall(id: nat)
    | RevokeAllCall
    | VerifyCall(id: nat)

  /** A code that was accepted: by a DELETE that removed a row expiring at `expires`, in a call
      that had read `now`; `listed` when the row was there at that call's SELECT. */
  datatype Acceptance = Acceptance(code: Code, expires: int, now: int, listed: bool)

  /** The tables, and what a reader of the log would know of their past. */
  datatype Db = Db(
    tokens: seq<Token>,
    codes: Codes,
    stored: set<Code>,          // every code ever stored
    accepted: seq<Acceptance>,
    verified: seq<nat>          // row ids, one for each successful lens_verify_token
  )

  datatype State = State(
    maxTokens: int,             // `lens.max_tokens`, the same for every caller
    clock: int,
    db: Db,
    drawn: set<Code>,           // codes the random generator has produced
    locks: map<nat, Lock>,
    threads: map<Thread, Pc>
  )

  datatype Event = Tick | Start(t: Thread, call: Call) | Step(t: Thread, pick: Code)

  datatype LockMove = Keep | Enter | Leave

  /** What one step does: where its thread goes, what it writes, what it does to the lock. */
  datatype Turn = Turn(pc: Pc, db: Db, move: LockMove)

  function PcOf(s: State, t: Thread): Pc { if t in s.threads then s.threads[t] else Idle }

  function LockOf(s: State, process: nat): Lock { if process in s.locks then s.locks[process] else Free }

  predicate MayEnter(s: State, t: Thread) {
    var lock := LockOf(s, t.process);
    lock.Free? || lock.owner == t
  }

  /** Steps that need the lock: entering it, or one statement under it. */
  predicate NeedsLock(pc: Pc) {
    pc.MintLocks? || pc.SpendLocks? || pc.PairLocks? || pc.NewLists? || pc.NewClears? ||
    pc.NewStores? || pc.RevokesOne? || pc.RevokesAll? || pc.VerifyReadsRow?
  }

  predicate Enabled(s: State, e: Event) {
    match e
    case Tick => true
    case Start(t, call) => PcOf(s, t).Idle? &&
      (call.NewCodeCall? ==> call.code != BLANK && call.code !in s.drawn)  // fresh random codes
    case Step(t, _) => !PcOf(s, t).Idle? && (NeedsLock(PcOf(s, t)) ==> MayEnter(s, t))
  }

  function Begin(call: Call): Pc {
    match call
    case MintCall(ttl) => MintReadsExpiry(ttl, Direct)
    case SpendCall(code) => if code == BLANK then Idle else SpendReadsNow(code, Direct)
    case PairCall(code, ttl) => PairLocks(code, ttl)
    case NewCodeCall(code, ttl) => NewLists(code, ttl)
    case RevokeCall(id) => RevokesOne(id)
    case RevokeAllCall => RevokesAll
    case VerifyCall(id) => VerifyReadsRow(id)
  }

  // ---- lens_mint_token ----

  predicate InMint(pc: Pc) {
    pc.MintReadsExpiry? || pc.MintReadsNow? || pc.MintLocks? || pc.MintInserts? || pc.MintUnlocks?
  }

  function MintTurn(pc: Pc, db: Db, clock: int, limit: int): Turn
    requires InMint(pc)
  {
    match pc
    case MintReadsExpiry(ttl, c) => Turn(MintReadsNow(ExpiryOf(clock, ttl), c), db, Keep)
    case MintReadsNow(x, c) => Turn(MintLocks(x, clock, c), db, Keep)
    case MintLocks(x, now, c) => Turn(MintInserts(x, now, c), db, Enter)
    case MintInserts(x, now, c) =>
      Turn(MintUnlocks(x, now, CountActive(db.tokens, now) < limit, c),
           db.(tokens := InsertBelow(db.tokens, x, now, limit)), Keep)
    case MintUnlocks(x, now, minted, c) =>
      Turn(if c.Direct? then Idle
           else PairUnlocks(if minted then Paired else Wasted, c.code, c.entry, c.check, c.spentAt, x, now),
           db, Leave)
  }

  // ---- lens_consume_pairing_code ----

  predicate InSpend(pc: Pc) {
    pc.SpendReadsNow? || pc.SpendLocks? || pc.SpendLists? || pc.SpendDeletes? || pc.SpendUnlocks?
  }

  function Stale(codes: Codes, now: int): set<Code> { set k | k in codes && codes[k] <= now }

  /** `pick` is the next stale row to delete, or anything once none is left. */
  function SpendTurn(pc: Pc, db: Db, clock: int, pick: Code): Turn
    requires InSpend(pc)
  {
    match pc
    case SpendReadsNow(code, c) => Turn(SpendLocks(code, clock, c), db, Keep)
    case SpendLocks(code, now, c) => Turn(SpendLists(code, now, c), db, Enter)
    case SpendLists(code, now, c) =>
      Turn(SpendDeletes(code, now, db.codes.Keys, Stale(db.codes, now), c), db, Keep)
    case SpendDeletes(code, now, listed, stale, c) =>
      if pick in stale then
        Turn(SpendDeletes(code, now, listed, stale - {pick}, c), db.(codes := db.codes - {pick}), Keep)
      else if stale != {} then Turn(pc, db, Keep)
      else if code in db.codes then
        Turn(SpendUnlocks(code, now, true, c),
             db.(codes := db.codes - {code},
                 accepted := db.accepted + [Acceptance(code, db.codes[code], now, code in listed)]), Keep)
      else Turn(SpendUnlocks(code, now, false, c), db, Keep)
    case SpendUnlocks(code, now, good, c) =>
      Turn(if c.Direct? then Idle
           else if good then MintReadsExpiry(c.ttlDays, c.(spentAt := now))
           else PairUnlocks(BadCode, c.code, c.entry, c.check, now, None, now),
           db, Leave)
  }

  // ---- lens_pair_with_code ----

  predicate InPair(pc: Pc) {
    pc.PairLocks? || pc.PairReadsClock? || pc.PairCounts? || pc.PairUnlocks?
  }

  function PairTurn(pc: Pc, db: Db, clock: int, limit: int): Turn
    requires InPair(pc)
  {
    match pc
    case PairLocks(code, ttl) => Turn(PairReadsClock(code, ttl), db, Enter)
    case PairReadsClock(code, ttl) => Turn(PairCounts(code, ttl, clock), db, Keep)
    case PairCounts(code, ttl, check) =>
      var entry := Snapshot(db.tokens, db.codes);
      Turn(if CountActive(db.tokens, check) >= limit then PairUnlocks(AtCeiling, code, entry, check, check, None, check)
           else if code == BLANK then PairUnlocks(BadCode, code, entry, check, check, None, check)
           else SpendReadsNow(code, Pairing(code, ttl, entry, check, check)),
           db, Keep)
    case PairUnlocks(_, _, _, _, _, _, _) => Turn(Idle, db, Leave)
  }

  // ---- lens_new_pairing_code, the revoke functions, lens_verify_token ----

  function OtherTurn(pc: Pc, db: Db, clock: int, pick: Code): Turn
    requires !InMint(pc) && !InSpend(pc) && !InPair(pc)
  {
    match pc
    case NewLists(code, ttl) => Turn(NewClears(code, ttl, db.codes.Keys), db, Keep)
    case NewClears(code, ttl, stale) =>
      if pick in stale then Turn(NewClears(code, ttl, stale - {pick}), db.(codes := db.codes - {pick}), Keep)
      else Turn(if stale == {} then NewReadsClock(code, ttl) else pc, db, Keep)
    case NewReadsClock(code, ttl) => Turn(NewStores(code, clock + (if ttl > 1 then ttl else 1)), db, Keep)
    case NewStores(code, x) =>
      Turn(Idle, db.(codes := db.codes[code := x], stored := db.stored + {code}), Keep)
    case RevokesOne(id) => Turn(Idle, db.(tokens := Revoke(db.tokens, id)), Keep)
    case RevokesAll => Turn(Idle, db.(tokens := RevokeAll(db.tokens)), Keep)
    case VerifyReadsRow(id) =>
      Turn(VerifyReadsClock(id, if id < |db.tokens| then Some(db.tokens[id]) else None), db, Keep)
    case VerifyReadsClock(id, row) =>
      Turn(Idle, if row.Some? && ActiveAt(row.value, clock) then db.(verified := db.verified + [id]) else db, Keep)
    case _ => Turn(pc, db, Keep)
  }

  function Act(pc: Pc, db: Db, clock: int, limit: int, pick: Code): Turn {
    if InMint(pc) then MintTurn(pc, db, clock, limit)
    else if InSpend(pc) then SpendTurn(pc, db, clock, pick)
    else if InPair(pc) then PairTurn(pc, db, clock, limit)
    else OtherTurn(pc, db, clock, pick)
  }

  /** The re-entrant lock of `t`'s process after `move`. */
  function Locked(s: State, t: Thread, move: LockMove): map<nat, Lock> {
    var lock := LockOf(s, t.process);
    match move
    case Keep => s.locks
    case Enter => s.locks[t.process := Held(t, if lock.Held? then lock.depth + 1 else 1)]
    case Leave => s.locks[t.process := if lock.Held? && lock.depth > 1 then Held(t, lock.depth - 1) else Free]
  }

  function TurnOf(s: State, t: Thread, pick: Code): Turn {
    Act(PcOf(s, t), s.db, s.clock, Ceiling(s.maxTokens), pick)
  }

  function Next(s: State, e: Event): State {
    match e
    case Tick => s.(clock := s.clock + 1)
    case Start(t, call) =>
      s.(threads := s.threads[t := Begin(call)],
         drawn := if call.NewCodeCall? then s.drawn + {call.code} else s.drawn)
    case Step(t, pick) =>
      var turn := TurnOf(s, t, pick);
      s.(threads := s.threads[t := turn.pc], db := turn.db, locks := Locked(s, t, turn.move))
  }

  ghost predicate Initial(s: State) {
    && (forall t :: t in s.threads ==> s.threads[t].Idle?) && (forall p :: p in s.locks ==> s.locks[p].Free?)
    && s.drawn == s.db.stored == s.db.codes.Keys && BLANK !in s.drawn
    && s.db.accepted == [] && s.db.verified == []
    && CountActive(s.db.tokens, s.clock) <= Ceiling(s.maxTokens)
  }

  ghost predicate Legal(s: State, run: seq<Event>)
    decreases run
  {
    run == [] || (Enabled(s, run[0]) && Legal(Next(s, run[0]), run[1..]))
  }

  function After(s: State, run: seq<Event>): State
    decreases run
  {
    if run == [] then s else After(Next(s, run[0]), run[1..])
  }
}
