/** The rate limit on `/api/lens/claim` (homesoc/db.py): one counter per source, kept in the
    `lens.claim.*` rows of `settings`.  The whole read-count-write runs under the write lock with
    the clock read inside it, so attempts form one sequence under a clock that never goes back.
    Clock readings are microseconds; stored times are whole seconds. */
module ClaimLimit {
  import opened Options
  import opened Sets

  /** A stored row; `blockedUntil` is `None` for the empty text. */
  datatype Counter = Counter(windowStart: int, count: nat, blockedUntil: Option<int>)

  type Source = string

  type Table = map<Source, Counter>

  datatype Verdict = Allowed | Refused(retryAfter: int)

  datatype Attempt = Attempt(source: Source, micros: int)

  const MICROS := 1_000_000

  function Seconds(micros: int): int { micros / MICROS }

  /** Python's `int()`: towards zero, where `/` goes down. */
  function Truncated(micros: int): int {
    if micros >= 0 then micros / MICROS else -((-micros) / MICROS)
  }

  function SecondsUntil(stamp: int, nowMicros: int): int { Truncated(stamp * MICROS - nowMicros) }

  function AtLeastOne(limit: int): (l: int)
    ensures limit >= 1 ==> l == limit
    ensures limit < 1 ==> l == 1
  {
    if limit > 1 then limit else 1
  }

  function Row(table: Table, source: Source): Option<Counter> {
    if source in table then Some(table[source]) else None
  }

  predicate BlockedAt(row: Option<Counter>, sec: int) {
    row.Some? && row.value.blockedUntil.Some? && row.value.blockedUntil.value > sec
  }

  /** `lens_claim_attempt` on one row. */
  function Decide(row: Option<Counter>, nowMicros: int, limit: int, window: nat): (Option<Counter>, Verdict) {
    var sec := Seconds(nowMicros);
    if BlockedAt(row, sec) then
      var wait := SecondsUntil(row.value.blockedUntil.value, nowMicros);
      (row, Refused(if wait > 1 then wait else 1))
    else
      var expired := row.None? || SecondsUntil(row.value.windowStart, nowMicros) < 0 - window;
      var start := if expired then sec else row.value.windowStart;
      var count := if expired then 1 else row.value.count + 1;
      if count > AtLeastOne(limit) then (Some(Counter(start, count, Some(sec + window))), Refused(window))
      else (Some(Counter(start, count, None)), Allowed)
  }

  function Put(table: Table, source: Source, row: Option<Counter>): Table {
    if row.Some? then table[source := row.value] else table
  }

  function AfterOne(table: Table, a: Attempt, limit: int, window: nat): Table {
    Put(table, a.source, Decide(Row(table, a.source), a.micros, limit, window).0)
  }

  function VerdictOf(table: Table, a: Attempt, limit: int, window: nat): Verdict {
    Decide(Row(table, a.source), a.micros, limit, window).1
  }

  function Run(table: Table, attempts: seq<Attempt>, limit: int, window: nat): Table
    decreases attempts
  {
    if attempts == [] then table
    else Run(AfterOne(table, attempts[0], limit, window), attempts[1..], limit, window)
  }

  function Verdicts(table: Table, attempts: seq<Attempt>, limit: int, window: nat): (vs: seq<Verdict>)
    ensures |vs| == |attempts|
    decreases attempts
  {
    if attempts == [] then []
    else [VerdictOf(table, attempts[0], limit, window)]
         + Verdicts(AfterOne(table, attempts[0], limit, window), attempts[1..], limit, window)
  }

  /** How many attempts of `source` are allowed. */
  function AllowedCount(table: Table, attempts: seq<Attempt>, source: Source, limit: int, window: nat): nat
    decreases attempts
  {
    if attempts == [] then 0
    else
      var a := attempts[0];
      (if a.source == source && VerdictOf(table, a, limit, window) == Allowed then 1 else 0)
      + AllowedCount(AfterOne(table, a, limit, window), attempts[1..], source, limit, window)
  }

  /** Which attempts of `source` are allowed. */
  ghost function AllowedOnes(table: Table, attempts: seq<Attempt>, source: Source, limit: int, window: nat): set<nat> {
    set i | 0 <= i < |attempts| && attempts[i].source == source
            && Verdicts(table, attempts, limit, window)[i] == Allowed
  }

  ghost predicate ForwardClock(attempts: seq<Attempt>) {
    forall i, j :: 0 <= i < j < |attempts| ==> attempts[i].micros <= attempts[j].micros
  }

  // ---- whole seconds are all that matters to a verdict ----

  lemma WindowInSeconds(stamp: int, nowMicros: int, window: nat)
    requires stamp <= Seconds(nowMicros)
    ensures SecondsUntil(stamp, nowMicros) < 0 - window <==> Seconds(nowMicros) - stamp > window
    ensures Seconds(nowMicros) * 1_000_000 <= nowMicros < (Seconds(nowMicros) + 1) * 1_000_000
  {
    var sec, frac := Seconds(nowMicros), nowMicros % MICROS;
    assert nowMicros == sec * MICROS + frac;
    assert stamp * MICROS - nowMicros == -((sec - stamp) * MICROS + frac);
    assert ((sec - stamp) * MICROS + frac) / MICROS == sec - stamp;
  }

  lemma SecondsLater(micros: int, wait: int)
    ensures Seconds(micros + wait * MICROS) == Seconds(micros) + wait
  {
  }

  // ---- the bound ----

  function Left(row: Counter, limit: int): nat {
    if AtLeastOne(limit) > row.count then AtLeastOne(limit) - row.count else 0
  }

  ghost predicate Between(attempts: seq<Attempt>, from: int, to: int) {
    forall a :: a in attempts ==> from <= Seconds(a.micros) <= to
  }

  /** What stored rows look like at second `sec`. */
  predicate Kept(row: Option<Counter>, sec: int, limit: int) {
    row.Some? ==>
      && row.value.windowStart <= sec && row.value.count >= 1
      && (row.value.blockedUntil.Some? ==> row.value.count > AtLeastOne(limit))
  }

  ghost predicate AllKept(table: Table, sec: int, limit: int) {
    forall k :: k in table ==> Kept(Some(table[k]), sec, limit)
  }

  /** What one source can still get out of attempts made within `window` seconds of `from`: what is
      left of a window opened since `from`, which cannot end in time; otherwise what is left of the
      old window, and one whole window more. */
  function Prospect(row: Option<Counter>, from: int, limit: int): nat {
    if row.None? then AtLeastOne(limit)
    else if row.value.windowStart >= from then Left(row.value, limit)
    else Left(row.value, limit) + AtLeastOne(limit)
  }

  /** An attempt takes from the prospect what it is allowed. */
  lemma ProspectStep(row: Option<Counter>, micros: int, from: int, limit: int, window: nat)
    requires Kept(row, Seconds(micros), limit) && from <= Seconds(micros) <= from + window
    ensures var (next, verdict) := Decide(row, micros, limit, window);
            && (if verdict == Allowed then 1 else 0) + Prospect(next, from, limit) <= Prospect(row, from, limit)
            && Kept(next, Seconds(micros), limit)
  {
    if row.Some? {
      WindowInSeconds(row.value.windowStart, micros, window);
    }
  }

  lemma KeptLater(row: Option<Counter>, sec: int, later: int, limit: int)
    requires Kept(row, sec, limit) && sec <= later
    ensures Kept(row, later, limit)
  {
  }

  lemma {:induction false} SpanProspect(table: Table, attempts: seq<Attempt>, source: Source,
                                        from: int, limit: int, window: nat)
    requires Between(attempts, from, from + window) && ForwardClock(attempts)
    requires attempts != [] ==> Kept(Row(table, source), Seconds(attempts[0].micros), limit)
    ensures AllowedCount(table, attempts, source, limit, window) <= Prospect(Row(table, source), from, limit)
    decreases attempts
  {
    if attempts != [] {
      var a, rest := attempts[0], attempts[1..];
      assert a in attempts && forall b :: b in rest ==> b in attempts;
      if a.source == source {
        ProspectStep(Row(table, source), a.micros, from, limit, window);
      }
      var next := AfterOne(table, a, limit, window);
      if rest != [] {
        assert attempts[0].micros <= attempts[1].micros;
        KeptLater(Row(next, source), Seconds(a.micros), Seconds(rest[0].micros), limit);
      }
      SpanProspect(next, rest, source, from, limit, window);
    }
  }

  lemma {:induction false} RunKept(table: Table, attempts: seq<Attempt>, i: nat, limit: int, window: nat)
    requires i < |attempts| && ForwardClock(attempts)
    requires AllKept(table, Seconds(attempts[0].micros), limit)
    ensures AllKept(Run(table, attempts[..i], limit, window), Seconds(attempts[i].micros), limit)
    decreases i
  {
    if i > 0 {
      var next := AfterOne(table, attempts[0], limit, window);
      assert attempts[..i][1..] == attempts[1..][..i - 1];
      assert AllKept(next, Seconds(attempts[1].micros), limit);
      RunKept(next, attempts[1..], i - 1, limit, window);
    }
  }

  lemma SpanInSeconds(attempts: seq<Attempt>, i: nat, j: nat, window: nat)
    requires ForwardClock(attempts) && i < j <= |attempts|
    requires attempts[j - 1].micros - attempts[i].micros <= window * MICROS
    ensures Between(attempts[i..j], Seconds(attempts[i].micros), Seconds(attempts[i].micros) + window)
  {
    var from := Seconds(attempts[i].micros);
    SecondsLater(attempts[i].micros, window);
    forall a | a in attempts[i..j] ensures from <= Seconds(a.micros) <= from + window {
      var span := attempts[i..j];
      var k :| 0 <= k < |span| && span[k] == a;
      assert attempts[i].micros <= attempts[i + k].micros <= attempts[j - 1].micros;
    }
  }

  lemma SpanForward(attempts: seq<Attempt>, i: nat, j: nat)
    requires ForwardClock(attempts) && i <= j <= |attempts|
    ensures ForwardClock(attempts[i..j])
  {
  }

  /** In any stretch of `window_seconds` of any run, whatever other sources do, one source gets
      fewer than twice the limit of attempts allowed. */
  lemma RateBound(table: Table, attempts: seq<Attempt>, i: nat, j: nat, source: Source, limit: int, window: nat)
    requires ForwardClock(attempts) && i < j <= |attempts|
    requires AllKept(table, Seconds(attempts[0].micros), limit)
    requires attempts[j - 1].micros - attempts[i].micros <= window * 1_000_000
    ensures AllowedCount(Run(table, attempts[..i], limit, window), attempts[i..j], source, limit, window)
            <= if limit >= 1 then 2 * limit - 1 else 1
  {
    RunKept(table, attempts, i, limit, window);
    SpanInSeconds(attempts, i, j, window);
    SpanForward(attempts, i, j);
    SpanAllowed(Run(table, attempts[..i], limit, window), attempts[i..j], source, limit, window);
  }

  lemma SpanAllowed(table: Table, span: seq<Attempt>, source: Source, limit: int, window: nat)
    requires span != [] && ForwardClock(span) && AllKept(table, Seconds(span[0].micros), limit)
    requires Between(span, Seconds(span[0].micros), Seconds(span[0].micros) + window)
    ensures AllowedCount(table, span, source, limit, window) <= 2 * AtLeastOne(limit) - 1
  {
    SpanProspect(table, span, source, Seconds(span[0].micros), limit, window);
  }

  ghost predicate AllFrom(attempts: seq<Attempt>, source: Source) {
    forall a :: a in attempts ==> a.source == source
  }

  lemma WindowStep(row: Counter, micros: int, limit: int, window: nat)
    requires row.windowStart <= Seconds(micros) <= row.windowStart + window
    requires row.blockedUntil.Some? ==> row.count > AtLeastOne(limit)
    ensures var (next, verdict) := Decide(Some(row), micros, limit, window);
            && next.Some? && next.value.windowStart == row.windowStart
            && (verdict == Allowed <==> row.count < AtLeastOne(limit))
            && (next.value.count == row.count + 1 || (next.value == row && row.count > AtLeastOne(limit)))
            && (next.value.blockedUntil.Some? <==> next.value.count > AtLeastOne(limit))
  {
    WindowInSeconds(row.windowStart, micros, window);
  }

  lemma VerdictLater(table: Table, attempts: seq<Attempt>, k: nat, limit: int, window: nat)
    requires k + 1 < |attempts|
    ensures Verdicts(table, attempts, limit, window)[k + 1]
            == Verdicts(AfterOne(table, attempts[0], limit, window), attempts[1..], limit, window)[k]
  {
  }

  lemma FromSecond(attempts: seq<Attempt>, source: Source, from: int, to: int)
    requires attempts != [] && AllFrom(attempts, source) && ForwardClock(attempts) && Between(attempts, from, to)
    ensures attempts[0].source == source && AllFrom(attempts[1..], source)
    ensures ForwardClock(attempts[1..]) && Between(attempts[1..], from, to)
  {
    assert attempts[0] in attempts;
    assert forall a :: a in attempts[1..] ==> a in attempts;
  }

  /** Inside one window the first attempts up to the limit (of one at least) are allowed and no
      others. */
  lemma {:induction false} WindowVerdicts(table: Table, attempts: seq<Attempt>, source: Source,
                                          limit: int, window: nat)
    requires AllFrom(attempts, source) && ForwardClock(attempts) && source in table
    requires var row := table[source];
             && Between(attempts, row.windowStart, row.windowStart + window)
             && (row.blockedUntil.Some? ==> row.count > AtLeastOne(limit))
    ensures forall k :: 0 <= k < |attempts| ==>
              (Verdicts(table, attempts, limit, window)[k] == Allowed
               <==> table[source].count + k < if limit >= 1 then limit else 1)
    ensures var after := Run(table, attempts, limit, window);
            && source in after && after[source].windowStart == table[source].windowStart
            && (|attempts| <= Left(table[source], limit) ==> after[source].blockedUntil == table[source].blockedUntil)
    ensures AllowedCount(table, attempts, source, limit, window)
            == if |attempts| < Left(table[source], limit) then |attempts| else Left(table[source], limit)
    decreases attempts
  {
    if attempts != [] {
      var a, row := attempts[0], table[source];
      FromSecond(attempts, source, row.windowStart, row.windowStart + window);
      assert a in attempts;
      var next := AfterOne(table, a, limit, window);
      WindowStep(row, a.micros, limit, window);
      WindowVerdicts(next, attempts[1..], source, limit, window);
      forall k | 0 <= k < |attempts|
        ensures Verdicts(table, attempts, limit, window)[k] == Allowed <==> row.count + k < AtLeastOne(limit)
      {
        if k > 0 {
          VerdictLater(table, attempts, k - 1, limit, window);
        }
      }
    }
  }

  function Burst(source: Source, sec: int, n: nat): seq<Attempt> {
    seq(n, i => Attempt(source, sec * MICROS))
  }

  lemma {:induction false} CountInTwoParts(table: Table, a: seq<Attempt>, b: seq<Attempt>, source: Source,
                                           limit: int, window: nat)
    ensures AllowedCount(table, a + b, source, limit, window)
            == AllowedCount(table, a, source, limit, window)
               + AllowedCount(Run(table, a, limit, window), b, source, limit, window)
    decreases a
  {
    if a == [] {
      assert a + b == b;
    } else {
      assert (a + b)[1..] == a[1..] + b;
      CountInTwoParts(AfterOne(table, a[0], limit, window), a[1..], b, source, limit, window);
    }
  }

  /** The verdict on an attempt is the one its row gets as the attempts before it have left it. */
  lemma {:induction false} VerdictAt(table: Table, attempts: seq<Attempt>, k: nat, limit: int, window: nat)
    requires k < |attempts|
    ensures Verdicts(table, attempts, limit, window)[k]
            == VerdictOf(Run(table, attempts[..k], limit, window), attempts[k], limit, window)
    decreases k
  {
    if k > 0 {
      VerdictAt(AfterOne(table, attempts[0], limit, window), attempts[1..], k - 1, limit, window);
      assert attempts[1..][..k - 1] == attempts[..k][1..];
    }
  }

  lemma SameVerdict(table: Table, attempts: seq<Attempt>, n: nat, i: nat, limit: int, window: nat)
    requires i < n <= |attempts|
    ensures Verdicts(table, attempts[..n], limit, window)[i] == Verdicts(table, attempts, limit, window)[i]
  {
    VerdictAt(table, attempts, i, limit, window);
    VerdictAt(table, attempts[..n], i, limit, window);
    assert attempts[..n][..i] == attempts[..i];
  }

  lemma AllowedBefore(table: Table, attempts: seq<Attempt>, source: Source, limit: int, window: nat)
    requires attempts != []
    ensures var n, all := |attempts| - 1, AllowedOnes(table, attempts, source, limit, window);
            |all| == |AllowedOnes(table, attempts[..n], source, limit, window)| + (if n in all then 1 else 0)
  {
    var n := |attempts| - 1;
    forall i: nat | i < n
      ensures Verdicts(table, attempts[..n], limit, window)[i] == Verdicts(table, attempts, limit, window)[i]
    {
      SameVerdict(table, attempts, n, i, limit, window);
    }
    OneMore(AllowedOnes(table, attempts, source, limit, window),
            AllowedOnes(table, attempts[..n], source, limit, window), n);
  }

  lemma {:induction false} CountIsAllowed(table: Table, attempts: seq<Attempt>, source: Source, limit: int, window: nat)
    ensures AllowedCount(table, attempts, source, limit, window)
            == |AllowedOnes(table, attempts, source, limit, window)|
  {
    if attempts == [] {
      SameSet(AllowedOnes(table, attempts, source, limit, window), {});
    } else {
      var n := |attempts| - 1;
      var was, last := attempts[..n], [attempts[n]];
      CountIsAllowed(table, was, source, limit, window);
      AllowedBefore(table, attempts, source, limit, window);
      VerdictAt(table, attempts, n, limit, window);
      CountInTwoParts(table, was, last, source, limit, window);
      assert was + last == attempts && last[1..] == [];
    }
  }

  /** A burst that opens a new window is allowed up to the limit. */
  lemma NewWindowBurst(table: Table, source: Source, sec: int, n: nat, limit: int, window: nat)
    requires source in table && !BlockedAt(Some(table[source]), sec) && sec - table[source].windowStart > window
    requires 1 <= n <= AtLeastOne(limit)
    ensures AllowedCount(table, Burst(source, sec, n), source, limit, window) == n
  {
    var b := Burst(source, sec, n);
    var next := AfterOne(table, b[0], limit, window);
    WindowInSeconds(table[source].windowStart, sec * MICROS, window);
    assert next[source] == Counter(sec, 1, None);
    assert forall x :: x in b[1..] ==> x.source == source && x.micros == sec * MICROS;
    WindowVerdicts(next, b[1..], source, limit, window);
  }

  /** One attempt, the rest of its window's allowance at the window's end, then a new window's. */
  function Worst(source: Source, limit: int, window: nat): seq<Attempt> {
    [Attempt(source, 0)] + Burst(source, window, AtLeastOne(limit) - 1) + Burst(source, window + 1, AtLeastOne(limit))
  }

  lemma WorstForward(source: Source, limit: int, window: nat)
    requires window >= 1
    ensures var attempts := Worst(source, limit, window);
            ForwardClock(attempts) && attempts[|attempts| - 1].micros - attempts[1].micros <= window * MICROS
  {
    var l, attempts := AtLeastOne(limit), Worst(source, limit, window);
    assert forall i :: 0 < i < |attempts| ==> attempts[i].micros == (if i < l then window else window + 1) * MICROS;
    assert attempts[0].micros == 0;
  }

  lemma WorstFirst(source: Source, limit: int, window: nat)
    ensures Run(map[], [Attempt(source, 0)], limit, window) == map[source := Counter(0, 1, None)]
  {
    var one := [Attempt(source, 0)];
    assert one[1..] == [];
    assert AfterOne(map[], one[0], limit, window) == map[source := Counter(0, 1, None)];
  }

  /** The bound is the best there is: it is reached, for every limit and every window. */
  lemma RateBoundIsReached(source: Source, limit: int, window: nat)
    requires window >= 1
    ensures var attempts := Worst(source, limit, window);
            && ForwardClock(attempts)
            && attempts[|attempts| - 1].micros - attempts[1].micros <= window * 1_000_000
            && AllowedCount(Run(map[], attempts[..1], limit, window), attempts[1..], source, limit, window)
               == if limit >= 1 then 2 * limit - 1 else 1
  {
    var l, attempts := AtLeastOne(limit), Worst(source, limit, window);
    WorstForward(source, limit, window);
    assert attempts[..1] == [Attempt(source, 0)];
    assert attempts[1..] == Burst(source, window, l - 1) + Burst(source, window + 1, l);
    WorstFirst(source, limit, window);
    WorstFrom(map[source := Counter(0, 1, None)], Burst(source, window, l - 1), Burst(source, window + 1, l), source,
              limit, window);
  }

  lemma WorstFrom(first: Table, a: seq<Attempt>, b: seq<Attempt>, source: Source, limit: int, window: nat)
    requires source in first && first[source] == Counter(0, 1, None)
    requires a == Burst(source, window, AtLeastOne(limit) - 1) && b == Burst(source, window + 1, AtLeastOne(limit))
    ensures AllowedCount(first, a + b, source, limit, window) == 2 * AtLeastOne(limit) - 1
  {
    assert forall x :: x in a ==> x.source == source && Seconds(x.micros) == window;
    WindowVerdicts(first, a, source, limit, window);
    CountInTwoParts(first, a, b, source, limit, window);
    NewWindowBurst(Run(first, a, limit, window), source, window + 1, AtLeastOne(limit), limit, window);
  }

  // ---- the lockout ----

  /** While a lockout is in force nothing from its source is allowed, and nothing ends it early. */
  lemma {:induction false} NoneWhileBlocked(table: Table, attempts: seq<Attempt>, source: Source,
                                            until: int, limit: int, window: nat)
    requires source in table && table[source].blockedUntil == Some(until)
    requires forall a :: a in attempts ==> Seconds(a.micros) < until
    ensures AllowedCount(table, attempts, source, limit, window) == 0
    ensures Row(Run(table, attempts, limit, window), source) == Some(table[source])
    decreases attempts
  {
    if attempts != [] {
      assert attempts[0] in attempts;
      assert forall b :: b in attempts[1..] ==> b in attempts;
      NoneWhileBlocked(AfterOne(table, attempts[0], limit, window), attempts[1..], source, until, limit, window);
    }
  }

  /** The attempt after the last allowed one locks the source out for a further window, and says so. */
  lemma LockoutBegins(row: Counter, micros: int, limit: int, window: nat)
    requires Kept(Some(row), Seconds(micros), limit) && !BlockedAt(Some(row), Seconds(micros))
    requires Seconds(micros) - row.windowStart <= window && row.count >= AtLeastOne(limit)
    ensures Decide(Some(row), micros, limit, window)
            == (Some(Counter(row.windowStart, row.count + 1, Some(Seconds(micros) + window))), Refused(window))
  {
    WindowInSeconds(row.windowStart, micros, window);
  }

  /** The promise of `retry_after`: once a lockout is over the source may try again.  Not quite: in
      the first second after it the attempt is allowed if and only if the window had begun before
      the second that locked.  A source whose attempts all fell in one second is locked again. */
  lemma LockoutEnds(row: Counter, locking: int, later: int, limit: int, window: nat)
    requires Kept(Some(row), Seconds(locking), limit) && !BlockedAt(Some(row), Seconds(locking))
    requires Seconds(locking) - row.windowStart <= window && row.count >= AtLeastOne(limit)
    requires Seconds(later) >= Seconds(locking) + window
    ensures var locked := Decide(Some(row), locking, limit, window).0;
            Decide(locked, later, limit, window).1 == Allowed
            <==> (row.windowStart < Seconds(locking) || Seconds(later) > Seconds(locking) + window)
  {
    WindowInSeconds(row.windowStart, locking, window);
    WindowInSeconds(row.windowStart, later, window);
  }

  lemma WaitInSeconds(until: int, nowMicros: int)
    requires until > Seconds(nowMicros)
    ensures SecondsUntil(until, nowMicros)
            == until - Seconds(nowMicros) - (if nowMicros % MICROS == 0 then 0 else 1)
  {
    var sec, frac := Seconds(nowMicros), nowMicros % MICROS;
    assert nowMicros == sec * MICROS + frac;
    assert until * MICROS - nowMicros == (until - sec) * MICROS - frac;
  }

  /** What an attempt after a refusal meets: the lockout while it lasts, then the old window while
      that lasts. */
  lemma AfterRefusal(row: Counter, later: int, limit: int, window: nat)
    requires row.blockedUntil.Some? && row.count > AtLeastOne(limit) && row.windowStart <= Seconds(later)
    ensures Decide(Some(row), later, limit, window).1 == Allowed
            <==> row.blockedUntil.value <= Seconds(later) && row.windowStart < Seconds(later) - window
  {
    WindowInSeconds(row.windowStart, later, window);
  }

  /** Whether the wait that a refusal made at `micros` tells reaches the end of the lockout: always
      from the refusal that begins it; during it the fraction of a second is lost, so only in a whole
      second or in the last one. */
  predicate ToldEnough(row: Option<Counter>, micros: int) {
    var sec := Seconds(micros);
    BlockedAt(row, sec) ==> micros % MICROS == 0 || row.value.blockedUntil.value == sec + 1
  }

  /** The promise of `retry_after`, for every refusal: an attempt exactly that much later is allowed
      if and only if the wait reached the end of the lockout and the window had begun before the
      second that locked. */
  lemma RetryExactly(row: Option<Counter>, micros: int, limit: int, window: nat)
    requires Kept(row, Seconds(micros), limit) && Decide(row, micros, limit, window).1.Refused?
    ensures var (after, told) := Decide(row, micros, limit, window);
            && after.Some? && after.value.blockedUntil.Some?
            && (Decide(after, micros + told.retryAfter * MICROS, limit, window).1 == Allowed
                <==> ToldEnough(row, micros)
                     && after.value.windowStart + window < after.value.blockedUntil.value)
  {
    var sec := Seconds(micros);
    var (after, told) := Decide(row, micros, limit, window);
    SecondsLater(micros, told.retryAfter);
    if BlockedAt(row, sec) {
      WaitInSeconds(row.value.blockedUntil.value, micros);
    } else {
      WindowInSeconds(row.value.windowStart, micros, window);
    }
    AfterRefusal(after.value, micros + told.retryAfter * MICROS, limit, window);
  }

  // ---- forgetting a source ----

  lemma WindowOpens(row: Option<Counter>, micros: int, limit: int, window: nat)
    requires Spent(row, Seconds(micros), window)
    ensures Decide(row, micros, limit, window) == (Some(Counter(Seconds(micros), 1, None)), Allowed)
  {
    SpentLikeNone(row, micros, limit, window);
  }

  /** A source without a row, or whose row no longer matters, begins a new window with its next
      attempt: of its attempts within a window of that one, those up to the limit are allowed and no
      others, and just one if the limit is less. */
  lemma NewWindowVerdicts(table: Table, attempts: seq<Attempt>, source: Source, limit: int, window: nat)
    requires AllFrom(attempts, source) && ForwardClock(attempts) && attempts != []
    requires Between(attempts, Seconds(attempts[0].micros), Seconds(attempts[0].micros) + window)
    requires Spent(Row(table, source), Seconds(attempts[0].micros), window)
    ensures forall k :: 0 <= k < |attempts| ==>
              (Verdicts(table, attempts, limit, window)[k] == Allowed <==> k == 0 || k < limit)
  {
    var a, rest := attempts[0], attempts[1..];
    FromSecond(attempts, source, Seconds(a.micros), Seconds(a.micros) + window);
    WindowOpens(Row(table, source), a.micros, limit, window);
    var next := AfterOne(table, a, limit, window);
    assert source in next && next[source] == Counter(Seconds(a.micros), 1, None);
    WindowVerdicts(next, rest, source, limit, window);
    forall k | 0 <= k < |attempts|
      ensures Verdicts(table, attempts, limit, window)[k] == Allowed <==> k == 0 || k < limit
    {
      if k > 0 {
        VerdictLater(table, attempts, k - 1, limit, window);
      }
    }
  }

  /** After a reset the source starts over, lockout or not. */
  lemma ResetForgives(table: Table, attempts: seq<Attempt>, source: Source, limit: int, window: nat)
    requires AllFrom(attempts, source) && ForwardClock(attempts) && attempts != []
    requires Between(attempts, Seconds(attempts[0].micros), Seconds(attempts[0].micros) + window)
    ensures forall k :: 0 <= k < |attempts| ==>
              (Verdicts(table - {source}, attempts, limit, window)[k] == Allowed <==> k == 0 || k < limit)
  {
    NewWindowVerdicts(table - {source}, attempts, source, limit, window);
  }

  /** And nobody else notices. */
  lemma {:induction false} ResetSparesOthers(t: Table, u: Table, attempts: seq<Attempt>, source: Source, limit: int,
                                             window: nat)
    requires forall k :: k != source ==> Row(t, k) == Row(u, k)
    requires forall a :: a in attempts ==> a.source != source
    ensures Verdicts(t, attempts, limit, window) == Verdicts(u, attempts, limit, window)
    decreases attempts
  {
    if attempts != [] {
      assert attempts[0] in attempts;
      assert forall a :: a in attempts[1..] ==> a in attempts;
      var t', u' := AfterOne(t, attempts[0], limit, window), AfterOne(u, attempts[0], limit, window);
      assert Row(t, attempts[0].source) == Row(u, attempts[0].source);
      forall k | k != source ensures Row(t', k) == Row(u', k) {
        assert Row(t, k) == Row(u, k);
      }
      ResetSparesOthers(t', u', attempts[1..], source, limit, window);
    }
  }

  // ---- purging ----

  function Newest(row: Counter): int {
    if row.blockedUntil.Some? && row.blockedUntil.value > row.windowStart then row.blockedUntil.value
    else row.windowStart
  }

  predicate Stale(row: Counter, nowMicros: int, older: int) { Newest(row) < Seconds(nowMicros) - older }

  /** `lens_purge_claim_counters` with nothing running beside it. */
  function Purged(table: Table, nowMicros: int, older: int): Table {
    map k | k in table && !Stale(table[k], nowMicros, older) :: table[k]
  }

  /** A row that no longer matters: its window is over and it blocks nothing. */
  predicate Spent(row: Option<Counter>, sec: int, window: nat) {
    row.Some? ==> !BlockedAt(row, sec) && sec - row.value.windowStart > window
  }

  lemma SpentLikeNone(row: Option<Counter>, micros: int, limit: int, window: nat)
    requires Spent(row, Seconds(micros), window)
    ensures Decide(row, micros, limit, window) == Decide(None, micros, limit, window)
  {
    if row.Some? {
      WindowInSeconds(row.value.windowStart, micros, window);
    }
  }

  /** Two tables that differ only in rows that no longer matter. */
  ghost predicate Alike(t: Table, u: Table, sec: int, window: nat) { forall k :: RowsAlike(t, u, k, sec, window) }

  predicate RowsAlike(t: Table, u: Table, k: Source, sec: int, window: nat) {
    Row(t, k) == Row(u, k) || (Spent(Row(t, k), sec, window) && Spent(Row(u, k), sec, window))
  }

  lemma {:induction false} AlikeVerdicts(t: Table, u: Table, attempts: seq<Attempt>, sec: int, limit: int, window: nat)
    requires Alike(t, u, sec, window) && ForwardClock(attempts)
    requires attempts != [] ==> sec <= Seconds(attempts[0].micros)
    ensures Verdicts(t, attempts, limit, window) == Verdicts(u, attempts, limit, window)
    decreases attempts
  {
    if attempts != [] {
      var a := attempts[0];
      AlikeAfter(t, u, a, sec, limit, window);
      AlikeVerdicts(AfterOne(t, a, limit, window), AfterOne(u, a, limit, window), attempts[1..], Seconds(a.micros), limit,
                    window);
    }
  }

  /** Every later run of attempts gets the same verdicts from both tables. */
  ghost predicate SameFuture(t: Table, u: Table, micros: int, limit: int, window: nat) {
    forall later: seq<Attempt> | ForwardClock(later) && (later != [] ==> micros <= later[0].micros) ::
      Verdicts(t, later, limit, window) == Verdicts(u, later, limit, window)
  }

  lemma AlikeFuture(t: Table, u: Table, micros: int, limit: int, window: nat)
    requires Alike(t, u, Seconds(micros), window)
    ensures SameFuture(t, u, micros, limit, window)
  {
    forall later: seq<Attempt> | ForwardClock(later) && (later != [] ==> micros <= later[0].micros)
      ensures Verdicts(t, later, limit, window) == Verdicts(u, later, limit, window)
    {
      AlikeVerdicts(t, u, later, Seconds(micros), limit, window);
    }
  }

  /** Purging changes no later verdict, whatever the table, exactly when it spares rows as young as
      the window. */
  lemma PurgeInvisibleExactly(older: int, limit: int, window: nat)
    ensures (forall table, now :: SameFuture(Purged(table, now, older), table, now, limit, window))
            <==> older >= window
  {
    if older >= window {
      forall table, now ensures SameFuture(Purged(table, now, older), table, now, limit, window) {
        PurgedAlike(table, table, now, older, Seconds(now), window);
        AlikeFuture(Purged(table, now, older), table, now, limit, window);
      }
    } else {
      var row, now := Counter(0, AtLeastOne(limit), None), window * MICROS;
      var table: Table := map["" := row];
      var later := [Attempt("", now)];
      WindowInSeconds(0, now, window);
      assert Purged(table, now, older) == map[];
      assert Verdicts(map[], later, limit, window)[0] == Allowed;
      assert Verdicts(table, later, limit, window)[0] == Refused(window);
      assert !SameFuture(Purged(table, now, older), table, now, limit, window);
    }
  }

  /** The three things that happen to the rows. */
  datatype Op = Tries(a: Attempt) | Resets(source: Source, micros: int) | Purges(micros: int)

  function When(op: Op): int {
    match op
    case Tries(a) => a.micros
    case Resets(_, micros) => micros
    case Purges(micros) => micros
  }

  ghost predicate InOrder(ops: seq<Op>) { forall i, j :: 0 <= i < j < |ops| ==> When(ops[i]) <= When(ops[j]) }

  /** The verdicts of a run, with every purge dropping what is older than `older`, or none if `None`. */
  function Answers(table: Table, ops: seq<Op>, older: Option<int>, limit: int, window: nat): seq<Verdict>
    decreases ops
  {
    if ops == [] then []
    else match ops[0]
      case Tries(a) =>
        [VerdictOf(table, a, limit, window)] + Answers(AfterOne(table, a, limit, window), ops[1..], older, limit, window)
      case Resets(source, _) => Answers(table - {source}, ops[1..], older, limit, window)
      case Purges(micros) =>
        Answers(if older.Some? then Purged(table, micros, older.value) else table, ops[1..], older, limit, window)
  }

  /** Purging at the age of the window or more leaves tables alike. */
  lemma PurgedAlike(t: Table, u: Table, micros: int, older: int, sec: int, window: nat)
    requires Alike(t, u, sec, window) && sec <= Seconds(micros) && older >= window
    ensures Alike(Purged(t, micros, older), u, Seconds(micros), window)
  {
    forall k ensures RowsAlike(Purged(t, micros, older), u, k, Seconds(micros), window) {
      assert RowsAlike(t, u, k, sec, window);
    }
  }

  lemma AlikeAfter(t: Table, u: Table, a: Attempt, sec: int, limit: int, window: nat)
    requires Alike(t, u, sec, window) && sec <= Seconds(a.micros)
    ensures VerdictOf(t, a, limit, window) == VerdictOf(u, a, limit, window)
    ensures Alike(AfterOne(t, a, limit, window), AfterOne(u, a, limit, window), Seconds(a.micros), window)
  {
    assert RowsAlike(t, u, a.source, sec, window);
    if Row(t, a.source) != Row(u, a.source) {
      SpentLikeNone(Row(t, a.source), a.micros, limit, window);
      SpentLikeNone(Row(u, a.source), a.micros, limit, window);
    }
    forall k ensures RowsAlike(AfterOne(t, a, limit, window), AfterOne(u, a, limit, window), k, Seconds(a.micros), window) {
      assert RowsAlike(t, u, k, sec, window);
    }
  }

  lemma ResetAlike(t: Table, u: Table, source: Source, sec: int, later: int, window: nat)
    requires Alike(t, u, sec, window) && sec <= later
    ensures Alike(t - {source}, u - {source}, later, window)
  {
    forall k ensures RowsAlike(t - {source}, u - {source}, k, later, window) {
      assert RowsAlike(t, u, k, sec, window);
    }
  }

  lemma {:induction false} AlikeAnswers(t: Table, u: Table, ops: seq<Op>, sec: int, older: int, limit: int, window: nat)
    requires Alike(t, u, sec, window) && InOrder(ops) && older >= window
    requires ops != [] ==> sec <= Seconds(When(ops[0]))
    ensures Answers(t, ops, Some(older), limit, window) == Answers(u, ops, None, limit, window)
    decreases ops
  {
    if ops != [] {
      var now := Seconds(When(ops[0]));
      match ops[0]
      case Tries(a) =>
        AlikeAfter(t, u, a, sec, limit, window);
        AlikeAnswers(AfterOne(t, a, limit, window), AfterOne(u, a, limit, window), ops[1..], now, older, limit, window);
      case Resets(source, _) =>
        ResetAlike(t, u, source, sec, now, window);
        AlikeAnswers(t - {source}, u - {source}, ops[1..], now, older, limit, window);
      case Purges(micros) =>
        PurgedAlike(t, u, micros, older, sec, window);
        AlikeAnswers(Purged(t, micros, older), u, ops[1..], now, older, limit, window);
    }
  }

  ghost predicate SameAnswers(table: Table, ops: seq<Op>, older: int, limit: int, window: nat) {
    InOrder(ops) ==> Answers(table, ops, Some(older), limit, window) == Answers(table, ops, None, limit, window)
  }

  /** So for whole runs that mix attempts, resets and purges: all their verdicts are those of the run
      that never purges, whatever the table, exactly when the purges spare rows as young as the window. */
  lemma PurgingRunsExactly(older: int, limit: int, window: nat)
    ensures (forall table, ops :: SameAnswers(table, ops, older, limit, window)) <==> older >= window
  {
    if older >= window {
      forall table, ops ensures SameAnswers(table, ops, older, limit, window) {
        if InOrder(ops) && ops != [] {
          AlikeAnswers(table, table, ops, Seconds(When(ops[0])), older, limit, window);
        }
      }
    } else {
      var row, now := Counter(0, AtLeastOne(limit), None), window * MICROS;
      var table: Table := map["" := row];
      var attempt := Tries(Attempt("", now));
      var ops := [Purges(now), attempt];
      WindowInSeconds(0, now, window);
      assert Purged(table, now, older) == map[];
      assert ops[1..] == [attempt];
      assert Answers(map[], [attempt], Some(older), limit, window)[0] == Allowed;
      assert Answers(table, [attempt], None, limit, window)[0] == Refused(window);
      assert !SameAnswers(table, ops, older, limit, window);
    }
  }

  /** The purge lists rows first and deletes them one by one later, without looking again.  Deleting
      a source's row is invisible exactly when, at that moment, the row no longer matters. */
  lemma DeleteInvisibleExactly(source: Source, row: Counter, micros: int, limit: int, window: nat)
    requires Kept(Some(row), Seconds(micros), limit)
    ensures SameFuture(map[], map[source := row], micros, limit, window) <==> Spent(Some(row), Seconds(micros), window)
  {
    var with: Table := map[source := row];
    if Spent(Some(row), Seconds(micros), window) {
      assert forall k :: RowsAlike(map[], with, k, Seconds(micros), window);
      AlikeFuture(map[], with, micros, limit, window);
    } else {
      var l := AtLeastOne(limit);
      var later := seq(l, i => Attempt(source, micros));
      if BlockedAt(Some(row), Seconds(micros)) {
        assert Verdicts(with, later, limit, window)[0] != Allowed;
        assert Verdicts(map[], later, limit, window)[0] == Allowed;
      } else {
        WindowVerdicts(with, later, source, limit, window);
        FreshBurst(source, micros, limit, window);
        assert Verdicts(map[], later, limit, window)[l - 1] == Allowed;
        assert Verdicts(with, later, limit, window)[l - 1] != Allowed;
      }
    }
  }

  lemma FreshBurst(source: Source, micros: int, limit: int, window: nat)
    ensures var later := seq(AtLeastOne(limit), i => Attempt(source, micros));
            forall k :: 0 <= k < |later| ==> Verdicts(map[], later, limit, window)[k] == Allowed
  {
    var later := seq(AtLeastOne(limit), i => Attempt(source, micros));
    var next := AfterOne(map[], later[0], limit, window);
    assert next[source] == Counter(Seconds(micros), 1, None);
    WindowVerdicts(next, later[1..], source, limit, window);
  }

  /** So an attempt that slips between the listing and the delete makes the purge visible: after any
      attempt the row matters again until its window is over. */
  lemma AttemptRevives(row: Option<Counter>, micros: int, later: int, limit: int, window: nat)
    requires Kept(row, Seconds(micros), limit) && Seconds(micros) <= later
    requires row.Some? && Spent(row, Seconds(micros), window) && later - Seconds(micros) <= window
    ensures !Spent(Decide(row, micros, limit, window).0, later, window)
  {
    WindowInSeconds(row.value.windowStart, micros, window);
  }

  // ---- the calls ----

  class Counters {
    var table: Table

    constructor ()
      ensures table == map[]
    {
      table := map[];
    }

    method Attempted(source: Source, micros: int, limit: int, window: nat) returns (verdict: Verdict)
      modifies this
      ensures table == AfterOne(old(table), Attempt(source, micros), limit, window)
      ensures verdict == VerdictOf(old(table), Attempt(source, micros), limit, window)
      ensures verdict.Refused? ==> verdict.retryAfter >= 1 || window == 0
      ensures verdict == Allowed ==> source in table && table[source].blockedUntil.None?
      ensures verdict == Allowed && limit >= 1 ==> 1 <= table[source].count <= limit
      ensures verdict == Allowed && limit < 1 ==> table[source].count == 1
    {
      var sec := Seconds(micros);
      if source in table && table[source].blockedUntil.Some? && table[source].blockedUntil.value > sec {
        var wait := SecondsUntil(table[source].blockedUntil.value, micros);
        return Refused(if wait > 1 then wait else 1);
      }
      var start, count := sec, 0;
      if source in table && SecondsUntil(table[source].windowStart, micros) >= 0 - window {
        start, count := table[source].windowStart, table[source].count;
      }
      count := count + 1;
      if count > AtLeastOne(limit) {
        table := table[source := Counter(start, count, Some(sec + window))];
        return Refused(window);
      }
      table := table[source := Counter(start, count, None)];
      return Allowed;
    }

    method Reset(source: Source)
      modifies this
      ensures table == old(table) - {source}
      ensures forall a: Attempt, limit: int, window: nat ::
                a.source == source ==> VerdictOf(table, a, limit, window) == Allowed
    {
      table := table - {source};
    }

    method Purge(micros: int, older: int) returns (removed: nat)
      modifies this
      ensures table == Purged(old(table), micros, older)
      ensures forall k :: k in table <==>
                && k in old(table)
                && (|| old(table)[k].windowStart >= Seconds(micros) - older
                    || (old(table)[k].blockedUntil.Some?
                        && old(table)[k].blockedUntil.value >= Seconds(micros) - older))
      ensures removed == |old(table)| - |table|
    {
      ghost var was := table;
      var keys := table.Keys;
      removed := 0;
      while keys != {}
        invariant keys <= was.Keys && table.Keys <= was.Keys
        invariant forall k :: k in table ==> table[k] == was[k]
        invariant forall k :: k in keys ==> k in table
        invariant forall k :: k in was && k !in keys ==> (k in table <==> !Stale(was[k], micros, older))
        invariant removed == |was| - |table|
        decreases keys
      {
        var key :| key in keys;
        if Stale(table[key], micros, older) {
          table := table - {key};
          removed := removed + 1;
        }
        keys := keys - {key};
      }
    }
  }
}
