/** The two tables behind Lens pairing (homesoc/db.py): `lens_tokens`, one row per paired
    phone, and the `lens.pairing.*` rows of `settings`, one per outstanding code.

    Times are whole UTC seconds.  `to_iso` drops the fraction and writes fixed-width text,
    so every string comparison of the source is an integer comparison here (section 5.1 of
    RFC 3339).  A code stands for its SHA-256 key, a row id for a token's secret. */
module LensTables {
  import opened Options
  import opened Sets

  /** A `lens_tokens` row: when it expires (never, for a ttl of 0) and whether it is revoked. */
  datatype Token = Token(expires: Option<int>, revoked: bool)

  type Code = int

  /** What `lens_normalise_pairing_code` leaves of a code that is only spaces and dashes. */
  const BLANK: Code := 0

  type Codes = map<Code, int>

  predicate ActiveAt(token: Token, now: int) {
    !token.revoked && (token.expires.None? || token.expires.value > now)
  }

  function CountActive(tokens: seq<Token>, now: int): nat {
    if tokens == [] then 0
    else CountActive(tokens[..|tokens| - 1], now) + (if ActiveAt(tokens[|tokens| - 1], now) then 1 else 0)
  }

  /** The rows that can authenticate at `now`. */
  ghost function ActiveRows(tokens: seq<Token>, now: int): set<nat> {
    set i | 0 <= i < |tokens| && ActiveAt(tokens[i], now)
  }

  function Ceiling(maxTokens: int): (limit: int)
    ensures maxTokens >= 1 ==> limit == maxTokens
    ensures maxTokens < 1 ==> limit == 1
  {
    if maxTokens > 1 then maxTokens else 1
  }

  function ExpiryOf(now: int, ttlDays: int): Option<int> {
    if ttlDays > 0 then Some(now + ttlDays * 86400) else None
  }

  // ---- the SQL statements, each atomic in SQLite ----

  /** `INSERT ... SELECT ... WHERE (SELECT count(*) ...) < limit` */
  function InsertBelow(tokens: seq<Token>, expires: Option<int>, now: int, limit: int): seq<Token> {
    if CountActive(tokens, now) < limit then tokens + [Token(expires, false)] else tokens
  }

  function Revoke(tokens: seq<Token>, id: nat): seq<Token> {
    if id < |tokens| then tokens[id := tokens[id].(revoked := true)] else tokens
  }

  function RevokeAll(tokens: seq<Token>): seq<Token> {
    seq(|tokens|, i requires 0 <= i < |tokens| => tokens[i].(revoked := true))
  }

  function Unexpired(codes: Codes, now: int): Codes {
    map k | k in codes && codes[k] > now :: codes[k]
  }

  // ---- whole calls, as one caller alone would see them ----

  /** Spending `code`: the rows left, and whether the code was good. */
  function Spend(codes: Codes, code: Code, now: int): (Codes, bool) {
    if code == BLANK then (codes, false)
    else (Unexpired(codes, now) - {code}, code in Unexpired(codes, now))
  }

  datatype Outcome = AtCeiling | BadCode | Paired | Wasted

  /** What one pairing call does when nothing else runs: it counts at `check`, spends the code
      at `spentAt` and mints at `mintedAt` with the expiry `expires`. */
  function Pair(tokens: seq<Token>, codes: Codes, code: Code, expires: Option<int>,
                check: int, spentAt: int, mintedAt: int, limit: int): (seq<Token>, Codes, Outcome)
  {
    if CountActive(tokens, check) >= limit then (tokens, codes, AtCeiling)
    else
      var (left, good) := Spend(codes, code, spentAt);
      if !good then (tokens, left, BadCode)
      else if CountActive(tokens, mintedAt) < limit then
        (tokens + [Token(expires, false)], left, Paired)
      else (tokens, left, Wasted)
  }

  // ---- counting ----

  lemma RowsGrow(tokens: seq<Token>, token: Token, now: int)
    ensures |ActiveRows(tokens + [token], now)|
            == |ActiveRows(tokens, now)| + (if ActiveAt(token, now) then 1 else 0)
  {
    var n, all := |tokens|, tokens + [token];
    assert forall i :: 0 <= i < n ==> all[i] == tokens[i];
    OneMore(ActiveRows(all, now), ActiveRows(tokens, now), n);
  }

  /** The count the ceiling is checked by is the number of rows that can authenticate. */
  lemma {:induction false} CountIsRows(tokens: seq<Token>, now: int)
    ensures CountActive(tokens, now) == |ActiveRows(tokens, now)|
  {
    if tokens == [] {
      SameSet(ActiveRows(tokens, now), {});
    } else {
      var n := |tokens| - 1;
      CountIsRows(tokens[..n], now);
      RowsGrow(tokens[..n], tokens[n], now);
      assert tokens[..n] + [tokens[n]] == tokens;
    }
  }

  lemma {:induction false} CountLater(tokens: seq<Token>, early: int, late: int)
    requires early <= late
    ensures CountActive(tokens, late) <= CountActive(tokens, early)
  {
    if tokens != [] {
      CountLater(tokens[..|tokens| - 1], early, late);
    }
  }

  lemma CountAppend(tokens: seq<Token>, token: Token, now: int)
    ensures CountActive(tokens + [token], now) <= CountActive(tokens, now) + 1
  {
    assert (tokens + [token])[..|tokens|] == tokens;
  }

  /** Rows of `after` are those of `before`, at most with more of them revoked. */
  ghost predicate OnlyRevokes(before: seq<Token>, after: seq<Token>) {
    |after| == |before| &&
    forall i :: 0 <= i < |before| ==>
      after[i].expires == before[i].expires && (before[i].revoked ==> after[i].revoked)
  }

  lemma {:induction false} CountRevoked(before: seq<Token>, after: seq<Token>, now: int)
    requires OnlyRevokes(before, after)
    ensures CountActive(after, now) <= CountActive(before, now)
  {
    if before != [] {
      var n := |before| - 1;
      CountRevoked(before[..n], after[..n], now);
    }
  }

  /** A pairing call that runs alone never spends a code without minting a token: the second
      count, taken later, cannot have grown. */
  lemma PairNeverWastes(tokens: seq<Token>, codes: Codes, code: Code, expires: Option<int>,
                        check: int, spentAt: int, mintedAt: int, limit: int)
    requires check <= spentAt <= mintedAt
    ensures var (ts, cs, outcome) := Pair(tokens, codes, code, expires, check, spentAt, mintedAt, limit);
            && outcome != Wasted
            && (outcome == AtCeiling <==> |ActiveRows(tokens, check)| >= limit)
            && (outcome == AtCeiling ==> ts == tokens && cs == codes)
            && (outcome == BadCode ==> ts == tokens && (code == BLANK || code !in codes || codes[code] <= spentAt))
            && (outcome == Paired ==> code in codes && codes[code] > spentAt && code !in cs
                                      && ts == tokens + [Token(expires, false)])
  {
    CountLater(tokens, check, mintedAt);
    CountIsRows(tokens, check);
  }

  /** After `lens_revoke_all_tokens` no row there was can authenticate at any time. */
  lemma RevokedAll(tokens: seq<Token>, clock: int)
    ensures |RevokeAll(tokens)| == |tokens| && ActiveRows(RevokeAll(tokens), clock) == {}
    ensures OnlyRevokes(tokens, RevokeAll(tokens))
  {
    SameSet(ActiveRows(RevokeAll(tokens), clock), {});
  }

  /** What its UPDATE changes, and so what it counts. */
  function Unrevoked(tokens: seq<Token>): set<nat> { set i | 0 <= i < |tokens| && !tokens[i].revoked }

  lemma FewerInside(a: set<nat>, b: set<nat>, i: nat)
    requires i in b && i !in a && forall k :: k in a ==> k in b
    ensures |a| < |b|
  {
    SameSet(b, a + (b - a));
    assert i in b - a;
  }

  /** The number returned is not quite how many could still authenticate: it is exactly when no token
      that was never revoked has expired. */
  lemma RevokeCountExactly(tokens: seq<Token>, clock: int)
    ensures |Unrevoked(tokens)| == |ActiveRows(tokens, clock)|
            <==> forall i :: 0 <= i < |tokens| && !tokens[i].revoked && tokens[i].expires.Some? ==>
                   tokens[i].expires.value > clock
  {
    if i :| 0 <= i < |tokens| && !tokens[i].revoked && tokens[i].expires.Some? && tokens[i].expires.value <= clock {
      FewerInside(ActiveRows(tokens, clock), Unrevoked(tokens), i);
    } else {
      SameSet(ActiveRows(tokens, clock), Unrevoked(tokens));
    }
  }

  // ---- rows ----

  lemma SomeRow(keys: set<Code>)
    requires keys != {}
    ensures exists k :: k in keys
  {
    if forall k :: k !in keys { assert false; }
  }

  lemma SameRows(a: Codes, b: Codes)
    requires forall k :: k in a <==> k in b
    requires forall k :: k in a && k in b ==> a[k] == b[k]
    ensures a == b
  {
    if a.Keys != b.Keys {
      if forall k :: k in a.Keys <==> k in b.Keys { assert false; }
    }
    if a != b {
      if forall k | k in a :: a[k] == b[k] { assert false; }
    }
  }
}
