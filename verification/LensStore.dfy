/** The Lens calls of homesoc/db.py as code over the two tables, each run as a caller who holds
    the lock sees it.  Clock readings, which the source takes itself, are parameters. */
module LensStore {
  import opened Options
  import opened LensTables

  class Store {
    var tokens: seq<Token>
    var codes: Codes

    constructor ()
      ensures tokens == [] && codes == map[]
    {
      tokens, codes := [], map[];
    }

    method MintToken(ttlDays: int, maxTokens: int, expiryClock: int, now: int) returns (id: Option<nat>)
      modifies this`tokens
      ensures tokens == InsertBelow(old(tokens), ExpiryOf(expiryClock, ttlDays), now, Ceiling(maxTokens))
      ensures id.None? <==> |ActiveRows(old(tokens), now)| >= if maxTokens >= 1 then maxTokens else 1
      ensures id.None? ==> tokens == old(tokens)
      ensures id.Some? ==>
                && id.value == |old(tokens)|
                && tokens == old(tokens)
                             + [Token(if ttlDays > 0 then Some(expiryClock + ttlDays * 86400) else None, false)]
    {
      CountIsRows(tokens, now);
      var expires := ExpiryOf(expiryClock, ttlDays);
      if CountActive(tokens, now) < Ceiling(maxTokens) {
        tokens, id := tokens + [Token(expires, false)], Some(|tokens|);
      } else {
        id := None;
      }
    }

    method VerifyToken(id: nat, clock: int) returns (valid: bool)
      ensures valid <==> id < |tokens| && ActiveAt(tokens[id], clock)
      ensures valid <==> id < |tokens| && !tokens[id].revoked
                         && (tokens[id].expires.Some? ==> tokens[id].expires.value > clock)
    {
      if id >= |tokens| {
        return false;
      }
      var row := tokens[id];
      if row.revoked || (row.expires.Some? && row.expires.value <= clock) {
        return false;
      }
      return true;
    }

    method RevokeToken(id: nat) returns (changed: bool)
      modifies this`tokens
      ensures tokens == Revoke(old(tokens), id)
      ensures changed <==> id < |old(tokens)| && !old(tokens)[id].revoked
      ensures |tokens| == |old(tokens)| && forall i :: 0 <= i < |tokens| ==>
                tokens[i] == Token(old(tokens)[i].expires, i == id || old(tokens)[i].revoked)
      ensures forall clock :: id < |tokens| ==> !ActiveAt(tokens[id], clock)
    {
      changed := id < |tokens| && !tokens[id].revoked;
      if changed {
        tokens := tokens[id := tokens[id].(revoked := true)];
      } else {
        assert tokens == Revoke(tokens, id);
      }
    }

    /** `lens_revoke_all_tokens`; the number it returns counts expired rows too. */
    method RevokeAllTokens() returns (changed: nat)
      modifies this`tokens
      ensures tokens == RevokeAll(old(tokens))
      ensures forall clock :: ActiveRows(tokens, clock) == {}
      ensures changed == |Unrevoked(old(tokens))|
    {
      forall clock ensures ActiveRows(RevokeAll(tokens), clock) == {} {
        RevokedAll(tokens, clock);
      }
      changed := |Unrevoked(tokens)|;
      tokens := RevokeAll(tokens);
    }

    /** `lens_consume_pairing_code`: stale rows go first, one DELETE each, whoever asks; then the
        DELETE whose row count is the answer. */
    method ConsumeCode(code: Code, now: int) returns (good: bool)
      modifies this`codes
      ensures (codes, good) == Spend(old(codes), code, now)
      ensures good <==> code != BLANK && code in old(codes) && old(codes)[code] > now
      ensures code == BLANK ==> codes == old(codes)
      ensures code != BLANK ==> forall k :: k in codes <==> k != code && k in old(codes) && old(codes)[k] > now
      ensures forall k :: k in codes ==> codes[k] == old(codes)[k]
    {
      if code == BLANK {
        return false;
      }
      ghost var was := codes;
      var stale := set k | k in codes && codes[k] <= now;
      while stale != {}
        invariant forall k :: k in codes ==> k in was && codes[k] == was[k]
        invariant forall k :: k in was && was[k] > now ==> k in codes
        invariant forall k :: k in codes ==> (codes[k] <= now <==> k in stale)
        decreases stale
      {
        SomeRow(stale);
        var k :| k in stale;
        codes, stale := codes - {k}, stale - {k};
      }
      assert forall k :: k in codes ==> codes[k] > now;
      SameRows(codes, Unexpired(was, now));
      good := code in codes;
      codes := codes - {code};
    }

    /** `lens_pair_with_code`, with its three clock readings. */
    method PairWithCode(code: Code, ttlDays: int, maxTokens: int,
                        check: int, spentAt: int, expiryClock: int, mintedAt: int) returns (outcome: Outcome)
      requires check <= spentAt <= expiryClock <= mintedAt
      modifies this
      ensures (tokens, codes, outcome)
              == Pair(old(tokens), old(codes), code, ExpiryOf(expiryClock, ttlDays), check, spentAt, mintedAt,
                      Ceiling(maxTokens))
      ensures outcome != Wasted
      ensures outcome == AtCeiling <==> |ActiveRows(old(tokens), check)| >= if maxTokens >= 1 then maxTokens else 1
      ensures outcome == AtCeiling ==> codes == old(codes)
      ensures outcome != AtCeiling ==>
                (outcome == Paired <==> code != BLANK && code in old(codes) && old(codes)[code] > spentAt)
      ensures outcome == Paired ==>
                tokens == old(tokens)
                          + [Token(if ttlDays > 0 then Some(expiryClock + ttlDays * 86400) else None, false)]
      ensures outcome == Paired ==> code !in codes
      ensures outcome != Paired ==> tokens == old(tokens)
    {
      var limit := Ceiling(maxTokens);
      PairNeverWastes(tokens, codes, code, ExpiryOf(expiryClock, ttlDays), check, spentAt, mintedAt, limit);
      CountIsRows(tokens, check);
      if CountActive(tokens, check) >= limit {
        return AtCeiling;
      }
      var good := ConsumeCode(code, spentAt);
      if !good {
        return BadCode;
      }
      var id := MintToken(ttlDays, limit, expiryClock, mintedAt);
      outcome := if id.Some? then Paired else Wasted;
    }

    /** `lens_new_pairing_code`: clears every earlier code row by row, then stores the new one. */
    method NewPairingCode(code: Code, ttlSeconds: int, clock: int)
      modifies this`codes
      ensures codes == map[code := clock + if ttlSeconds > 1 then ttlSeconds else 1]
      ensures code in codes && codes[code] > clock
    {
      var keys := codes.Keys;
      while keys != {}
        invariant codes.Keys == keys
        decreases keys
      {
        SomeRow(keys);
        var k :| k in keys;
        codes, keys := codes - {k}, keys - {k};
      }
      codes := codes[code := clock + (if ttlSeconds > 1 then ttlSeconds else 1)];
    }
  }
}
