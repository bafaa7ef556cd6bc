/** Finite sets of positions in a sequence. */
module Sets {
  lemma SameSet(a: set<nat>, b: set<nat>)
    requires forall i :: i in a <==> i in b
    ensures a == b
  {
    if a != b {
      if forall i: nat :: i in a <==> i in b { assert false; }
    }
  }

  /** Sets that agree below `n`, with nothing above it. */
  lemma OneMore(a: set<nat>, b: set<nat>, n: nat)
    requires forall i :: i in a ==> i <= n
    requires forall i :: i in b <==> i in a && i < n
    ensures |a| == |b| + (if n in a then 1 else 0)
  {
    SameSet(a, b + if n in a then {n} else {});
  }
}
