/** What "nearest its middle" means for a sentence too long for one cue (video/narrate.py): how long the
    two halves of the text are, in characters. */
module CueBreaks {
  import opened Cues
  import opened Words

  function Size(d: int): int { if d < 0 then -d else d }

  /** How unequal the halves are when the sentence is broken before part `i`; the space between them
      is counted with the first. */
  function Uneven(parts: seq<string>, i: nat): int
    requires 0 < i < |parts|
  {
    Size(|Join(parts[..i])| + 1 - |Join(parts[i..])|)
  }

  /** The same without the space. */
  function Apart(parts: seq<string>, i: nat): int
    requires 0 < i < |parts|
  {
    Size(|Join(parts[..i])| - |Join(parts[i..])|)
  }

  lemma {:induction false} CursorIsLength(parts: seq<string>, i: nat)
    requires 0 < i <= |parts|
    ensures Cursor(parts, i) == |Join(parts[..i])| + 1
    decreases i
  {
    assert parts[..i] == parts[..i - 1] + [parts[i - 1]];
    if i > 1 {
      CursorIsLength(parts, i - 1);
      JoinConcat(parts[..i - 1], [parts[i - 1]]);
    } else {
      assert parts[..0] == [] && parts[..1] == [parts[0]];
    }
  }

  lemma HalvesLength(parts: seq<string>, i: nat)
    requires 0 < i < |parts|
    ensures |Join(parts)| == |Join(parts[..i])| + 1 + |Join(parts[i..])|
  {
    assert parts == parts[..i] + parts[i..];
    JoinConcat(parts[..i], parts[i..]);
  }

  /** The cost of a break is how unequal it makes the halves; between words, a word that should not
      end a cue weighs a thousand characters' way from the middle, and one that may start the next
      saves fourteen. */
  lemma CostIsUneven(parts: seq<string>, i: nat, byWord: bool, hangs: string -> bool, joins: string -> bool)
    requires 0 < i < |parts|
    ensures Cost(parts, i, |Join(parts)|, byWord, hangs, joins)
            == Uneven(parts, i) + if !byWord then 0 else if hangs(parts[i - 1]) then 2 * 1000
                                  else if joins(parts[i]) then -(2 * 14) else 0
  {
    CursorIsLength(parts, i);
    HalvesLength(parts, i);
  }

  lemma PartsLength(words: seq<string>)
    requires words != []
    ensures |Join(Joined(PartGroups(words)))| == Len(words)
  {
    JoinJoined(PartGroups(words));
  }

  /** The least unequal break, the first of equals. */
  ghost predicate FirstLeast(parts: seq<string>, best: nat)
    requires 0 < best < |parts|
  {
    forall i :: 0 < i < |parts| ==>
      Uneven(parts, best) <= Uneven(parts, i) && (i < best ==> Uneven(parts, best) < Uneven(parts, i))
  }

  /** A sentence of clauses that does not fit is broken where the halves are least unequal, at the first
      such place, and each half is broken on. */
  lemma ClauseBreak(words: seq<string>, hangs: string -> bool, joins: string -> bool) returns (best: nat)
    requires words != [] && !Fits(words) && |ClauseGroups([], words)| >= 2
    ensures var groups := ClauseGroups([], words);
            && 0 < best < |groups| && Flat(groups[..best]) != [] && Flat(groups[best..]) != []
            && Pieces(words, hangs, joins)
               == Pieces(Flat(groups[..best]), hangs, joins) + Pieces(Flat(groups[best..]), hangs, joins)
            && FirstLeast(Joined(groups), best)
  {
    var groups := ClauseGroups([], words);
    var parts := Joined(groups);
    assert groups == PartGroups(words);
    PartsLength(words);
    best := Least(parts, |parts|, Len(words), false, hangs, joins);
    CutParts(words, groups, best);
    CostIsUneven(parts, best, false, hangs, joins);
    forall i | 0 < i < |groups|
      ensures Uneven(parts, best) <= Uneven(parts, i) && (i < best ==> Uneven(parts, best) < Uneven(parts, i))
    {
      CostIsUneven(parts, i, false, hangs, joins);
      LeastIsLeast(parts, |parts|, Len(words), false, hangs, joins, i);
    }
  }

  /** Twice what a break between words weighs: the distance from the middle, a thousand more after a word
      that should not end a cue, else fourteen less before one that may start the next. */
  function Weight(words: seq<string>, i: nat, hangs: string -> bool, joins: string -> bool): int
    requires 0 < i < |words|
  {
    Uneven(words, i) + 2 * (if hangs(words[i - 1]) then 1000 else if joins(words[i]) then -14 else 0)
  }

  ghost predicate FirstLightest(words: seq<string>, best: nat, hangs: string -> bool, joins: string -> bool)
    requires 0 < best < |words|
  {
    forall i :: 0 < i < |words| ==>
      && Weight(words, best, hangs, joins) <= Weight(words, i, hangs, joins)
      && (i < best ==> Weight(words, best, hangs, joins) < Weight(words, i, hangs, joins))
  }

  lemma LeastIsLightest(words: seq<string>, hangs: string -> bool, joins: string -> bool)
    requires |words| >= 2
    ensures FirstLightest(words, Least(words, |words|, Len(words), true, hangs, joins), hangs, joins)
  {
    var best := Least(words, |words|, Len(words), true, hangs, joins);
    CostIsUneven(words, best, true, hangs, joins);
    forall i | 0 < i < |words|
      ensures && Weight(words, best, hangs, joins) <= Weight(words, i, hangs, joins)
              && (i < best ==> Weight(words, best, hangs, joins) < Weight(words, i, hangs, joins))
    {
      CostIsUneven(words, i, true, hangs, joins);
      LeastIsLeast(words, |words|, Len(words), true, hangs, joins, i);
    }
  }

  /** A sentence of one clause is broken between words, where the break weighs least. */
  lemma WordBreak(words: seq<string>, hangs: string -> bool, joins: string -> bool) returns (best: nat)
    requires |words| >= 2 && !Fits(words) && |ClauseGroups([], words)| < 2
    ensures 0 < best < |words| && FirstLightest(words, best, hangs, joins)
    ensures Pieces(words, hangs, joins) == Pieces(words[..best], hangs, joins) + Pieces(words[best..], hangs, joins)
  {
    SinglesJoined(words);
    best := Least(words, |words|, Len(words), true, hangs, joins);
    LeastIsLightest(words, hangs, joins);
    CutParts(words, Singles(words), best);
    SinglesCut(words, best);
  }

  lemma {:induction false} SinglesCut(words: seq<string>, i: nat)
    requires i <= |words|
    ensures Flat(Singles(words)[..i]) == words[..i] && Flat(Singles(words)[i..]) == words[i..]
  {
    var groups := Singles(words);
    if i == 0 {
      assert groups[..0] == [] && groups[0..] == groups && words[0..] == words;
    } else {
      SinglesCut(words[1..], i - 1);
      assert groups == [[words[0]]] + Singles(words[1..]);
      assert groups[..i] == [[words[0]]] + Singles(words[1..])[..i - 1];
      assert groups[i..] == Singles(words[1..])[i - 1..];
    }
  }

  lemma {:induction false} LaterIsLonger(parts: seq<string>, i: nat, j: nat)
    requires 0 < i < j < |parts|
    ensures |Join(parts[..i])| < |Join(parts[..j])|
    decreases j
  {
    CursorIsLength(parts, j);
    CursorIsLength(parts, j - 1);
    if i < j - 1 {
      LaterIsLonger(parts, i, j - 1);
    }
  }

  /** Heads `h` and `k`, the second longer, of one text with tails `t` and `u`. */
  lemma TieIsNearer(h: nat, t: nat, k: nat, u: nat)
    requires h < k && h + t == k + u
    requires Size(h + 1 - t) <= Size(k + 1 - u)
    ensures Size(k - u) < Size(h - t) <==> Size(k + 1 - u) == Size(h + 1 - t)
    ensures Size(k + 1 - u) == Size(h + 1 - t) ==> Size(h - t) == Size(k - u) + 2
    ensures Size(h - t) <= Size(k - u) + 2
  {
    assert k - u == h - t + 2 * (k - h);
  }

  /** Without the space the break chosen need not be the nearest: it is exactly when no later break was as
      good.  Of two equals the earlier is taken, and then the later is nearer, by two characters. */
  lemma NearestExactly(parts: seq<string>, best: nat)
    requires 0 < best < |parts| && FirstLeast(parts, best)
    ensures (forall i :: 0 < i < |parts| ==> Apart(parts, best) <= Apart(parts, i))
            <==> !exists i :: best < i < |parts| && Uneven(parts, i) == Uneven(parts, best)
    ensures forall i :: 0 < i < |parts| ==> Apart(parts, best) <= Apart(parts, i) + 2
  {
    HalvesLength(parts, best);
    forall i | 0 < i < |parts|
      ensures Apart(parts, i) < Apart(parts, best) ==> i > best && Uneven(parts, i) == Uneven(parts, best)
      ensures i > best && Uneven(parts, i) == Uneven(parts, best) ==> Apart(parts, best) == Apart(parts, i) + 2
      ensures Apart(parts, best) <= Apart(parts, i) + 2
    {
      HalvesLength(parts, i);
      assert Uneven(parts, best) <= Uneven(parts, i) && (i < best ==> Uneven(parts, best) < Uneven(parts, i));
      if i < best {
        LaterIsLonger(parts, i, best);
      } else if best < i {
        LaterIsLonger(parts, best, i);
        TieIsNearer(|Join(parts[..best])|, |Join(parts[best..])|, |Join(parts[..i])|, |Join(parts[i..])|);
      }
    }
  }

  /** Three parts of which the second break leaves the halves nearer, and the first is taken. */
  lemma NearerIsMissed()
    ensures var parts := ["ab,", "c,", "def,"];
            && (forall hangs: string -> bool, joins :: Least(parts, 3, |Join(parts)|, false, hangs, joins) == 1)
            && Apart(parts, 2) < Apart(parts, 1)
  {
  }
}
