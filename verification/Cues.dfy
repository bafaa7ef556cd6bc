/** Setting a sentence as subtitles (video/narrate.py): two lines of at most 42 characters, and a
    longer sentence broken, recursively, nearest its middle.  A sentence is single-spaced text, the
    join of its words. */
module Cues {
  import opened BeatMarks
  import opened Marks
  import opened Options
  import opened Words

  const LINE_CHARS := 42

  function Len(ws: seq<string>): nat { |Join(ws)| }

  /** The first `i` words make a line and the others make a line. */
  predicate Halves(ws: seq<string>, i: int) {
    0 < i < |ws| && Len(ws[..i]) <= LINE_CHARS && Len(ws[i..]) <= LINE_CHARS
  }

  ghost predicate Fits(ws: seq<string>) { Len(ws) <= LINE_CHARS || exists i :: Halves(ws, i) }

  function Longer(ws: seq<string>, i: int): nat
    requires 0 <= i <= |ws|
  {
    if Len(ws[..i]) > Len(ws[i..]) then Len(ws[..i]) else Len(ws[i..])
  }

  /** The break before word `i` makes the longer line shortest among those before word `n`, and is
      the first to. */
  ghost predicate Balanced(ws: seq<string>, i: int, n: int) {
    && i < n && Halves(ws, i)
    && (forall j :: Halves(ws, j) && j < n ==> Longer(ws, i) <= Longer(ws, j))
    && (forall j :: Halves(ws, j) && j < i ==> Longer(ws, i) < Longer(ws, j))
  }

  ghost predicate NoneBefore(ws: seq<string>, n: int) { forall j :: j < n ==> !Halves(ws, j) }

  lemma BalancedNext(ws: seq<string>, i: int, n: int)
    requires 0 < n < |ws| && (Balanced(ws, i, n) || NoneBefore(ws, n))
    ensures NoneBefore(ws, n) && !Halves(ws, n) ==> NoneBefore(ws, n + 1)
    ensures NoneBefore(ws, n) && Halves(ws, n) ==> Balanced(ws, n, n + 1)
    ensures Balanced(ws, i, n) ==>
              Balanced(ws, if Halves(ws, n) && Longer(ws, n) < Longer(ws, i) then n else i, n + 1)
  {
  }

  /** `_two_lines`: one line if it will do; else the two that make the longer line shortest, the
      first such pair; nothing if the text cannot be set. */
  method TwoLines(text: string) returns (lines: Option<seq<string>>)
    ensures |text| <= LINE_CHARS ==> lines == Some([text])
    ensures |text| > LINE_CHARS && lines.None? ==> !exists i :: Halves(Split(text), i)
    ensures |text| > LINE_CHARS && lines.Some? ==>
              exists i :: Balanced(Split(text), i, |Split(text)|)
                && lines.value == [Join(Split(text)[..i]), Join(Split(text)[i..])]
  {
    if |text| <= LINE_CHARS {
      return Some([text]);
    }
    var words := Split(text);
    lines := None;
    ghost var at := 0;
    var worst := 0;
    var i := 1;
    while i < |words|
      invariant i >= 1 && (i <= |words| || |words| == 0)
      invariant lines.None? ==> NoneBefore(words, i)
      invariant lines.Some? ==>
        && Balanced(words, at, i) && worst == Longer(words, at)
        && lines.value == [Join(words[..at]), Join(words[at..])]
    {
      var a, b := Join(words[..i]), Join(words[i..]);
      BalancedNext(words, at, i);
      if |a| <= LINE_CHARS && |b| <= LINE_CHARS {
        var longer := if |a| > |b| then |a| else |b|;
        if lines.None? || longer < worst {
          lines, worst, at := Some([a, b]), longer, i;
        }
      }
      i := i + 1;
    }
  }

  // ---- clauses ----

  predicate IsMark(c: char) { c == ',' || c == ';' || c == ':' || c == '-' }

  predicate EndsClause(w: string) { w != "" && IsMark(w[|w| - 1]) }

  /** `_CLAUSE_BREAK.split`: cut at every run of spaces that follows one of the marks; `piece` is
      what has been read since the last cut. */
  function ClauseSplit(piece: string, s: string): seq<string>
    decreases |s|
  {
    if s == "" then [piece]
    else if IsSpace(s[0]) && EndsClause(piece) then [piece] + ClauseSplit("", DropSpaces(s[1..]))
    else ClauseSplit(piece + [s[0]], s[1..])
  }

  /** The same on words: a group ends with a word that ends a clause. */
  function ClauseGroups(group: seq<string>, ws: seq<string>): (groups: seq<seq<string>>)
    ensures groups != [] && Flat(groups) == group + ws
    ensures group + ws != [] ==> Solid(groups)
    decreases |ws|
  {
    if ws == [] then [group]
    else
      var longer, rest := group + [ws[0]], ws[1..];
      assert longer + rest == group + ws;
      if |ws| > 1 && EndsClause(ws[0]) then
        var others := ClauseGroups([], rest);
        assert ([longer] + others)[1..] == others && [] + rest == rest;
        [longer] + others
      else ClauseGroups(longer, rest)
  }

  lemma {:induction false} ReadWord(piece: string, w: string, rest: string)
    requires forall c :: c in w ==> !IsSpace(c)
    ensures ClauseSplit(piece, w + rest) == ClauseSplit(piece + w, rest)
    decreases |w|
  {
    if w == "" {
      assert w + rest == rest && piece + w == piece;
    } else {
      assert w[0] in w;
      assert (w + rest)[1..] == w[1..] + rest;
      assert piece + [w[0]] + w[1..] == piece + w;
      ReadWord(piece + [w[0]], w[1..], rest);
    }
  }

  lemma ReadWordAndSpace(piece: string, w: string, rest: string)
    requires IsWord(w) && rest != "" && !IsSpace(rest[0])
    ensures ClauseSplit(piece, w + " " + rest)
            == if EndsClause(w) then [piece + w] + ClauseSplit("", rest) else ClauseSplit(piece + w + " ", rest)
  {
    assert w + " " + rest == w + (" " + rest);
    ReadWord(piece, w, " " + rest);
    assert (" " + rest)[1..] == rest && DropSpaces(rest) == rest;
    assert (piece + w)[|piece + w| - 1] == w[|w| - 1];
  }

  /** What has been read of a group, with the space after it. */
  function Read(group: seq<string>): string { if group == [] then "" else Join(group) + " " }

  lemma ReadMore(group: seq<string>, w: string)
    ensures Read(group) + w == Join(group + [w])
  {
    if group != [] {
      JoinConcat(group, [w]);
    }
  }

  lemma JoinedCons(g: seq<string>, groups: seq<seq<string>>)
    ensures Joined([g] + groups) == [Join(g)] + Joined(groups)
  {
  }

  /** The text still to be read after `w` and what it makes of the groups. */
  lemma ClauseGroupsStep(group: seq<string>, ws: seq<string>)
    requires |ws| > 1
    ensures var longer, rest := group + [ws[0]], ws[1..];
            Joined(ClauseGroups(group, ws))
            == if EndsClause(ws[0]) then [Join(longer)] + Joined(ClauseGroups([], rest))
               else Joined(ClauseGroups(longer, rest))
  {
    JoinedCons(group + [ws[0]], ClauseGroups([], ws[1..]));
  }

  /** On single-spaced text the two agree. */
  lemma {:induction false} ClausesAreGroups(group: seq<string>, ws: seq<string>)
    requires AllWords(group) && AllWords(ws) && ws != []
    ensures ClauseSplit(Read(group), Join(ws)) == Joined(ClauseGroups(group, ws))
    decreases |ws|
  {
    var w, longer := ws[0], group + [ws[0]];
    assert IsWord(w);
    ReadMore(group, w);
    if |ws| == 1 {
      assert Join(ws) == w + "" && ws[1..] == [];
      ReadWord(Read(group), w, "");
    } else {
      assert forall x :: x in ws[1..] ==> x in ws;
      JoinNonempty(ws[1..]);
      ReadWordAndSpace(Read(group), w, Join(ws[1..]));
      ClauseGroupsStep(group, ws);
      ClausesAreGroups(if EndsClause(w) then [] else longer, ws[1..]);
    }
  }

  // ---- choosing where to break ----

  /** Twice the distance of the break after piece `i` from the middle, with the phrase preferences
      when breaking between words: `hangs` words should not end a cue, `joins` words may start one. */
  function Cost(pieces: seq<string>, i: nat, middle: nat, byWord: bool, hangs: string -> bool, joins: string -> bool): int
    requires 0 < i < |pieces|
  {
    var gap := 2 * Cursor(pieces, i) - middle;
    (if gap < 0 then -gap else gap)
    + (if byWord && hangs(pieces[i - 1]) then 2000 else if byWord && joins(pieces[i]) then -28 else 0)
  }

  function Cursor(pieces: seq<string>, i: nat): nat
    requires i <= |pieces|
  {
    if i == 0 then 0 else Cursor(pieces, i - 1) + |pieces[i - 1]| + 1
  }

  /** The cheapest of the breaks before piece `n`, the first of equals. */
  function Least(pieces: seq<string>, n: nat, middle: nat, byWord: bool, hangs: string -> bool,
                 joins: string -> bool): (best: nat)
    requires 2 <= n <= |pieces|
    ensures 0 < best < n
  {
    if n == 2 then 1
    else
      var before := Least(pieces, n - 1, middle, byWord, hangs, joins);
      if Cost(pieces, n - 1, middle, byWord, hangs, joins) < Cost(pieces, before, middle, byWord, hangs, joins)
      then n - 1 else before
  }

  lemma {:induction false} LeastIsLeast(pieces: seq<string>, n: nat, middle: nat, byWord: bool, hangs: string -> bool,
                                        joins: string -> bool, i: nat)
    requires 2 <= n <= |pieces| && 0 < i < n
    ensures var best := Least(pieces, n, middle, byWord, hangs, joins);
            && Cost(pieces, best, middle, byWord, hangs, joins) <= Cost(pieces, i, middle, byWord, hangs, joins)
            && (i < best ==>
                  Cost(pieces, best, middle, byWord, hangs, joins) < Cost(pieces, i, middle, byWord, hangs, joins))
  {
    if n > 2 {
      if i < n - 1 {
        LeastIsLeast(pieces, n - 1, middle, byWord, hangs, joins, i);
      }
    }
  }

  method GapAt(pieces: seq<string>, i: nat, cursor: nat, middle: nat, byWord: bool, hangs: string -> bool,
               joins: string -> bool) returns (gap: int)
    requires 0 < i < |pieces| && cursor == Cursor(pieces, i)
    ensures gap == Cost(pieces, i, middle, byWord, hangs, joins)
  {
    gap := if 2 * cursor < middle then middle - 2 * cursor else 2 * cursor - middle;
    if byWord {
      if hangs(pieces[i - 1]) {
        gap := gap + 2000;
      } else if joins(pieces[i]) {
        gap := gap - 28;
      }
    }
  }

  method BestBreak(pieces: seq<string>, middle: nat, byWord: bool, hangs: string -> bool, joins: string -> bool)
    returns (best: nat)
    requires |pieces| >= 2
    ensures 0 < best < |pieces| && best == Least(pieces, |pieces|, middle, byWord, hangs, joins)
    ensures forall i :: 0 < i < |pieces| ==>
              Cost(pieces, best, middle, byWord, hangs, joins) <= Cost(pieces, i, middle, byWord, hangs, joins)
    ensures forall i :: 0 < i < best ==>
              Cost(pieces, best, middle, byWord, hangs, joins) < Cost(pieces, i, middle, byWord, hangs, joins)
  {
    best := 1;
    var bestGap, cursor, i := 0, 0, 1;
    while i < |pieces|
      invariant 1 <= i <= |pieces| && cursor == Cursor(pieces, i - 1)
      invariant i > 1 ==> best == Least(pieces, i, middle, byWord, hangs, joins)
      invariant i > 1 ==> bestGap == Cost(pieces, best, middle, byWord, hangs, joins)
    {
      cursor := cursor + |pieces[i - 1]| + 1;
      var gap := GapAt(pieces, i, cursor, middle, byWord, hangs, joins);
      if i == 1 || gap < bestGap {
        best, bestGap := i, gap;
      }
      i := i + 1;
    }
    forall i | 0 < i < |pieces|
      ensures Cost(pieces, best, middle, byWord, hangs, joins) <= Cost(pieces, i, middle, byWord, hangs, joins)
      ensures i < best ==>
                Cost(pieces, best, middle, byWord, hangs, joins) < Cost(pieces, i, middle, byWord, hangs, joins)
    {
      LeastIsLeast(pieces, |pieces|, middle, byWord, hangs, joins, i);
    }
  }

  // ---- the recursion ----

  ghost predicate NoLongWord(ws: seq<string>) { forall w :: w in ws ==> |w| <= LINE_CHARS }

  lemma FitsHasNoLongWord(ws: seq<string>)
    requires Fits(ws)
    ensures NoLongWord(ws)
  {
    if Len(ws) <= LINE_CHARS {
      forall w | w in ws ensures |w| <= LINE_CHARS {
        JoinHolds(ws, w);
      }
    } else {
      var i :| Halves(ws, i);
      assert ws == ws[..i] + ws[i..];
      forall w | w in ws ensures |w| <= LINE_CHARS {
        JoinHolds(if w in ws[..i] then ws[..i] else ws[i..], w);
      }
    }
  }

  lemma {:induction false} FlatNonempty(groups: seq<seq<string>>)
    requires Solid(groups) && groups != []
    ensures Flat(groups) != []
  {
    assert groups[0] in groups;
  }

  function Singles(ws: seq<string>): (groups: seq<seq<string>>)
    ensures |groups| == |ws| && Flat(groups) == ws && Solid(groups)
  {
    if ws == [] then [] else [[ws[0]]] + Singles(ws[1..])
  }

  lemma CutFlat(front: seq<seq<string>>, back: seq<seq<string>>)
    requires Solid(front + back) && front != [] && back != []
    ensures Flat(front + back) == Flat(front) + Flat(back)
    ensures Flat(front) != [] && Flat(back) != [] && Solid(front) && Solid(back)
  {
    FlatConcat(front, back);
    assert forall g :: g in front || g in back ==> g in front + back;
    FlatNonempty(front);
    FlatNonempty(back);
  }

  ghost predicate AllFit(pieces: seq<seq<string>>) { forall p :: p in pieces ==> Fits(p) }

  /** `_fits` */
  method FitsTwoLines(sentence: string, ghost words: seq<string>) returns (fits: bool)
    requires AllWords(words) && sentence == Join(words)
    ensures fits <==> Fits(words)
  {
    SplitJoin(words);
    var lines := TwoLines(sentence);
    fits := lines.Some?;
  }

  function PartGroups(words: seq<string>): (groups: seq<seq<string>>)
    requires words != []
    ensures Solid(groups) && Flat(groups) == words
  {
    if |ClauseGroups([], words)| < 2 then Singles(words) else ClauseGroups([], words)
  }

  /** Where the sentence may be broken: at its clauses, or at every word if it has but one. */
  method Parts(sentence: string, ghost words: seq<string>)
    returns (parts: seq<string>, byWord: bool, ghost groups: seq<seq<string>>)
    requires AllWords(words) && words != [] && sentence == Join(words)
    ensures groups == PartGroups(words) && parts == Joined(groups)
    ensures byWord <==> |ClauseGroups([], words)| < 2
    ensures byWord <==> |ClauseSplit("", sentence)| < 2
    ensures parts == if byWord then words else ClauseSplit("", sentence)
  {
    ClausesAreGroups([], words);
    parts, groups := ClauseSplit("", sentence), ClauseGroups([], words);
    byWord := |parts| < 2;
    if byWord {
      SplitJoin(words);
      SinglesJoined(words);
      parts, groups := Split(sentence), Singles(words);
    }
  }

  /** Where a sentence of these words ends up broken. */
  ghost function Pieces(words: seq<string>, hangs: string -> bool, joins: string -> bool): seq<seq<string>>
    requires words != []
    decreases |words|
  {
    var parts := PartGroups(words);
    if Fits(words) || |parts| < 2 then [words]
    else
      var byWord := |ClauseGroups([], words)| < 2;
      var best := Least(Joined(parts), |parts|, Len(words), byWord, hangs, joins);
      CutParts(words, parts, best);
      Pieces(Flat(parts[..best]), hangs, joins) + Pieces(Flat(parts[best..]), hangs, joins)
  }

  lemma CutParts(words: seq<string>, parts: seq<seq<string>>, best: nat)
    requires Solid(parts) && Flat(parts) == words && 0 < best < |parts|
    ensures words == Flat(parts[..best]) + Flat(parts[best..])
    ensures Flat(parts[..best]) != [] && Flat(parts[best..]) != []
  {
    var a, b := parts[..best], parts[best..];
    assert parts == a + b;
    CutFlat(a, b);
  }

  lemma OnePiece(words: seq<string>) returns (groups: seq<seq<string>>)
    requires words != [] && (Fits(words) <==> NoLongWord(words))
    ensures groups == [words] && Solid(groups) && Flat(groups) == words && [Join(words)] == Joined(groups)
    ensures AllFit(groups) <==> NoLongWord(words)
    ensures Join([Join(words)]) == Join(words)
  {
    groups := [words];
    assert groups[1..] == [];
    assert words in groups;
  }

  lemma OneWord(words: seq<string>)
    requires |words| == 1
    ensures Fits(words) <==> NoLongWord(words)
  {
    assert words[0] in words && Join(words) == words[0];
  }

  lemma Halved(words: seq<string>, parts: seq<string>, groups: seq<seq<string>>, best: nat)
    returns (front: seq<string>, back: seq<string>)
    requires AllWords(words) && 0 < best < |parts|
    requires Solid(groups) && Flat(groups) == words && parts == Joined(groups)
    ensures words == front + back && front != [] && back != [] && AllWords(front) && AllWords(back)
    ensures front == Flat(groups[..best]) && back == Flat(groups[best..])
    ensures Join(parts[..best]) == Join(front) && Join(parts[best..]) == Join(back)
  {
    var a, b := groups[..best], groups[best..];
    assert groups == a + b;
    CutFlat(a, b);
    JoinJoined(a);
    JoinJoined(b);
    assert Joined(a) == parts[..best] && Joined(b) == parts[best..];
    front, back := Flat(a), Flat(b);
    assert forall w :: w in front || w in back ==> w in words;
  }

  lemma FitBothWays(ga: seq<seq<string>>, gb: seq<seq<string>>, front: seq<string>, back: seq<string>)
    requires (AllFit(ga) <==> NoLongWord(front)) && (AllFit(gb) <==> NoLongWord(back))
    ensures AllFit(ga + gb) <==> NoLongWord(front + back)
  {
    assert AllFit(ga + gb) <==> AllFit(ga) && AllFit(gb) by {
      assert forall p :: p in ga + gb <==> p in ga || p in gb;
    }
    assert NoLongWord(front + back) <==> NoLongWord(front) && NoLongWord(back) by {
      assert forall w :: w in front + back <==> w in front || w in back;
    }
  }

  lemma Reunited(ga: seq<seq<string>>, gb: seq<seq<string>>)
    requires Solid(ga) && Solid(gb)
    ensures Solid(ga + gb) && Flat(ga + gb) == Flat(ga) + Flat(gb) && Joined(ga) + Joined(gb) == Joined(ga + gb)
    ensures Join(Joined(ga + gb)) == Join(Flat(ga) + Flat(gb))
  {
    FlatConcat(ga, gb);
    assert forall p :: p in ga + gb <==> p in ga || p in gb;
    JoinJoined(ga + gb);
  }

  /** `_split_long` terminates, its pieces joined by spaces are the sentence again, and every piece
      fits two lines if and only if no word is longer than a line. */
  method SplitLong(sentence: string, ghost words: seq<string>, hangs: string -> bool, joins: string -> bool)
    returns (pieces: seq<string>, ghost groups: seq<seq<string>>)
    requires AllWords(words) && words != [] && sentence == Join(words)
    ensures groups == Pieces(words, hangs, joins)
    ensures Solid(groups) && Flat(groups) == words && pieces == Joined(groups)
    ensures Join(pieces) == sentence
    ensures AllFit(groups) <==> NoLongWord(words)
    decreases |words|
  {
    var fits := FitsTwoLines(sentence, words);
    if fits {
      FitsHasNoLongWord(words);
      groups := OnePiece(words);
      return [sentence], groups;
    }
    var parts, byWord, partGroups := Parts(sentence, words);
    if |parts| < 2 {
      OneWord(words);
      groups := OnePiece(words);
      return [sentence], groups;
    }
    var best := BestBreak(parts, |sentence|, byWord, hangs, joins);
    ghost var front, back := Halved(words, parts, partGroups, best);
    var a, ga := SplitLong(Join(parts[..best]), front, hangs, joins);
    var b, gb := SplitLong(Join(parts[best..]), back, hangs, joins);
    Reunited(ga, gb);
    FitBothWays(ga, gb, front, back);
    pieces, groups := a + b, ga + gb;
  }

  lemma {:induction false} SinglesJoined(ws: seq<string>)
    ensures Joined(Singles(ws)) == ws
  {
    if ws != [] {
      SinglesJoined(ws[1..]);
      assert Joined(Singles(ws))[1..] == Joined(Singles(ws[1..]));
    }
  }

  /** `wrap_cue`: at most two lines of at most 42 characters, or an error exactly when there is no
      such setting. */
  method WrapCue(text: string) returns (cue: Result<string, string>)
    ensures cue.Ok? <==> Fits(Split(text))
    ensures cue.Ok? && Len(Split(text)) <= LINE_CHARS ==> cue.value == Join(Split(text))
    ensures cue.Ok? && Len(Split(text)) > LINE_CHARS ==>
              exists i :: Balanced(Split(text), i, |Split(text)|)
                && cue.value == Join(Split(text)[..i]) + "\n" + Join(Split(text)[i..])
  {
    var words := Split(text);
    SplitJoin(words);
    var lines := TwoLines(Join(words));
    if lines.None? {
      return Err("subtitle cue does not fit two lines");
    }
    if |lines.value| == 1 {
      return Ok(lines.value[0]);
    }
    return Ok(lines.value[0] + "\n" + lines.value[1]);
  }

  // ---- from pieces to cues ----

  /** How long words are once glued. */
  function Tight(ws: seq<string>): int { Len(ws) - Stuck(ws) }

  /** A line may end before word `i`: it does not stick, and both lines fit. */
  predicate CutsAt(ws: seq<string>, i: int) {
    0 < i < |ws| && !Sticks(ws[i]) && Tight(ws[..i]) <= LINE_CHARS && Tight(ws[i..]) <= LINE_CHARS
  }

  ghost predicate Settable(ws: seq<string>) { Tight(ws) <= LINE_CHARS || exists i :: CutsAt(ws, i) }

  /** When words that were counted apart still fit once the stops among them are glued on. */
  lemma SettableExactly(ws: seq<string>)
    requires ws != []
    ensures Fits(Glue(ws)) <==> Settable(ws)
  {
    GluedLength(ws);
    if j :| Halves(Glue(ws), j) {
      var i := CutInGlue(ws, j);
      GluedLength(ws[..i]);
      GluedLength(ws[i..]);
      assert CutsAt(ws, i);
    }
    if i :| CutsAt(ws, i) {
      GlueInTwo(ws, i);
      GluedLength(ws[..i]);
      GluedLength(ws[i..]);
      var front := Glue(ws[..i]);
      assert Glue(ws)[..|front|] == front && Glue(ws)[|front|..] == Glue(ws[i..]);
      assert Halves(Glue(ws), |front|);
    }
  }

  /** Gluing makes no word shorter. */
  lemma {:induction false} GlueCovers(ws: seq<string>)
    requires NoLongWord(Glue(ws))
    ensures NoLongWord(ws)
  {
    if |ws| >= 2 {
      var rest := Glue(ws[1..]);
      assert NoLongWord(rest) && |ws[0]| <= LINE_CHARS by {
        assert Glue(ws)[0] in Glue(ws);
        forall w | w in rest ensures |w| <= LINE_CHARS {
          assert w == rest[0] || w in Glue(ws);
        }
      }
      GlueCovers(ws[1..]);
      assert forall w :: w in ws ==> w == ws[0] || w in ws[1..];
    }
  }

  ghost predicate AllSettable(groups: seq<seq<string>>) { forall g :: g in groups ==> Settable(g) }

  /** A cue shows its words on one line, or else on the two that fit with the longer one shortest. */
  ghost predicate SetAs(g: seq<string>, cue: string) {
    if Len(g) <= LINE_CHARS then cue == Join(g)
    else exists i :: Balanced(g, i, |g|) && cue == Join(g[..i]) + "\n" + Join(g[i..])
  }

  ghost predicate AllSet(groups: seq<seq<string>>, cues: seq<string>) {
    |groups| == |cues| && forall k :: 0 <= k < |groups| ==> SetAs(Glue(groups[k]), cues[k])
  }

  /** What `build_srt` does to a cue's text: marks out, then two lines. */
  method SetCue(text: string) returns (cue: Result<string, string>)
    ensures cue.Ok? <==> Fits(Glue(Bare(text)))
    ensures cue.Ok? ==> SetAs(Glue(Bare(text)), cue.value)
  {
    StrippedWords(text);
    cue := WrapCue(StripMarks(text));
  }

  /** Words, and nothing in brackets among them. */
  ghost predicate Plain(g: seq<string>) { AllWords(g) && !HasMark(Join(g)) }

  ghost predicate PlainGroups(groups: seq<seq<string>>) { forall g :: g in groups ==> Plain(g) }

  lemma BareJoin(g: seq<string>)
    requires Plain(g)
    ensures Bare(Join(g)) == g
  {
    UnmarkedUnchanged(Join(g));
    SplitJoin(g);
  }

  lemma MarkLeft(s: string, b: string)
    requires HasMark(s)
    ensures HasMark(s + b)
  {
    var i, j :| 0 <= i < j < |s| && s[i] == '[' && s[j] == ']';
    assert (s + b)[i] == '[' && (s + b)[j] == ']';
  }

  lemma MarkRight(a: string, s: string)
    requires HasMark(s)
    ensures HasMark(a + s)
  {
    var i, j :| 0 <= i < j < |s| && s[i] == '[' && s[j] == ']';
    assert (a + s)[|a| + i] == '[' && (a + s)[|a| + j] == ']';
  }

  lemma MarkAhead(g: seq<string>, back: seq<string>)
    requires g != [] && HasMark(Join(g))
    ensures HasMark(Join(g + back))
  {
    if back == [] {
      assert g + back == g;
    } else {
      JoinConcat(g, back);
      MarkLeft(Join(g), " ");
      MarkLeft(Join(g) + " ", Join(back));
    }
  }

  lemma MarkBehind(front: seq<string>, g: seq<string>)
    requires g != [] && HasMark(Join(g))
    ensures HasMark(Join(front + g))
  {
    if front == [] {
      assert front + g == g;
    } else {
      JoinConcat(front, g);
      MarkRight(Join(front) + " ", Join(g));
    }
  }

  /** What holds nothing in brackets can be cut into pieces that do not either. */
  lemma {:induction false} PlainParts(front: seq<string>, groups: seq<seq<string>>)
    requires Solid(groups) && AllWords(Flat(groups)) && !HasMark(Join(front + Flat(groups)))
    ensures PlainGroups(groups)
    decreases |groups|
  {
    if groups != [] {
      var g, rest := groups[0], groups[1..];
      assert g in groups && forall h :: h in rest ==> h in groups;
      assert forall w :: w in g ==> w in Flat(groups);
      assert forall w :: w in Flat(rest) ==> w in Flat(groups);
      if HasMark(Join(g)) {
        MarkAhead(g, Flat(rest));
        MarkBehind(front, g + Flat(rest));
      }
      assert front + (g + Flat(rest)) == (front + g) + Flat(rest);
      PlainParts(front + g, rest);
      assert forall h :: h in groups ==> h == g || h in rest;
    }
  }

  method SetPiece(piece: string, ghost group: seq<string>) returns (cue: Result<string, string>)
    requires piece == Join(group) && group != [] && Plain(group)
    ensures cue.Ok? <==> Settable(group)
    ensures cue.Ok? ==> SetAs(Glue(group), cue.value)
  {
    BareJoin(group);
    SettableExactly(group);
    cue := SetCue(piece);
  }

  method SetPieces(pieces: seq<string>, ghost groups: seq<seq<string>>) returns (cues: Result<seq<string>, string>)
    requires pieces == Joined(groups) && Solid(groups) && PlainGroups(groups)
    ensures cues.Ok? <==> AllSettable(groups)
    ensures cues.Ok? ==> AllSet(groups, cues.value)
  {
    var out := [];
    for i := 0 to |pieces|
      invariant |out| == i && forall k :: 0 <= k < i ==> Settable(groups[k]) && SetAs(Glue(groups[k]), out[k])
    {
      assert groups[i] in groups;
      var cue := SetPiece(pieces[i], groups[i]);
      if cue.Err? {
        return Err(cue.error);
      }
      out := out + [cue.value];
    }
    return Ok(out);
  }

  lemma SettableHasNoLongWord(groups: seq<seq<string>>)
    requires Solid(groups) && AllSettable(groups)
    ensures NoLongWord(Flat(groups))
    decreases |groups|
  {
    if groups != [] {
      var g := groups[0];
      assert g in groups;
      SettableExactly(g);
      FitsHasNoLongWord(Glue(g));
      GlueCovers(g);
      assert forall h :: h in groups[1..] ==> h in groups;
      SettableHasNoLongWord(groups[1..]);
    }
  }

  lemma SettableUnglued(groups: seq<seq<string>>)
    requires Solid(groups) && forall w :: w in Flat(groups) ==> !Sticks(w)
    ensures AllSettable(groups) <==> AllFit(groups)
    decreases |groups|
  {
    if groups != [] {
      var g, rest := groups[0], groups[1..];
      assert g in groups && forall h :: h in rest ==> h in groups;
      assert forall w :: w in g ==> w in Flat(groups);
      assert forall w :: w in Flat(rest) ==> w in Flat(groups);
      NothingSticks(g);
      SettableExactly(g);
      SettableUnglued(rest);
      assert forall h :: h in groups ==> h == g || h in rest;
    }
  }

  /** Setting a sentence, in which parsing has left nothing in brackets: the error `wrap_cue` guards
      against is met exactly when some piece, its stops glued on, has no place left for a line to end.
      An overlong word always brings that about; without a word that begins with a stop, nothing else
      does. */
  method SetSentence(sentence: string, hangs: string -> bool, joins: string -> bool)
    returns (cues: Result<seq<string>, string>)
    requires Split(sentence) != [] && sentence == Join(Split(sentence)) && !HasMark(sentence)
    ensures cues.Ok? <==> AllSettable(Pieces(Split(sentence), hangs, joins))
    ensures cues.Ok? ==> NoLongWord(Split(sentence))
    ensures (forall w :: w in Split(sentence) ==> !Sticks(w)) ==> (cues.Ok? <==> NoLongWord(Split(sentence)))
    ensures Flat(Pieces(Split(sentence), hangs, joins)) == Split(sentence)
    ensures cues.Ok? ==> AllSet(Pieces(Split(sentence), hangs, joins), cues.value)
  {
    var pieces: seq<string>;
    ghost var groups;
    pieces, groups := SplitLong(sentence, Split(sentence), hangs, joins);
    assert [] + Flat(groups) == Flat(groups);
    PlainParts([], groups);
    cues := SetPieces(pieces, groups);
    if AllSettable(groups) {
      SettableHasNoLongWord(groups);
    }
    if forall w :: w in Split(sentence) ==> !Sticks(w) {
      SettableUnglued(groups);
    }
  }

  // ---- sentences that cannot be set though every word is short ----

  lemma {:induction false} StuckJoined(a: seq<string>, b: seq<string>)
    requires a != [] && b != []
    ensures Stuck(a + b) == Stuck(a) + Stuck(b) + (if Sticks(b[0]) then 1 else 0)
  {
    if |a| == 1 {
      assert (a + b)[1..] == b;
    } else {
      assert (a + b)[1..] == a[1..] + b;
      StuckJoined(a[1..], b);
    }
  }

  lemma TightJoined(a: seq<string>, b: seq<string>)
    requires a != [] && b != []
    ensures Tight(a + b) == Tight(a) + Tight(b) + (if Sticks(b[0]) then 0 else 1)
  {
    StuckJoined(a, b);
    JoinConcat(a, b);
  }

  lemma {:induction false} TightPositive(ws: seq<string>)
    requires AllWords(ws) && ws != []
    ensures Tight(ws) >= 1
  {
    assert IsWord(ws[0]);
    if |ws| > 1 {
      assert forall w :: w in ws[1..] ==> w in ws;
      TightPositive(ws[1..]);
      TightJoined(ws[..1], ws[1..]);
      assert ws == ws[..1] + ws[1..];
    }
  }

  /** A comma standing alone after a full line, with a line two short of full to follow, or nothing if
      the full line is one word: it fits as counted, so it is never split, and cannot be set. */
  lemma CommaBetweenLines(front: seq<string>, back: seq<string>, hangs: string -> bool, joins: string -> bool)
    requires AllWords(front) && front != [] && Tight(front) == LINE_CHARS == Len(front)
    requires AllWords(back)
    requires if back == [] then |front| == 1 else Tight(back) == LINE_CHARS - 2 == Len(back) && !Sticks(back[0])
    ensures var words := front + [","] + back;
            Pieces(words, hangs, joins) == [words] && !Settable(words)
  {
    var words, end := front + [","] + back, [","] + back;
    assert words == front + end;
    assert words[..|front|] == front && words[|front|..] == end;
    JoinConcat(front, end);
    if back != [] {
      JoinConcat([","], back);
      TightJoined([","], back);
    } else {
      assert end == [","];
    }
    assert Halves(words, |front|);
    TightJoined(front, end);
    forall i | CutsAt(words, i) ensures false {
      NoCutAround(front, back, i);
    }
  }

  lemma CutInFront(front: seq<string>, end: seq<string>, i: int)
    requires AllWords(front) && 0 < i < |front| && end != [] && Tight(end) >= LINE_CHARS && Sticks(end[0])
    ensures !CutsAt(front + end, i)
  {
    assert (front + end)[i..] == front[i..] + end;
    assert forall w :: w in front[i..] ==> w in front;
    TightPositive(front[i..]);
    TightJoined(front[i..], end);
  }

  lemma CutBehind(front: seq<string>, back: seq<string>, n: nat)
    requires front != [] && Tight(front) == LINE_CHARS && AllWords(back) && n < |back|
    ensures !CutsAt(front + [","] + back, |front| + 1 + n)
  {
    var words, more := front + [","] + back, back[..n];
    assert words[..|front| + 1 + n] == front + ([","] + more);
    assert forall w :: w in more ==> w in back;
    if more != [] {
      TightPositive(more);
      TightJoined([","], more);
    } else {
      assert [","] + more == [","];
    }
    TightJoined(front, [","] + more);
  }

  lemma NoCutAround(front: seq<string>, back: seq<string>, i: int)
    requires AllWords(front) && front != [] && Tight(front) == LINE_CHARS
    requires AllWords(back)
    requires if back == [] then |front| == 1 else Tight(back) == LINE_CHARS - 2 && !Sticks(back[0])
    ensures !CutsAt(front + [","] + back, i)
  {
    var words, end := front + [","] + back, [","] + back;
    if 0 < i < |front| {
      assert words == front + end;
      TightJoined([","], back);
      CutInFront(front, end, i);
    } else if |front| < i < |words| {
      CutBehind(front, back, i - |front| - 1);
    }
  }
}
