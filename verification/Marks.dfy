/** What `strip_marks` leaves of narration or of a cue's text (video/narrate.py): no beat marks, single
    spaces, and none before a stop. */
module Marks {
  import opened BeatMarks
  import opened Words

  predicate IsStop(c: char) { c == ',' || c == '.' || c == ';' || c == ':' || c == '!' || c == '?' }

  /** Every run of spaces before a stop taken out. */
  function Tighten(s: string): string
    decreases |s|
  {
    if s == "" then ""
    else if IsSpace(s[0]) && DropSpaces(s) != "" && IsStop(DropSpaces(s)[0]) then Tighten(DropSpaces(s))
    else [s[0]] + Tighten(s[1..])
  }

  /** The words of a text without its beat marks. */
  function Bare(text: string): (ws: seq<string>)
    ensures AllWords(ws)
  {
    Split(Unmarked(text))
  }

  function StripMarks(text: string): string { Tighten(Join(Bare(text))) }

  // ---- the same on words ----

  /** A word that begins with a stop sticks to the word before it. */
  predicate Sticks(w: string) { w != "" && IsStop(w[0]) }

  /** `w` put before glued words, the first of which begins as `next` does. */
  function GlueOn(w: string, next: string, glued: seq<string>): (r: seq<string>)
    requires glued != []
    ensures r != []
  {
    if Sticks(next) then [w + glued[0]] + glued[1..] else [w] + glued
  }

  function Glue(ws: seq<string>): (glued: seq<string>)
    ensures ws != [] <==> glued != []
  {
    if |ws| < 2 then ws else GlueOn(ws[0], ws[1], Glue(ws[1..]))
  }

  lemma {:induction false} GlueKeepsWords(ws: seq<string>)
    requires AllWords(ws)
    ensures AllWords(Glue(ws))
    ensures ws != [] ==> ws[0] <= Glue(ws)[0]
  {
    if |ws| >= 2 {
      assert forall w :: w in ws[1..] ==> w in ws;
      GlueKeepsWords(ws[1..]);
      var rest := Glue(ws[1..]);
      assert IsWord(ws[0]) && IsWord(rest[0]);
      assert forall w :: w in rest[1..] ==> w in rest;
    }
  }

  lemma {:induction false} TightenWord(w: string, rest: string)
    requires forall c :: c in w ==> !IsSpace(c)
    ensures Tighten(w + rest) == w + Tighten(rest)
    decreases |w|
  {
    if w == "" {
      assert w + rest == rest;
    } else {
      assert w[0] in w;
      assert (w + rest)[1..] == w[1..] + rest;
      TightenWord(w[1..], rest);
    }
  }

  lemma TightenSpace(rest: string)
    requires rest != "" && !IsSpace(rest[0])
    ensures Tighten(" " + rest) == (if IsStop(rest[0]) then "" else " ") + Tighten(rest)
  {
    var s := " " + rest;
    assert s[1..] == rest && DropSpaces(s) == DropSpaces(rest) == rest;
  }

  lemma JoinCons(w: string, rest: seq<string>)
    requires rest != []
    ensures Join([w] + rest) == w + " " + Join(rest)
  {
    assert ([w] + rest)[1..] == rest;
  }

  lemma JoinHead(a: string, h: string, rest: seq<string>)
    ensures Join([a + h] + rest) == a + Join([h] + rest)
  {
    if rest == [] {
      assert [a + h] + rest == [a + h] && [h] + rest == [h];
    } else {
      JoinCons(a + h, rest);
      JoinCons(h, rest);
      assert (a + h) + " " + Join(rest) == a + (h + " " + Join(rest));
    }
  }

  function Gap(next: string): string { if Sticks(next) then "" else " " }

  lemma JoinGlueOn(w: string, next: string, glued: seq<string>)
    requires glued != []
    ensures Join(GlueOn(w, next, glued)) == w + Gap(next) + Join(glued)
  {
    if Sticks(next) {
      JoinHead(w, glued[0], glued[1..]);
      assert [glued[0]] + glued[1..] == glued;
      assert w + "" == w;
    } else {
      JoinCons(w, glued);
    }
  }

  lemma TightenPair(w: string, next: string, tail: string)
    requires IsWord(w) && IsWord(next) && tail != "" && tail[0] == next[0]
    ensures Tighten(w + " " + tail) == w + Gap(next) + Tighten(tail)
  {
    assert next[0] in next;
    Assoc(w, " ", tail);
    TightenWord(w, " " + tail);
    TightenSpace(tail);
    Assoc(w, Gap(next), Tighten(tail));
  }

  /** Stripping characters is gluing words. */
  lemma {:induction false} TightenIsGlue(ws: seq<string>)
    requires AllWords(ws)
    ensures Tighten(Join(ws)) == Join(Glue(ws))
  {
    if |ws| == 1 {
      assert IsWord(ws[0]) && ws[0] + "" == ws[0];
      TightenWord(ws[0], "");
    } else if |ws| > 1 {
      assert forall x :: x in ws[1..] ==> x in ws;
      assert IsWord(ws[0]) && IsWord(ws[1]);
      HeadOfJoin(ws[1..]);
      TightenIsGlue(ws[1..]);
      TightenPair(ws[0], ws[1], Join(ws[1..]));
      JoinGlueOn(ws[0], ws[1], Glue(ws[1..]));
    }
  }

  lemma HeadOfJoin(ws: seq<string>)
    requires ws != [] && IsWord(ws[0])
    ensures Join(ws) != "" && Join(ws)[0] == ws[0][0]
  {
  }

  /** The words of a stripped text are its words, glued. */
  lemma StrippedWords(text: string)
    ensures StripMarks(text) == Join(Glue(Bare(text))) && Split(StripMarks(text)) == Glue(Bare(text))
  {
    TightenIsGlue(Bare(text));
    GlueKeepsWords(Bare(text));
    SplitJoin(Glue(Bare(text)));
  }

  // ---- how long, and where it can be cut ----

  /** The spaces gluing takes out. */
  function Stuck(ws: seq<string>): nat {
    if |ws| < 2 then 0 else Stuck(ws[1..]) + (if Sticks(ws[1]) then 1 else 0)
  }

  lemma {:induction false} GluedLength(ws: seq<string>)
    ensures |Join(Glue(ws))| == |Join(ws)| - Stuck(ws)
  {
    if |ws| >= 2 {
      GluedLength(ws[1..]);
      JoinGlueOn(ws[0], ws[1], Glue(ws[1..]));
    }
  }

  lemma GlueOnFront(w: string, next: string, glued: seq<string>, more: seq<string>)
    requires glued != []
    ensures GlueOn(w, next, glued + more) == GlueOn(w, next, glued) + more
  {
    assert (glued + more)[1..] == glued[1..] + more;
  }

  /** Cutting before a word that does not stick cuts the glued words too. */
  lemma {:induction false} GlueInTwo(ws: seq<string>, i: nat)
    requires 0 < i < |ws| && !Sticks(ws[i])
    ensures Glue(ws) == Glue(ws[..i]) + Glue(ws[i..])
  {
    if i == 1 {
      assert ws[..1] == [ws[0]];
    } else {
      GlueInTwo(ws[1..], i - 1);
      assert ws[1..][..i - 1] == ws[..i][1..] && ws[1..][i - 1..] == ws[i..];
      GlueOnFront(ws[0], ws[1], Glue(ws[..i][1..]), Glue(ws[i..]));
    }
  }

  /** And there is no other way to cut them. */
  lemma {:induction false} CutInGlue(ws: seq<string>, j: nat) returns (i: nat)
    requires 0 < j < |Glue(ws)|
    ensures 0 < i < |ws| && !Sticks(ws[i]) && j == |Glue(ws[..i])|
    ensures Glue(ws)[..j] == Glue(ws[..i]) && Glue(ws)[j..] == Glue(ws[i..])
  {
    if !Sticks(ws[1]) && j == 1 {
      i := 1;
      assert ws[..1] == [ws[0]];
    } else {
      i := CutInGlue(ws[1..], if Sticks(ws[1]) then j else j - 1);
      i := i + 1;
      assert ws[1..][..i - 1] == ws[..i][1..];
    }
    GlueInTwo(ws, i);
  }

  /** With no word that sticks, nothing changes. */
  lemma {:induction false} NothingSticks(ws: seq<string>)
    requires forall i :: 0 < i < |ws| ==> !Sticks(ws[i])
    ensures Glue(ws) == ws && Stuck(ws) == 0
  {
    if |ws| >= 2 {
      NothingSticks(ws[1..]);
    }
  }
}
