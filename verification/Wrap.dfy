/** `_wrap` of homesoc/cli.py: greedy line breaking. */
module Wrap {
  import opened Words

  function Len(line: seq<string>): nat { |Join(line)| }

  predicate LineOk(line: seq<string>, width: int) { line != [] && (|line| > 1 ==> Len(line) <= width) }

  /** A way of breaking these words into lines; only a line of one word may be too long. */
  ghost predicate Breaks(lines: seq<seq<string>>, words: seq<string>, width: int) {
    Flat(lines) == words && forall line :: line in lines ==> LineOk(line, width)
  }

  /** One turn of the loop: the word goes on the open line if it fits there, and opens the next
      line otherwise. */
  function GreedyOn(lines: seq<seq<string>>, word: string, width: int): seq<seq<string>> {
    if lines != [] && Len(lines[|lines| - 1]) + 1 + |word| <= width
    then lines[..|lines| - 1] + [lines[|lines| - 1] + [word]]
    else lines + [[word]]
  }

  /** The lines `_wrap` makes of the words so far, the last of them still open. */
  function Greedy(words: seq<string>, width: int): seq<seq<string>> {
    if words == [] then [] else GreedyOn(Greedy(words[..|words| - 1], width), words[|words| - 1], width)
  }

  lemma LongerLine(line: seq<string>, word: string)
    requires line != []
    ensures Len(line + [word]) == Len(line) + 1 + |word|
  {
    JoinConcat(line, [word]);
  }

  lemma FlatLast(lines: seq<seq<string>>)
    requires lines != []
    ensures Flat(lines) == Flat(lines[..|lines| - 1]) + lines[|lines| - 1]
  {
    var n := |lines| - 1;
    assert lines == lines[..n] + [lines[n]];
    FlatOne(lines[n]);
    FlatConcat(lines[..n], [lines[n]]);
  }

  lemma AddedLine(lines: seq<seq<string>>, word: string)
    ensures Flat(lines + [[word]]) == Flat(lines) + [word]
  {
    var all := lines + [[word]];
    FlatLast(all);
    assert all[..|all| - 1] == lines;
  }

  lemma AddedWord(front: seq<seq<string>>, line: seq<string>, word: string)
    ensures Flat(front + [line + [word]]) == Flat(front + [line]) + [word]
  {
    var was, all := front + [line], front + [line + [word]];
    FlatLast(was);
    FlatLast(all);
    assert was[..|was| - 1] == front && all[..|all| - 1] == front;
  }

  lemma GreedyTurn(lines: seq<seq<string>>, words: seq<string>, word: string, width: int)
    requires Breaks(lines, words, width)
    ensures Breaks(GreedyOn(lines, word, width), words + [word], width)
  {
    var n := |lines| - 1;
    if lines != [] && Len(lines[n]) + 1 + |word| <= width {
      assert lines[n] in lines;
      LongerLine(lines[n], word);
      AddedWord(lines[..n], lines[n], word);
      assert lines == lines[..n] + [lines[n]];
    } else {
      AddedLine(lines, word);
    }
  }

  /** It keeps the words and their order, and exceeds the width only on a line of one word. */
  lemma {:induction false} GreedyBreaks(words: seq<string>, width: int)
    ensures Breaks(Greedy(words, width), words, width)
    ensures words != [] ==> Greedy(words, width) != []
  {
    if words != [] {
      var n := |words| - 1;
      GreedyBreaks(words[..n], width);
      GreedyTurn(Greedy(words[..n], width), words[..n], words[n], width);
      assert words == words[..n] + [words[n]];
    }
  }

  ghost predicate EndsWith(line: seq<string>, end: seq<string>) {
    |end| <= |line| && line[|line| - |end|..] == end
  }

  lemma JoinSuffix(line: seq<string>, end: seq<string>)
    requires EndsWith(line, end)
    ensures Len(end) <= Len(line)
  {
    var head := line[..|line| - |end|];
    assert line == head + end;
    if head == [] {
      assert line == end;
    } else if end != [] {
      JoinConcat(head, end);
    }
  }

  /** The same break with its last word taken away. */
  function Shortened(lines: seq<seq<string>>): seq<seq<string>>
    requires lines != [] && lines[|lines| - 1] != []
  {
    var n := |lines| - 1;
    if |lines[n]| == 1 then lines[..n] else lines[n := lines[n][..|lines[n]| - 1]]
  }

  lemma ShortenedBreaks(lines: seq<seq<string>>, words: seq<string>, width: int)
    requires Breaks(lines, words, width) && lines != []
    ensures lines[|lines| - 1] != [] && words != []
    ensures Breaks(Shortened(lines), words[..|words| - 1], width)
    ensures lines[|lines| - 1][|lines[|lines| - 1]| - 1] == words[|words| - 1]
  {
    var n := |lines| - 1;
    var last := lines[n];
    assert last in lines;
    FlatLast(lines);
    assert last == last[..|last| - 1] + [last[|last| - 1]];
    if |last| == 1 {
      assert words[..|words| - 1] == Flat(lines[..n]);
    } else {
      var short := Shortened(lines);
      FlatLast(short);
      assert short[..n] == lines[..n];
      LongerLine(last[..|last| - 1], last[|last| - 1]);
      assert words[..|words| - 1] == Flat(short);
    }
  }

  /** If a line ends with greedy's open line, so it does with the next word, and that one fits. */
  lemma LastWordFits(last: seq<string>, end: seq<string>, width: int)
    requires |last| > 1 && Len(last) <= width && end != [] && EndsWith(last[..|last| - 1], end)
    ensures var word := last[|last| - 1];
            Len(end) + 1 + |word| <= width && EndsWith(last, end + [word])
  {
    var word := last[|last| - 1];
    assert EndsWith(last, end + [word]);
    JoinSuffix(last, end + [word]);
    LongerLine(end, word);
  }

  lemma GreedyLine(words: seq<string>, width: int)
    requires words != []
    ensures Greedy(words, width) != [] && Greedy(words, width)[|Greedy(words, width)| - 1] != []
  {
    GreedyBreaks(words, width);
    assert Greedy(words, width)[|Greedy(words, width)| - 1] in Greedy(words, width);
  }

  /** No more lines, and where as many, an open line the other's last one ends with. */
  ghost predicate Leads(lines: seq<seq<string>>, other: seq<seq<string>>) {
    && |lines| <= |other|
    && (|lines| == |other| > 0 ==> EndsWith(other[|other| - 1], lines[|lines| - 1]))
  }

  lemma LeadsOn(lines: seq<seq<string>>, other: seq<seq<string>>, word: string, width: int)
    requires other != [] && LineOk(other[|other| - 1], width)
    requires other[|other| - 1][|other[|other| - 1]| - 1] == word
    requires lines != [] ==> lines[|lines| - 1] != []
    requires Leads(lines, Shortened(other))
    ensures Leads(GreedyOn(lines, word, width), other)
  {
    var last := other[|other| - 1];
    if |last| > 1 && |lines| == |other| {
      LastWordFits(last, lines[|lines| - 1], width);
    }
  }

  /** Greedy stays ahead: no other break uses fewer lines, and one that uses as many has a last line
      that ends with all of greedy's. */
  lemma {:induction false} GreedyLeads(words: seq<string>, width: int, other: seq<seq<string>>)
    requires Breaks(other, words, width)
    ensures Leads(Greedy(words, width), other)
    decreases |words|
  {
    if other == [] {
      assert words == [];
    } else {
      ShortenedBreaks(other, words, width);
      var n := |words| - 1;
      GreedyLeads(words[..n], width, Shortened(other));
      if words[..n] != [] {
        GreedyLine(words[..n], width);
      }
      assert other[|other| - 1] in other;
      LeadsOn(Greedy(words[..n], width), other, words[n], width);
    }
  }

  /** What one turn does to the lines as text. */
  lemma JoinedTurn(lines: seq<seq<string>>, word: string, width: int)
    requires lines != [] ==> lines[|lines| - 1] != []
    ensures var all, text, n := Joined(GreedyOn(lines, word, width)), Joined(lines), |lines| - 1;
            all == if lines != [] && |text[n]| + 1 + |word| <= width
                   then text[..n] + [text[n] + " " + word] else text + [word]
  {
    if lines != [] {
      JoinConcat(lines[|lines| - 1], [word]);
    }
  }

  lemma JoinedGreedy(words: seq<string>, i: nat, width: int)
    requires i < |words|
    ensures var was, all := Joined(Greedy(words[..i], width)), Joined(Greedy(words[..i + 1], width));
            && (i > 0 ==> was != [])
            && all == if was != [] && |was[|was| - 1]| + 1 + |words[i]| <= width
                      then was[..|was| - 1] + [was[|was| - 1] + " " + words[i]] else was + [words[i]]
  {
    var was := Greedy(words[..i], width);
    assert words[..i + 1][..i] == words[..i];
    if i > 0 {
      GreedyLine(words[..i], width);
    }
    JoinedTurn(was, words[i], width);
  }

  /** `_wrap`: every word kept in order; too wide only where one word alone is; and as few lines as
      any such wrapping can have. */
  method WrapText(text: string, width: int) returns (lines: seq<string>)
    ensures Split(text) == [] ==> lines == [""]
    ensures Split(text) != [] ==> exists groups :: Breaks(groups, Split(text), width) && lines == Joined(groups)
    ensures forall other :: Split(text) != [] && Breaks(other, Split(text), width) ==> |lines| <= |other|
  {
    var words := Split(text);
    lines := [];
    var current := "";
    for i := 0 to |words|
      invariant i == 0 ==> current == "" && lines == []
      invariant i > 0 ==> current != "" && lines + [current] == Joined(Greedy(words[..i], width))
    {
      var word := words[i];
      assert word in words;
      JoinedGreedy(words, i, width);
      assert (lines + [current])[|lines|] == current;
      if current != "" && |current| + 1 + |word| > width {
        lines := lines + [current];
        current := word;
      } else {
        current := if current == "" then word else current + " " + word;
      }
    }
    assert words[..|words|] == words;
    GreedyBreaks(words, width);
    if current != "" {
      lines := lines + [current];
    }
    if lines == [] {
      lines := [""];
    }
    forall other | Breaks(other, words, width) && words != [] ensures |lines| <= |other| {
      GreedyLeads(words, width, other);
    }
  }
}
