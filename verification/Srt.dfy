/** Subtitles as text: the printer of video/narrate.py and, in video/render.py, the reader that
    takes its output back and prints it again at other times.  Times are whole milliseconds. */
module Srt {
  import opened Options
  import opened Words

  // ---- printing ----

  function DigitChar(d: nat): char
    requires d < 10
  {
    "0123456789"[d]
  }

  function Digits(n: nat): string {
    if n < 10 then [DigitChar(n)] else Digits(n / 10) + [DigitChar(n % 10)]
  }

  /** `{n:02d}` and `{n:03d}`; more digits when they are needed. */
  function Pad2(n: nat): string { if n < 10 then "0" + Digits(n) else Digits(n) }

  function Pad3(n: nat): string { if n < 10 then "00" + Digits(n) else if n < 100 then "0" + Digits(n) else Digits(n) }

  function Clipped(ms: int): nat { if ms < 0 then 0 else ms }

  function Timestamp(ms: int): string {
    var t := Clipped(ms);
    Pad2(t / 3_600_000) + ":" + Pad2(t / 60_000 % 60) + ":" + Pad2(t / 1000 % 60) + "," + Pad3(t % 1000)
  }

  /** A cue with its text already set in lines. */
  datatype Cue = Cue(start: int, end: int, body: string)

  /** Block `n`, with `rest` after it. */
  function Block(n: nat, cue: Cue, rest: string): string {
    Digits(n) + ("\n" + Line(cue, "\n" + (cue.body + ("\n" + rest))))
  }

  function Line(cue: Cue, rest: string): string {
    Timestamp(cue.start) + (" --> " + (Timestamp(cue.end) + rest))
  }

  /** Blocks numbered from `n`, an empty line between any two. */
  function Text(cues: seq<Cue>, n: nat): string {
    if cues == [] then "" else Block(n, cues[0], if |cues| == 1 then "" else "\n" + Text(cues[1..], n + 1))
  }

  // ---- reading: what `_SRT_BLOCK.findall` finds ----

  /** `\s*\n`, greedy: what follows the last newline of the leading run of spaces. */
  function AfterLastNewline(s: string): Option<string> {
    if s == "" || !IsSpace(s[0]) then None
    else if AfterLastNewline(s[1..]).Some? then AfterLastNewline(s[1..])
    else if s[0] == '\n' then Some(s[1..])
    else None
  }

  predicate StampAt(s: string) {
    && |s| >= 12 && IsDigit(s[0]) && IsDigit(s[1]) && s[2] == ':' && IsDigit(s[3]) && IsDigit(s[4])
    && s[5] == ':' && IsDigit(s[6]) && IsDigit(s[7]) && s[8] == ',' && IsDigit(s[9]) && IsDigit(s[10])
    && IsDigit(s[11])
  }

  function StampValue(s: string): int
    requires StampAt(s)
  {
    (Value(s[0]) * 10 + Value(s[1])) * 3_600_000 + (Value(s[3]) * 10 + Value(s[4])) * 60_000
    + (Value(s[6]) * 10 + Value(s[7])) * 1000 + Value(s[9]) * 100 + Value(s[10]) * 10 + Value(s[11])
  }

  /** `(.*?)(?=\n\s*\n|\Z)`: up to the first newline with only spaces between it and another. */
  function BodyOf(s: string): (string, string) {
    if s == "" || (s[0] == '\n' && AfterLastNewline(s[1..]).Some?) then ("", s)
    else
      var (body, rest) := BodyOf(s[1..]);
      ([s[0]] + body, rest)
  }

  function StripNewlines(s: string): string {
    if s != "" && s[0] == '\n' then StripNewlines(s[1..])
    else if s != "" && s[|s| - 1] == '\n' then StripNewlines(s[..|s| - 1])
    else s
  }

  /** A block at the start of `s`, and what is left after it. */
  function BlockAt(s: string): Option<(Cue, string)> {
    if s == "" || !IsDigit(s[0]) then None
    else
      var first := AfterLastNewline(DropDigits(s));
      if first.None? || !StampAt(first.value) then None
      else
        var arrow := DropSpaces(first.value[12..]);
        if !("-->" <= arrow) then None
        else
          var second := DropSpaces(arrow[3..]);
          if !StampAt(second) then None
          else
            var line := AfterLastNewline(second[12..]);
            if line.None? then None
            else
              var (body, rest) := BodyOf(line.value);
              Some((Cue(StampValue(first.value), StampValue(second), StripNewlines(body)), rest))
  }

  lemma {:induction false} DropsShorten(s: string)
    ensures |DropDigits(s)| <= |s| && |DropSpaces(s)| <= |s|
    ensures AfterLastNewline(s).Some? ==> |AfterLastNewline(s).value| < |s|
    decreases |s|
  {
    if s != "" {
      DropsShorten(s[1..]);
    }
  }

  lemma {:induction false} BodyShortens(s: string)
    ensures |BodyOf(s).1| <= |s|
    decreases |s|
  {
    if s != "" {
      BodyShortens(s[1..]);
    }
  }

  lemma BlockShortens(s: string)
    requires BlockAt(s).Some?
    ensures |BlockAt(s).value.1| < |s|
  {
    DropsShorten(s);
    DropsShorten(DropDigits(s));
    var first := AfterLastNewline(DropDigits(s)).value;
    DropsShorten(first[12..]);
    var arrow := DropSpaces(first[12..]);
    DropsShorten(arrow[3..]);
    var second := DropSpaces(arrow[3..]);
    DropsShorten(second[12..]);
    BodyShortens(AfterLastNewline(second[12..]).value);
  }

  function FindAll(s: string): seq<Cue>
    decreases |s|
  {
    if s == "" then []
    else if BlockAt(s).Some? then
      BlockShortens(s);
      [BlockAt(s).value.0] + FindAll(BlockAt(s).value.1)
    else FindAll(s[1..])
  }

  // ---- reading back what was printed ----

  /** What `wrap_cue` makes: no space at either end, and every newline inside before a word. */
  predicate Set(body: string) {
    && body != "" && !IsSpace(body[0]) && !IsSpace(body[|body| - 1])
    && forall e :: 0 <= e < |body| && body[e] == '\n' ==> !IsSpace(body[e + 1])
  }

  const HUNDRED_HOURS := 360_000_000

  /** Readable: set text and times that print in two-digit hours. */
  predicate Readable(cue: Cue) {
    Set(cue.body) && Clipped(cue.start) < HUNDRED_HOURS && Clipped(cue.end) < HUNDRED_HOURS
  }

  function Shown(cue: Cue): Cue { Cue(Clipped(cue.start), Clipped(cue.end), cue.body) }

  /** The decimal text of a number, with no needless zero before it. */
  ghost predicate Names(d: string, n: nat) {
    d != "" && (forall c :: c in d ==> '0' <= c <= '9') && Whole(d) == n && (d[0] == '0' ==> n == 0)
  }

  /** A number is printed as the digits that name it. */
  lemma {:induction false} DigitsName(n: nat)
    ensures Names(Digits(n), n)
  {
    DigitValue(n % 10);
    if n >= 10 {
      DigitsName(n / 10);
      assert Digits(n)[..|Digits(n)| - 1] == Digits(n / 10);
    } else {
      assert Digits(n)[..0] == "" && Whole("") == 0;
    }
  }

  lemma DigitsAreDigits(n: nat)
    ensures Digits(n) != "" && forall c :: c in Digits(n) ==> IsDigit(c)
  {
  }

  lemma {:induction false} ReadDigits(d: string, rest: string)
    requires forall c :: c in d ==> IsDigit(c)
    requires rest == "" || !IsDigit(rest[0])
    ensures DropDigits(d + rest) == rest
  {
    if d == "" {
      assert d + rest == rest;
    } else {
      assert d[0] in d;
      assert (d + rest)[1..] == d[1..] + rest;
      ReadDigits(d[1..], rest);
    }
  }

  lemma TwoDigits(n: nat)
    requires n < 100
    ensures Pad2(n) == [DigitChar(n / 10), DigitChar(n % 10)]
  {
    if n >= 10 {
      assert Digits(n / 10) == [DigitChar(n / 10)];
    }
  }

  lemma ThreeDigits(n: nat)
    requires n < 1000
    ensures Pad3(n) == [DigitChar(n / 100), DigitChar(n / 10 % 10), DigitChar(n % 10)]
  {
    if n < 100 {
      TwoDigits(n);
      assert n / 100 == 0 && n / 10 % 10 == n / 10;
    } else {
      assert n / 10 / 10 == n / 100;
      assert Digits(n / 10) == Digits(n / 100) + [DigitChar(n / 10 % 10)];
      assert Digits(n) == Digits(n / 10) + [DigitChar(n % 10)];
    }
  }

  lemma DigitValue(d: nat)
    requires d < 10
    ensures IsDigit(DigitChar(d)) && Value(DigitChar(d)) == d
  {
  }

  lemma TwoValues(n: nat)
    requires n < 100
    ensures IsDigit(DigitChar(n / 10)) && IsDigit(DigitChar(n % 10))
    ensures Value(DigitChar(n / 10)) * 10 + Value(DigitChar(n % 10)) == n
  {
    DigitValue(n / 10);
    DigitValue(n % 10);
  }

  lemma ThreeValues(n: nat)
    requires n < 1000
    ensures IsDigit(DigitChar(n / 100)) && IsDigit(DigitChar(n / 10 % 10)) && IsDigit(DigitChar(n % 10))
    ensures Value(DigitChar(n / 100)) * 100 + Value(DigitChar(n / 10 % 10)) * 10 + Value(DigitChar(n % 10)) == n
  {
    var a, b, c := n / 100, n / 10 % 10, n % 10;
    assert n == 100 * a + 10 * b + c;
    ThreeDigitsValue(a, b, c);
  }

  lemma ThreeDigitsValue(a: nat, b: nat, c: nat)
    requires a < 10 && b < 10 && c < 10
    ensures IsDigit(DigitChar(a)) && IsDigit(DigitChar(b)) && IsDigit(DigitChar(c))
    ensures Value(DigitChar(a)) * 100 + Value(DigitChar(b)) * 10 + Value(DigitChar(c)) == 100 * a + 10 * b + c
  {
    DigitValue(a);
    DigitValue(b);
    DigitValue(c);
  }

  /** Hours, minutes, seconds and milliseconds, printed and read. */
  lemma ReadFields(h: nat, m: nat, sec: nat, ms: nat, rest: string)
    requires h < 100 && m < 60 && sec < 60 && ms < 1000
    ensures var stamp := Pad2(h) + ":" + Pad2(m) + ":" + Pad2(sec) + "," + Pad3(ms);
            && |stamp| == 12 && StampAt(stamp + rest) && (stamp + rest)[12..] == rest
            && StampValue(stamp + rest) == h * 3_600_000 + m * 60_000 + sec * 1000 + ms
  {
    TwoDigits(h);
    TwoDigits(m);
    TwoDigits(sec);
    ThreeDigits(ms);
    StampFlat(Pad2(h), Pad2(m), Pad2(sec), Pad3(ms));
    var flat := [DigitChar(h / 10), DigitChar(h % 10), ':', DigitChar(m / 10), DigitChar(m % 10), ':',
                 DigitChar(sec / 10), DigitChar(sec % 10), ',',
                 DigitChar(ms / 100), DigitChar(ms / 10 % 10), DigitChar(ms % 10)];
    ReadFlat(flat, h, m, sec, ms, rest);
  }

  lemma StampFlat(h: string, m: string, sec: string, ms: string)
    requires |h| == |m| == |sec| == 2 && |ms| == 3
    ensures h + ":" + m + ":" + sec + "," + ms
            == [h[0], h[1], ':', m[0], m[1], ':', sec[0], sec[1], ',', ms[0], ms[1], ms[2]]
  {
  }

  lemma StampThen(flat: string, rest: string)
    requires |flat| == 12 && StampAt(flat)
    ensures StampAt(flat + rest) && StampValue(flat + rest) == StampValue(flat) && (flat + rest)[12..] == rest
  {
    assert forall i :: 0 <= i < 12 ==> (flat + rest)[i] == flat[i];
  }

  lemma ReadFlat(flat: string, h: nat, m: nat, sec: nat, ms: nat, rest: string)
    requires h < 100 && m < 60 && sec < 60 && ms < 1000
    requires flat == [DigitChar(h / 10), DigitChar(h % 10), ':', DigitChar(m / 10), DigitChar(m % 10), ':',
                      DigitChar(sec / 10), DigitChar(sec % 10), ',',
                      DigitChar(ms / 100), DigitChar(ms / 10 % 10), DigitChar(ms % 10)]
    ensures StampAt(flat + rest) && (flat + rest)[12..] == rest
    ensures StampValue(flat + rest) == h * 3_600_000 + m * 60_000 + sec * 1000 + ms
  {
    TwoValues(h);
    TwoValues(m);
    TwoValues(sec);
    ThreeValues(ms);
    StampThen(flat, rest);
  }

  lemma FieldsBack(h: nat, m: nat, sec: nat, ms: nat)
    requires m < 60 && sec < 60 && ms < 1000
    ensures var t := h * 3_600_000 + m * 60_000 + sec * 1000 + ms;
            t / 3_600_000 == h && t / 60_000 % 60 == m && t / 1000 % 60 == sec && t % 1000 == ms
  {
    var seconds := h * 3600 + m * 60 + sec;
    var minutes := h * 60 + m;
    var t := seconds * 1000 + ms;
    assert t / 1000 == seconds && t % 1000 == ms;
    assert t == minutes * 60_000 + (sec * 1000 + ms) && t / 60_000 == minutes;
    assert seconds == minutes * 60 + sec && seconds % 60 == sec;
    assert minutes % 60 == m;
  }

  /** The text of a time: two digits each for hours, minutes and seconds, three for milliseconds. */
  lemma StampLayout(h: nat, m: nat, sec: nat, ms: nat)
    requires h < 100 && m < 60 && sec < 60 && ms < 1000
    ensures Timestamp(h * 3_600_000 + m * 60_000 + sec * 1000 + ms)
            == [DigitChar(h / 10), DigitChar(h % 10), ':', DigitChar(m / 10), DigitChar(m % 10), ':',
                DigitChar(sec / 10), DigitChar(sec % 10), ',',
                DigitChar(ms / 100), DigitChar(ms / 10 % 10), DigitChar(ms % 10)]
  {
    FieldsBack(h, m, sec, ms);
    TwoDigits(h);
    TwoDigits(m);
    TwoDigits(sec);
    ThreeDigits(ms);
    StampFlat(Pad2(h), Pad2(m), Pad2(sec), Pad3(ms));
  }

  lemma ReadStamp(ms: int, rest: string)
    requires Clipped(ms) < HUNDRED_HOURS
    ensures var s := Timestamp(ms) + rest;
            |Timestamp(ms)| == 12 && StampAt(s) && StampValue(s) == Clipped(ms) && s[12..] == rest
  {
    var t := Clipped(ms);
    Fields(t);
    ReadFields(t / 3_600_000, t / 60_000 % 60, t / 1000 % 60, t % 1000, rest);
  }

  lemma Fields(t: nat)
    ensures t == t / 3_600_000 * 3_600_000 + t / 60_000 % 60 * 60_000 + t / 1000 % 60 * 1000 + t % 1000
  {
    var seconds, minutes := t / 1000, t / 60_000;
    assert t == seconds * 1000 + t % 1000;
    assert minutes == seconds / 60;
    assert seconds == minutes * 60 + seconds % 60;
    assert t / 3_600_000 == minutes / 60;
    assert minutes == minutes / 60 * 60 + minutes % 60;
  }

  lemma {:induction false} ReadBody(body: string, rest: string)
    requires body == "" || !IsSpace(body[|body| - 1])
    requires forall e :: 0 <= e < |body| && body[e] == '\n' ==> !IsSpace(body[e + 1])
    requires rest == "\n" || (|rest| >= 2 && rest[0] == rest[1] == '\n')
    ensures BodyOf(body + rest) == if rest == "\n" then (body + "\n", "") else (body, rest)
  {
    if body == "" {
      assert body + rest == rest;
      if rest == "\n" {
        assert rest[1..] == "" && BodyOf("") == ("", "");
        assert ['\n'] + "" == body + "\n";
      } else {
        assert AfterLastNewline(rest[1..]).Some?;
      }
    } else {
      var s := body + rest;
      assert s[1..] == body[1..] + rest;
      if body[0] == '\n' {
        assert s[1] == body[1] && AfterLastNewline(s[1..]).None?;
      }
      ReadBody(body[1..], rest);
      assert s[0] == body[0] && [body[0]] + body[1..] == body;
      assert [body[0]] + (body[1..] + "\n") == body + "\n";
    }
  }

  lemma StripSet(body: string)
    requires Set(body)
    ensures StripNewlines(body) == body && StripNewlines(body + "\n") == body
  {
    assert (body + "\n")[..|body|] == body;
  }

  /** One printed block reads back as its cue; `rest` is the end of the text or the next block. */
  lemma ReadBlock(n: nat, cue: Cue, rest: string)
    requires Readable(cue) && (rest == "" || rest[0] == '\n')
    ensures BlockAt(Block(n, cue, rest)) == Some((Shown(cue), if rest == "" then "" else "\n" + rest))
  {
    var line := cue.body + ("\n" + rest);
    var first := Line(cue, "\n" + line);
    var arrow, second := ReadLine(cue, "\n" + line);
    ReadNumber(n, first);
    ReadTail(cue.body, rest);
    Parts(Digits(n) + ("\n" + first), first, arrow, second, line);
  }

  /** What each part of the pattern matches decides the match. */
  lemma Parts(s: string, first: string, arrow: string, second: string, line: string)
    requires s != "" && IsDigit(s[0]) && AfterLastNewline(DropDigits(s)) == Some(first)
    requires StampAt(first) && arrow == DropSpaces(first[12..]) && "-->" <= arrow
    requires second == DropSpaces(arrow[3..]) && StampAt(second) && AfterLastNewline(second[12..]) == Some(line)
    ensures BlockAt(s)
            == Some((Cue(StampValue(first), StampValue(second), StripNewlines(BodyOf(line).0)), BodyOf(line).1))
  {
  }

  lemma ReadNumber(n: nat, first: string)
    requires first != "" && !IsSpace(first[0])
    ensures var s := Digits(n) + ("\n" + first);
            s != "" && IsDigit(s[0]) && AfterLastNewline(DropDigits(s)) == Some(first)
  {
    DigitsAreDigits(n);
    var s := Digits(n) + ("\n" + first);
    assert s[0] == Digits(n)[0] && Digits(n)[0] in Digits(n);
    ReadDigits(Digits(n), "\n" + first);
    NewlineThen(first);
  }

  lemma ReadTail(body: string, rest: string)
    requires Set(body) && (rest == "" || rest[0] == '\n')
    ensures var line := body + ("\n" + rest);
            && AfterLastNewline("\n" + line) == Some(line)
            && StripNewlines(BodyOf(line).0) == body
            && BodyOf(line).1 == if rest == "" then "" else "\n" + rest
  {
    NewlineThen(body + ("\n" + rest));
    ReadBody(body, "\n" + rest);
    StripSet(body);
  }

  /** The line of two times. */
  lemma ReadLine(cue: Cue, rest: string) returns (arrow: string, second: string)
    requires Clipped(cue.start) < HUNDRED_HOURS && Clipped(cue.end) < HUNDRED_HOURS
    ensures var s := Line(cue, rest);
            && s != "" && !IsSpace(s[0])
            && StampAt(s) && StampValue(s) == Clipped(cue.start) && arrow == DropSpaces(s[12..])
    ensures "-->" <= arrow && second == DropSpaces(arrow[3..])
    ensures StampAt(second) && StampValue(second) == Clipped(cue.end) && second[12..] == rest
  {
    second := Timestamp(cue.end) + rest;
    arrow := DropSpaces(" --> " + second);
    ReadStamp(cue.end, rest);
    StampIsNoSpace(second);
    ReadArrow(second);
    ReadStamp(cue.start, " --> " + second);
    StampIsNoSpace(Line(cue, rest));
  }

  lemma StampIsNoSpace(s: string)
    requires StampAt(s)
    ensures s != "" && !IsSpace(s[0])
  {
  }

  lemma NewlineThen(s: string)
    requires s != "" && !IsSpace(s[0])
    ensures AfterLastNewline("\n" + s) == Some(s)
  {
    assert ("\n" + s)[1..] == s;
  }

  lemma ReadArrow(second: string)
    requires second != "" && !IsSpace(second[0])
    ensures var arrow := DropSpaces(" --> " + second);
            "-->" <= arrow && DropSpaces(arrow[3..]) == second
  {
    var s := " --> " + second;
    assert s[1..] == "--> " + second;
    assert (s[1..])[3..] == " " + second;
    assert (" " + second)[1..] == second;
  }

  function ShownAll(cues: seq<Cue>): seq<Cue> { seq(|cues|, k requires 0 <= k < |cues| => Shown(cues[k])) }

  lemma SkipNewline(s: string)
    ensures FindAll("\n" + s) == FindAll(s)
  {
    assert ("\n" + s)[1..] == s;
  }

  lemma FindBlock(n: nat, cue: Cue, rest: string)
    requires Readable(cue) && (rest == "" || rest[0] == '\n')
    ensures FindAll(Block(n, cue, rest)) == [Shown(cue)] + FindAll(rest)
  {
    ReadBlock(n, cue, rest);
    if rest != "" {
      SkipNewline(rest);
    }
  }

  /** Reading a printed text gives back its cues, all of them, in order. */
  lemma {:induction false} ReadText(cues: seq<Cue>, n: nat)
    requires forall c :: c in cues ==> Readable(c)
    ensures FindAll(Text(cues, n)) == ShownAll(cues)
    decreases |cues|
  {
    if cues != [] {
      assert cues[0] in cues;
      assert ShownAll(cues) == [Shown(cues[0])] + ShownAll(cues[1..]);
      if |cues| == 1 {
        FindBlock(n, cues[0], "");
      } else {
        assert forall c :: c in cues[1..] ==> c in cues;
        var more := Text(cues[1..], n + 1);
        FindBlock(n, cues[0], "\n" + more);
        SkipNewline(more);
        ReadText(cues[1..], n + 1);
      }
    }
  }

  // ---- the loop that prints ----

  /** Items printed with consecutive numbers. */
  function Numbered<T>(show: (nat, T) -> string, items: seq<T>, n: nat): seq<string> {
    if items == [] then [] else [show(n, items[0])] + Numbered(show, items[1..], n + 1)
  }

  function JoinLines(blocks: seq<string>): string {
    if blocks == [] then "" else if |blocks| == 1 then blocks[0] else blocks[0] + ("\n" + JoinLines(blocks[1..]))
  }

  lemma {:induction false} NumberedGrows<T>(show: (nat, T) -> string, items: seq<T>, item: T, n: nat)
    ensures Numbered(show, items + [item], n) == Numbered(show, items, n) + [show(n + |items|, item)]
    decreases |items|
  {
    if items == [] {
      assert ([item])[1..] == [];
    } else {
      assert (items + [item])[1..] == items[1..] + [item];
      NumberedGrows(show, items[1..], item, n + 1);
    }
  }

  method PrintNumbered<T>(show: (nat, T) -> string, groups: seq<seq<T>>) returns (blocks: seq<string>)
    ensures blocks == Numbered(show, Flat(groups), 1)
  {
    blocks := [];
    var n := 0;
    ghost var done: seq<T> := [];
    for i := 0 to |groups|
      invariant done == Flat(groups[..i]) && n == |done| && blocks == Numbered(show, done, 1)
    {
      var group := groups[i];
      ghost var before := done;
      for k := 0 to |group|
        invariant done == before + group[..k] && n == |done| && blocks == Numbered(show, done, 1)
      {
        n := n + 1;
        NumberedGrows(show, done, group[k], 1);
        blocks := blocks + [show(n, group[k])];
        done := done + [group[k]];
      }
      FlatGrows(groups, i);
    }
    assert groups[..|groups|] == groups;
  }

  lemma FlatGrows<T>(groups: seq<seq<T>>, i: nat)
    requires i < |groups|
    ensures Flat(groups[..i + 1]) == Flat(groups[..i]) + groups[i]
    ensures groups[i][..|groups[i]|] == groups[i]
  {
    assert groups[..i + 1] == groups[..i] + [groups[i]];
    assert Flat([groups[i]]) == groups[i] by { assert [groups[i]][1..] == []; }
    FlatConcat(groups[..i], [groups[i]]);
  }

  lemma LineThen(start: string, end: string, a: string, rest: string)
    ensures (start + (" --> " + (end + a))) + rest == start + (" --> " + (end + (a + rest)))
  {
    Assoc(start, " --> " + (end + a), rest);
    Assoc(" --> ", end + a, rest);
    Assoc(end, a, rest);
  }

  lemma BodyThen(body: string, rest: string)
    ensures ("\n" + (body + ("\n" + ""))) + rest == "\n" + (body + ("\n" + rest))
  {
    Assoc("\n", body + ("\n" + ""), rest);
    Assoc(body, "\n" + "", rest);
    assert ("\n" + "") + rest == "\n" + rest;
  }

  lemma NumberThen(d: string, line: string, rest: string)
    ensures (d + ("\n" + line)) + rest == d + ("\n" + (line + rest))
  {
    Assoc(d, "\n" + line, rest);
    Assoc("\n", line, rest);
  }

  lemma BlockThen(n: nat, cue: Cue, rest: string)
    ensures Block(n, cue, "") + rest == Block(n, cue, rest)
  {
    var a := "\n" + (cue.body + ("\n" + ""));
    BodyThen(cue.body, rest);
    LineThen(Timestamp(cue.start), Timestamp(cue.end), a, rest);
    NumberThen(Digits(n), Line(cue, a), rest);
  }

  function PrintCue(): (nat, Cue) -> string { (n: nat, cue: Cue) => Block(n, cue, "") }

  lemma {:induction false} JoinedText(cues: seq<Cue>, n: nat)
    ensures JoinLines(Numbered(PrintCue(), cues, n)) == Text(cues, n)
    decreases |cues|
  {
    if cues != [] {
      var blocks := Numbered(PrintCue(), cues, n);
      assert blocks[1..] == Numbered(PrintCue(), cues[1..], n + 1);
      JoinedText(cues[1..], n + 1);
      if |cues| > 1 {
        BlockThen(n, cues[0], "\n" + Text(cues[1..], n + 1));
      }
    }
  }

  lemma BlockBegins(n: nat, cue: Cue, rest: string)
    ensures Digits(n) + "\n" <= Block(n, cue, rest)
  {
    Assoc(Digits(n), "\n", Line(cue, "\n" + (cue.body + ("\n" + rest))));
  }

  /** The blocks of a printed text are as many as its cues, and the `k`-th begins with a line that holds
      just its number, counted from `n`. */
  lemma BlockNumbers(cues: seq<Cue>, n: nat, k: nat)
    requires k < |cues|
    ensures var blocks, d := Numbered(PrintCue(), cues, n), Digits(n + k);
            |blocks| == |cues| && blocks[k] == Block(n + k, cues[k], "") && d + "\n" <= blocks[k] && Names(d, n + k)
  {
    DigitsName(n + k);
    NumberedAre(PrintCue(), cues, n, k);
    BlockBegins(n + k, cues[k], "");
  }

  lemma {:induction false} NumberedAre<T>(show: (nat, T) -> string, items: seq<T>, n: nat, k: nat)
    requires k < |items|
    ensures var blocks := Numbered(show, items, n); |blocks| == |items| && blocks[k] == show(n + k, items[k])
    decreases |items|
  {
    if |items| > 1 {
      NumberedAre(show, items[1..], n + 1, if k > 0 then k - 1 else 0);
    }
  }

  /** Cues already set, printed: the text, read back, is the cues. */
  method PrintSrt(scenes: seq<seq<Cue>>) returns (text: string)
    ensures text == Text(Flat(scenes), 1) == JoinLines(Numbered(PrintCue(), Flat(scenes), 1))
    ensures (forall c :: c in Flat(scenes) ==> Readable(c)) ==> FindAll(text) == ShownAll(Flat(scenes))
  {
    var blocks := PrintNumbered(PrintCue(), scenes);
    JoinedText(Flat(scenes), 1);
    if forall c :: c in Flat(scenes) ==> Readable(c) {
      ReadText(Flat(scenes), 1);
    }
    text := JoinLines(blocks);
  }

  // ---- what wrap_cue makes is readable ----

  /** One line of a cue: no space at either end, and no space but blanks inside. */
  predicate CueLine(s: string) {
    && s != "" && !IsSpace(s[0]) && !IsSpace(s[|s| - 1])
    && forall k :: 0 <= k < |s| && IsSpace(s[k]) ==> s[k] == ' '
  }

  lemma {:induction false} JoinIsLine(ws: seq<string>)
    requires AllWords(ws) && ws != []
    ensures CueLine(Join(ws))
  {
    var w := ws[0];
    assert IsWord(w);
    assert forall k :: 0 <= k < |w| ==> w[k] in w;
    if |ws| > 1 {
      assert forall x :: x in ws[1..] ==> x in ws;
      JoinIsLine(ws[1..]);
      var rest := Join(ws[1..]);
      assert Join(ws) == w + " " + rest;
      assert Join(ws)[|Join(ws)| - 1] == rest[|rest| - 1];
    }
  }

  lemma LinesAreSet(a: string, b: string)
    requires CueLine(a) && CueLine(b)
    ensures Set(a) && Set(a + "\n" + b)
  {
    var s := a + "\n" + b;
    assert s[|s| - 1] == b[|b| - 1] && s[0] == a[0];
    assert forall e :: 0 <= e < |a| ==> s[e] == a[e];
    assert forall e :: |a| < e < |s| ==> s[e] == b[e - |a| - 1];
    assert s[|a| + 1] == b[0];
  }

  /** A cue set by `wrap_cue`, on one line or two, reads back. */
  lemma WrappedCueIsSet(ws: seq<string>, i: nat)
    requires AllWords(ws) && 0 < i <= |ws|
    ensures Set(Join(ws))
    ensures i < |ws| ==> Set(Join(ws[..i]) + "\n" + Join(ws[i..]))
  {
    JoinIsLine(ws);
    LinesAreSet(Join(ws), Join(ws));
    if i < |ws| {
      var a, b := ws[..i], ws[i..];
      assert AllWords(a) by { assert forall w :: w in a ==> w in ws; }
      assert AllWords(b) by { assert forall w :: w in b ==> w in ws; }
      JoinIsLine(a);
      JoinIsLine(b);
      LinesAreSet(Join(a), Join(b));
    }
  }
}
