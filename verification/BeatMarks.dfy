/** `[beat]` and `[beat 1.2]` in narration (video/narrate.py): what the pattern matches, and where. */
module BeatMarks {
  import opened Options
  import opened Reals
  import opened Words

  // ---- the pattern, as it is written ----

  predicate IsBlank(s: string) { forall c :: c in s ==> IsSpace(c) }

  predicate IsNumeral(s: string) { s != "" && forall c :: c in s ==> IsDigit(c) }

  predicate BeatWord(w: string) {
    && |w| == 4 && (w[0] == 'b' || w[0] == 'B') && (w[1] == 'e' || w[1] == 'E')
    && (w[2] == 'a' || w[2] == 'A') && (w[3] == 't' || w[3] == 'T')
  }

  /** Letters that match `s` when case is ignored. */
  predicate IsEss(c: char) { c == 's' || c == 'S' || c == '\U{17F}' }

  datatype Timing = Timing(gap: string, whole: string, fraction: Option<string>, pause: string, ess: string)

  datatype Mark = Mark(lead: string, word: string, timing: Option<Timing>, end: string)

  predicate TimingOk(t: Timing) {
    && t.gap != "" && IsBlank(t.gap) && IsNumeral(t.whole) && (t.fraction.Some? ==> IsNumeral(t.fraction.value))
    && IsBlank(t.pause) && (t.ess == "" || (|t.ess| == 1 && IsEss(t.ess[0])))
  }

  predicate MarkOk(m: Mark) {
    IsBlank(m.lead) && BeatWord(m.word) && (m.timing.Some? ==> TimingOk(m.timing.value)) && IsBlank(m.end)
  }

  function NumberText(whole: string, fraction: Option<string>, rest: string): string {
    whole + (if fraction.Some? then "." + (fraction.value + rest) else rest)
  }

  function TimingText(t: Timing, rest: string): string {
    t.gap + NumberText(t.whole, t.fraction, t.pause + (t.ess + rest))
  }

  function EndText(end: string, rest: string): string { end + ("]" + rest) }

  function MarkText(m: Mark, rest: string): string {
    "[" + (m.lead + (m.word + (if m.timing.Some? then TimingText(m.timing.value, EndText(m.end, rest))
                               else EndText(m.end, rest))))
  }

  /** What digits after the point are worth. */
  function Fraction(ds: string): real {
    if ds == "" then 0.0 else (Value(ds[0]) as real + Fraction(ds[1..])) / 10.0
  }

  function TenTo(n: nat): real { if n == 0 then 1.0 else 10.0 * TenTo(n - 1) }

  lemma TimesTen(v: real, t: real)
    ensures Times(v, 10.0 * t) == 10.0 * Times(v, t)
  {
    assert v * (10.0 * t) == 10.0 * (v * t);
  }

  lemma {:induction false} WholeFirst(ds: string)
    requires ds != ""
    ensures Whole(ds) as real == Times(Value(ds[0]) as real, TenTo(|ds| - 1)) + Whole(ds[1..]) as real
  {
    var n, v := |ds| - 1, Value(ds[0]) as real;
    if n == 0 {
      assert ds[..0] == "" && ds[1..] == "" && Times(v, 1.0) == v;
    } else {
      WholeFirst(ds[..n]);
      assert ds[..n][1..] == ds[1..][..n - 1];
      TimesTen(v, TenTo(n - 1));
    }
  }

  lemma Tenth(x: real, v: real, t: real)
    ensures Times((v + x) / 10.0, 10.0 * t) == Times(v, t) + Times(x, t)
  {
    var y := (v + x) / 10.0;
    assert y * (10.0 * t) == (y * 10.0) * t;
    assert (v + x) * t == v * t + x * t;
  }

  /** Digits after the point are worth what they are before it, divided by ten for each. */
  lemma {:induction false} FractionIsWhole(ds: string)
    ensures Times(Fraction(ds), TenTo(|ds|)) == Whole(ds) as real
  {
    if ds == "" {
      assert Times(0.0, 1.0) == 0.0;
    } else {
      FractionIsWhole(ds[1..]);
      WholeFirst(ds);
      Tenth(Fraction(ds[1..]), Value(ds[0]) as real, TenTo(|ds| - 1));
    }
  }

  function Seconds(whole: string, fraction: Option<string>): real {
    Whole(whole) as real + (if fraction.Some? then Fraction(fraction.value) else 0.0)
  }

  /** The time a mark names. */
  function Named(m: Mark): Option<real> {
    if m.timing.Some? then Some(Seconds(m.timing.value.whole, m.timing.value.fraction)) else None
  }

  // ---- the pattern, read from left to right ----

  function ReadNumber(s: string): (r: Option<(real, string)>)
    ensures r.Some? ==> |r.value.1| < |s|
  {
    var a := DropDigits(s);
    if |a| == |s| then None
    else if a != "" && a[0] == '.' then
      var b := DropDigits(a[1..]);
      if |b| == |a| - 1 then None
      else Some((Seconds(s[..|s| - |a|], Some(a[1..|a| - |b|])), b))
    else Some((Seconds(s[..|s| - |a|], None), a))
  }

  function DropEss(s: string): (r: string)
    ensures |r| <= |s|
  {
    if s != "" && IsEss(s[0]) then s[1..] else s
  }

  /** The closing bracket, after spaces. */
  function ReadEnd(s: string): (r: Option<string>)
    ensures r.Some? ==> |r.value| < |s|
  {
    var a := DropSpaces(s);
    if a != "" && a[0] == ']' then Some(a[1..]) else None
  }

  function ReadTiming(s: string): (r: Option<(Option<real>, string)>)
    ensures r.Some? ==> |r.value.1| < |s|
  {
    var number := ReadNumber(DropSpaces(s));
    if number.None? || DropSpaces(s) == s then None
    else
      var end := ReadEnd(DropEss(DropSpaces(number.value.1)));
      if end.None? then None else Some((Some(number.value.0), end.value))
  }

  /** A mark at the start of `s`: the time it names, and what follows it. */
  function ReadMark(s: string): (r: Option<(Option<real>, string)>)
    ensures r.Some? ==> |r.value.1| < |s|
  {
    if s == "" || s[0] != '[' then None
    else
      var a := DropSpaces(s[1..]);
      if |a| < 4 || !BeatWord(a[..4]) then None
      else
        var bare := ReadEnd(a[4..]);
        if bare.Some? then Some((None, bare.value)) else ReadTiming(a[4..])
  }

  // ---- the reader matches what the pattern matches ----

  lemma {:induction false} BlankDropped(p: string, rest: string)
    requires IsBlank(p) && (rest == "" || !IsSpace(rest[0]))
    ensures DropSpaces(p + rest) == rest
  {
    if p == "" {
      assert p + rest == rest;
    } else {
      assert p[0] in p && (p + rest)[1..] == p[1..] + rest;
      BlankDropped(p[1..], rest);
    }
  }

  lemma {:induction false} DigitsDropped(ds: string, rest: string)
    requires (forall c :: c in ds ==> IsDigit(c)) && (rest == "" || !IsDigit(rest[0]))
    ensures DropDigits(ds + rest) == rest
  {
    if ds == "" {
      assert ds + rest == rest;
    } else {
      assert ds[0] in ds && (ds + rest)[1..] == ds[1..] + rest;
      DigitsDropped(ds[1..], rest);
    }
  }

  lemma {:induction false} BlankBefore(s: string) returns (p: string)
    ensures s == p + DropSpaces(s) && IsBlank(p)
  {
    if s != "" && IsSpace(s[0]) {
      p := BlankBefore(s[1..]);
      p := [s[0]] + p;
    } else {
      p := "";
    }
  }

  lemma {:induction false} DigitsBefore(s: string) returns (ds: string)
    ensures s == ds + DropDigits(s) && forall c :: c in ds ==> IsDigit(c)
  {
    if s != "" && IsDigit(s[0]) {
      ds := DigitsBefore(s[1..]);
      ds := [s[0]] + ds;
    } else {
      ds := "";
    }
  }

  lemma EndReads(end: string, rest: string)
    requires IsBlank(end)
    ensures ReadEnd(EndText(end, rest)) == Some(rest)
  {
    BlankDropped(end, "]" + rest);
    assert ("]" + rest)[1..] == rest;
  }

  lemma EndRead(s: string) returns (end: string)
    requires ReadEnd(s).Some?
    ensures IsBlank(end) && s == EndText(end, ReadEnd(s).value)
  {
    end := BlankBefore(s);
    var a := DropSpaces(s);
    assert a == "]" + a[1..];
  }

  lemma NumberReads(whole: string, fraction: Option<string>, rest: string)
    requires IsNumeral(whole) && (fraction.Some? ==> IsNumeral(fraction.value))
    requires rest != "" && !IsDigit(rest[0]) && rest[0] != '.'
    ensures ReadNumber(NumberText(whole, fraction, rest)) == Some((Seconds(whole, fraction), rest))
  {
    var s := NumberText(whole, fraction, rest);
    var after := s[|whole|..];
    assert s == whole + after && s[..|whole|] == whole;
    DigitsDropped(whole, after);
    if fraction.Some? {
      assert after[1..] == fraction.value + rest;
      DigitsDropped(fraction.value, rest);
      assert after[1..|after| - |rest|] == fraction.value;
    }
  }

  lemma NumberRead(s: string) returns (whole: string, fraction: Option<string>)
    requires ReadNumber(s).Some?
    ensures IsNumeral(whole) && (fraction.Some? ==> IsNumeral(fraction.value))
    ensures s == NumberText(whole, fraction, ReadNumber(s).value.1)
    ensures ReadNumber(s).value.0 == Seconds(whole, fraction)
  {
    var a := DropDigits(s);
    whole := DigitsBefore(s);
    assert s[..|s| - |a|] == whole;
    if a != "" && a[0] == '.' {
      var digits := DigitsBefore(a[1..]);
      var b := DropDigits(a[1..]);
      assert a[1..|a| - |b|] == digits by { assert a[1..][..|digits|] == digits; }
      fraction := Some(digits);
      assert a == "." + (digits + b);
    } else {
      fraction := None;
    }
  }

  lemma EssDropped(ess: string, end: string, rest: string)
    requires ess == "" || (|ess| == 1 && IsEss(ess[0]))
    requires rest != "" && !IsEss(rest[0]) && IsBlank(end)
    ensures DropEss(ess + (end + rest)) == end + rest
  {
    var tail := end + rest;
    assert end != "" ==> end[0] in end;
    assert ess == "" ==> ess + tail == tail;
    assert ess != "" ==> (ess + tail)[1..] == tail;
  }

  lemma BlankJoined(a: string, b: string)
    requires IsBlank(a) && IsBlank(b)
    ensures IsBlank(a + b)
  {
  }

  lemma EndIsNoEss(end: string, rest: string)
    requires IsBlank(end)
    ensures ReadEnd(DropEss(DropSpaces(EndText(end, rest)))) == ReadEnd(EndText(end, rest))
  {
    BlankDropped(end, "]" + rest);
    BlankDropped("", "]" + rest);
    assert "" + ("]" + rest) == "]" + rest;
  }

  lemma EndPlain(pause: string, end: string, rest: string)
    requires IsBlank(pause) && IsBlank(end)
    ensures ReadEnd(DropEss(DropSpaces(pause + EndText(end, rest)))) == Some(rest)
  {
    BlankJoined(pause, end);
    Assoc(pause, end, "]" + rest);
    EndReads(pause + end, rest);
    EndIsNoEss(pause + end, rest);
  }

  lemma EndWithoutPause(ess: string, pause: string, end: string, rest: string)
    requires ess == "" || (|ess| == 1 && IsEss(ess[0]))
    requires IsBlank(pause) && IsBlank(end)
    ensures ReadEnd(DropEss(DropSpaces(pause + (ess + EndText(end, rest))))) == Some(rest)
  {
    var tail := ess + EndText(end, rest);
    if ess == "" {
      assert tail == EndText(end, rest);
      EndPlain(pause, end, rest);
    } else {
      BlankDropped(pause, tail);
      EssDropped(ess, end, "]" + rest);
      EndReads(end, rest);
    }
  }

  /** What may follow a number in a mark. */
  lemma AfterNumber(t: Timing, end: string, rest: string)
    requires TimingOk(t) && IsBlank(end)
    ensures var s := t.pause + (t.ess + EndText(end, rest));
            && s != "" && !IsDigit(s[0]) && s[0] != '.'
            && ReadEnd(DropEss(DropSpaces(s))) == Some(rest)
  {
    EndWithoutPause(t.ess, t.pause, end, rest);
    var s := t.pause + (t.ess + EndText(end, rest));
    if t.pause != "" {
      assert s[0] == t.pause[0] && t.pause[0] in t.pause;
    } else if t.ess != "" {
      assert s[0] == t.ess[0];
    } else if end != "" {
      assert s[0] == end[0] && end[0] in end;
    } else {
      assert s[0] == ']';
    }
  }

  lemma TimingReads(t: Timing, end: string, rest: string)
    requires TimingOk(t) && IsBlank(end)
    ensures var s := TimingText(t, EndText(end, rest));
            ReadEnd(s).None? && ReadTiming(s) == Some((Some(Seconds(t.whole, t.fraction)), rest))
  {
    var after := t.pause + (t.ess + EndText(end, rest));
    AfterNumber(t, end, rest);
    NumberReads(t.whole, t.fraction, after);
    var number := NumberText(t.whole, t.fraction, after);
    assert t.whole[0] in t.whole && number[0] == t.whole[0];
    BlankDropped(t.gap, number);
    assert |t.gap + number| > |number|;
  }

  lemma TimingRead(s: string) returns (t: Timing, end: string)
    requires ReadTiming(s).Some?
    ensures TimingOk(t) && IsBlank(end) && s == TimingText(t, EndText(end, ReadTiming(s).value.1))
    ensures ReadTiming(s).value.0 == Some(Seconds(t.whole, t.fraction))
  {
    var gap := BlankBefore(s);
    var number := ReadNumber(DropSpaces(s));
    var whole, fraction := NumberRead(DropSpaces(s));
    var pause := BlankBefore(number.value.1);
    var b := DropSpaces(number.value.1);
    var ess := b[..|b| - |DropEss(b)|];
    assert b == ess + DropEss(b);
    end := EndRead(DropEss(b));
    t := Timing(gap, whole, fraction, pause, ess);
  }

  /** Every text of the pattern is read as the mark it is, whatever follows it. */
  lemma MarkReads(m: Mark, rest: string)
    requires MarkOk(m)
    ensures ReadMark(MarkText(m, rest)) == Some((Named(m), rest))
  {
    var tail := if m.timing.Some? then TimingText(m.timing.value, EndText(m.end, rest)) else EndText(m.end, rest);
    var s := MarkText(m, rest);
    assert s[1..] == m.lead + (m.word + tail);
    BlankDropped(m.lead, m.word + tail);
    assert (m.word + tail)[..4] == m.word && (m.word + tail)[4..] == tail;
    if m.timing.Some? {
      TimingReads(m.timing.value, m.end, rest);
    } else {
      EndReads(m.end, rest);
    }
  }

  /** And nothing else is read: what is found has the pattern's form and names its time. */
  lemma MarkRead(s: string) returns (m: Mark)
    requires ReadMark(s).Some?
    ensures MarkOk(m) && s == MarkText(m, ReadMark(s).value.1) && ReadMark(s).value.0 == Named(m)
  {
    var lead := BlankBefore(s[1..]);
    var a := DropSpaces(s[1..]);
    assert a == a[..4] + a[4..] && s == "[" + s[1..];
    if ReadEnd(a[4..]).Some? {
      var end := EndRead(a[4..]);
      m := Mark(lead, a[..4], None, end);
    } else {
      var t, end := TimingRead(a[4..]);
      m := Mark(lead, a[..4], Some(t), end);
    }
  }

  // ---- where it matches ----

  /** Narration cut at its marks: the stretches of text, and the time each mark between them names. */
  datatype Script = Script(texts: seq<string>, times: seq<Option<real>>)

  function Before(text: string, c: Script): (r: Script)
    requires c.texts != []
    ensures r.texts != [] && |r.texts| == |c.texts| && r.times == c.times
  {
    Script([text + c.texts[0]] + c.texts[1..], c.times)
  }

  /** The cut that looks for a mark at every place in turn, and goes on behind it. */
  function Cut(s: string): (c: Script)
    ensures |c.texts| == |c.times| + 1
    decreases |s|
  {
    if s == "" then Script([""], [])
    else
      var mark := ReadMark(s);
      if mark.None? then Before([s[0]], Cut(s[1..]))
      else
        var rest := Cut(mark.value.1);
        Script([""] + rest.texts, [mark.value.0] + rest.times)
  }

  ghost predicate NoMarkBefore(s: string, n: nat)
    requires n <= |s|
  {
    forall k :: 0 <= k < n ==> ReadMark(s[k..]).None?
  }

  /** Text at the start of `s` in which no mark begins. */
  ghost predicate Clear(s: string, text: string) { text <= s && NoMarkBefore(s, |text|) }

  /** `finditer`: every mark is the first in what is left of the text, and none is passed over. */
  ghost predicate CutsUp(s: string, c: Script)
    decreases |s|
  {
    && |c.texts| == |c.times| + 1 && Clear(s, c.texts[0])
    && var mark := ReadMark(s[|c.texts[0]|..]);
       if c.times == [] then s == c.texts[0]
       else mark.Some? && mark.value.0 == c.times[0] && CutsUp(mark.value.1, Script(c.texts[1..], c.times[1..]))
  }

  lemma ClearLonger(s: string, text: string)
    requires s != "" && ReadMark(s).None? && Clear(s[1..], text)
    ensures Clear(s, [s[0]] + text) && s[|text| + 1..] == s[1..][|text|..]
  {
    assert s == [s[0]] + s[1..];
    forall k | 0 <= k < |text| + 1 ensures ReadMark(s[k..]).None? {
      if k > 0 {
        assert s[k..] == s[1..][k - 1..];
      } else {
        assert s[0..] == s;
      }
    }
  }

  lemma CutsUpBefore(s: string, c: Script)
    requires s != "" && ReadMark(s).None? && CutsUp(s[1..], c)
    ensures CutsUp(s, Before([s[0]], c))
  {
    ClearLonger(s, c.texts[0]);
    assert Before([s[0]], c).texts[1..] == c.texts[1..];
  }

  /** Where a clear text stops: at a mark or at the end. */
  ghost predicate Stops(s: string, text: string) {
    Clear(s, text) && (text == s || ReadMark(s[|text|..]).Some?)
  }

  lemma StopsOnce(s: string, a: string, b: string)
    requires Stops(s, a) && Stops(s, b) && |a| <= |b|
    ensures a == b
  {
    if |a| == |b| {
      assert a == s[..|a|] == b;
    }
  }

  /** The cut is the one `finditer` makes. */
  lemma {:induction false} CutIsLeftmost(s: string)
    ensures CutsUp(s, Cut(s))
    decreases |s|
  {
    if s != "" {
      var mark := ReadMark(s);
      if mark.None? {
        CutIsLeftmost(s[1..]);
        CutsUpBefore(s, Cut(s[1..]));
      } else {
        CutIsLeftmost(mark.value.1);
        var c, rest := Cut(s), Cut(mark.value.1);
        assert c.texts[1..] == rest.texts && c.times[1..] == rest.times;
        assert s[0..] == s;
      }
    }
  }

  /** There is no other such cut. */
  lemma {:induction false} CutIsOnly(s: string, c: Script)
    requires CutsUp(s, c)
    ensures c == Cut(s)
    decreases |s|
  {
    CutIsLeftmost(s);
    var d := Cut(s);
    var a, b := c.texts[0], d.texts[0];
    if |a| <= |b| {
      StopsOnce(s, a, b);
    } else {
      StopsOnce(s, b, a);
    }
    NothingRead(s);
    if c.times != [] {
      var rest := ReadMark(s[|a|..]).value.1;
      CutIsOnly(rest, Tail(c));
      CutIsOnly(rest, Tail(d));
      TailsEqual(c, d);
    }
  }

  lemma NothingRead(s: string)
    ensures ReadMark(s[|s|..]).None?
  {
  }

  function Tail(c: Script): Script
    requires c.texts != [] && c.times != []
  {
    Script(c.texts[1..], c.times[1..])
  }

  lemma TailsEqual(c: Script, d: Script)
    requires c.texts != [] && c.times != [] && d.texts != [] && d.times != []
    requires c.texts[0] == d.texts[0] && c.times[0] == d.times[0] && Tail(c) == Tail(d)
    ensures c == d
  {
    assert c.texts == [c.texts[0]] + c.texts[1..] && d.texts == [d.texts[0]] + d.texts[1..];
    assert c.times == [c.times[0]] + c.times[1..] && d.times == [d.times[0]] + d.times[1..];
  }

  // ---- taking the marks out ----

  /** `BEAT_RE.sub(" ", text)`. */
  function Unmarked(s: string): string
    decreases |s|
  {
    if s == "" then ""
    else
      var mark := ReadMark(s);
      if mark.None? then [s[0]] + Unmarked(s[1..]) else " " + Unmarked(mark.value.1)
  }

  function SplitAll(texts: seq<string>): (groups: seq<seq<string>>)
    ensures |groups| == |texts| && forall k :: 0 <= k < |texts| ==> groups[k] == Split(texts[k])
  {
    seq(|texts|, k requires 0 <= k < |texts| => Split(texts[k]))
  }

  /** The words of the stretches in turn. */
  function WordsOf(texts: seq<string>): seq<string> { Flat(SplitAll(texts)) }

  lemma WordsOfFirst(text: string, more: seq<string>)
    ensures WordsOf([text] + more) == Split(text) + WordsOf(more)
  {
    var all := SplitAll([text] + more);
    assert all[1..] == SplitAll(more) && all[0] == Split(text);
  }

  lemma WordsOfLast(texts: seq<string>, text: string)
    ensures WordsOf(texts + [text]) == WordsOf(texts) + Split(text)
  {
    assert SplitAll(texts + [text]) == SplitAll(texts) + [Split(text)];
    FlatConcat(SplitAll(texts), [Split(text)]);
    FlatOne(Split(text));
  }

  function Spaced(texts: seq<string>): string
    requires texts != []
  {
    if |texts| == 1 then texts[0] else texts[0] + " " + Spaced(texts[1..])
  }

  lemma {:induction false} UnmarkedIsSpaced(s: string)
    ensures Unmarked(s) == Spaced(Cut(s).texts)
    decreases |s|
  {
    if s != "" {
      var mark := ReadMark(s);
      if mark.None? {
        UnmarkedIsSpaced(s[1..]);
        var c := Cut(s[1..]);
        assert Cut(s).texts[1..] == c.texts[1..];
        assert |c.texts| > 1 ==>
          ([s[0]] + c.texts[0]) + " " + Spaced(c.texts[1..]) == [s[0]] + (c.texts[0] + " " + Spaced(c.texts[1..]));
      } else {
        UnmarkedIsSpaced(mark.value.1);
        assert Cut(s).texts[1..] == Cut(mark.value.1).texts;
      }
    }
  }

  lemma {:induction false} SpacedWords(texts: seq<string>)
    requires texts != []
    ensures Split(Spaced(texts)) == WordsOf(texts)
  {
    assert texts == [texts[0]] + texts[1..];
    WordsOfFirst(texts[0], texts[1..]);
    if |texts| > 1 {
      var more := " " + Spaced(texts[1..]);
      assert texts[0] + " " + Spaced(texts[1..]) == texts[0] + more && more[1..] == Spaced(texts[1..]);
      SplitAround(texts[0], more);
      SpacedWords(texts[1..]);
    }
  }

  /** Taking the marks out leaves the words between them, in order: a mark never joins two words. */
  lemma UnmarkedWords(s: string)
    ensures Split(Unmarked(s)) == WordsOf(Cut(s).texts)
  {
    UnmarkedIsSpaced(s);
    SpacedWords(Cut(s).texts);
  }

  // ---- text that holds no mark ----

  /** Anything in brackets, beat or not. */
  ghost predicate HasMark(s: string) { exists i, j :: 0 <= i < j < |s| && s[i] == '[' && s[j] == ']' }

  lemma Later(a: string, b: string, c: char)
    requires c in b
    ensures c in a + b
  {
    var k :| 0 <= k < |b| && b[k] == c;
    assert (a + b)[|a| + k] == c;
  }

  lemma BracketLater(end: string, rest: string, t: Timing)
    ensures ']' in EndText(end, rest) && ']' in TimingText(t, EndText(end, rest))
  {
    var tail := EndText(end, rest);
    Later(end, "]" + rest, ']');
    Later(t.ess, tail, ']');
    Later(t.pause, t.ess + tail, ']');
    var number := t.pause + (t.ess + tail);
    if t.fraction.Some? {
      Later(t.fraction.value, number, ']');
      Later(".", t.fraction.value + number, ']');
      Later(t.whole, "." + (t.fraction.value + number), ']');
    } else {
      Later(t.whole, number, ']');
    }
    Later(t.gap, NumberText(t.whole, t.fraction, number), ']');
  }

  lemma MarkIsBracketed(s: string)
    requires ReadMark(s).Some?
    ensures HasMark(s)
  {
    var m := MarkRead(s);
    var rest := ReadMark(s).value.1;
    BracketLater(m.end, rest, if m.timing.Some? then m.timing.value else Timing("", "", None, "", ""));
    var tail := if m.timing.Some? then TimingText(m.timing.value, EndText(m.end, rest)) else EndText(m.end, rest);
    Later(m.word, tail, ']');
    Later(m.lead, m.word + tail, ']');
    assert s[1..] == m.lead + (m.word + tail);
    var j :| 0 <= j < |s[1..]| && s[1..][j] == ']';
    assert s[0] == '[' && s[j + 1] == ']';
  }

  lemma HasMarkLater(s: string)
    requires s != "" && HasMark(s[1..])
    ensures HasMark(s)
  {
    var i, j :| 0 <= i < j < |s[1..]| && s[1..][i] == '[' && s[1..][j] == ']';
    assert s[i + 1] == '[' && s[j + 1] == ']';
  }

  /** Text without brackets is left as it is. */
  lemma {:induction false} UnmarkedUnchanged(s: string)
    requires !HasMark(s)
    ensures Unmarked(s) == s
  {
    if s != "" {
      if ReadMark(s).Some? {
        MarkIsBracketed(s);
      } else {
        if HasMark(s[1..]) {
          HasMarkLater(s);
        }
        UnmarkedUnchanged(s[1..]);
      }
    }
  }
}
