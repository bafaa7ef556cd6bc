/** Python's `split()` and `" ".join(...)`, and lines made of words. */
module Words {
  predicate IsSpace(c: char) {
    || '\t' <= c <= '\r' || '\U{1C}' <= c <= ' ' || c == '\U{85}' || c == '\U{A0}' || c == '\U{1680}'
    || '\U{2000}' <= c <= '\U{200A}' || c == '\U{2028}' || c == '\U{2029}' || c == '\U{202F}'
    || c == '\U{205F}' || c == '\U{3000}'
  }

  function DropSpaces(s: string): (r: string)
    ensures |r| <= |s| && (r == "" || !IsSpace(r[0]))
  {
    if s != "" && IsSpace(s[0]) then DropSpaces(s[1..]) else s
  }

  predicate IsDigit(c: char) { '0' <= c <= '9' }

  function Value(c: char): int { c as int - '0' as int }

  /** The number a text of digits names. */
  function Whole(ds: string): int {
    if ds == "" then 0 else Whole(ds[..|ds| - 1]) * 10 + Value(ds[|ds| - 1])
  }

  function DropDigits(s: string): (r: string)
    ensures |r| <= |s|
  {
    if s != "" && IsDigit(s[0]) then DropDigits(s[1..]) else s
  }

  predicate IsWord(s: string) { s != "" && forall c :: c in s ==> !IsSpace(c) }

  ghost predicate AllWords(ws: seq<string>) { forall w :: w in ws ==> IsWord(w) }

  /** Where the first run of non-space characters ends. */
  function WordEnd(s: string): (n: nat)
    ensures n <= |s| && (forall k :: 0 <= k < n ==> !IsSpace(s[k])) && (n < |s| ==> IsSpace(s[n]))
  {
    if s == "" || IsSpace(s[0]) then 0 else 1 + WordEnd(s[1..])
  }

  function Split(s: string): (ws: seq<string>)
    ensures AllWords(ws)
    decreases |s|
  {
    if s == "" then []
    else if IsSpace(s[0]) then Split(s[1..])
    else
      var n := WordEnd(s);
      [s[..n]] + Split(s[n..])
  }

  function Join(ws: seq<string>): string {
    if ws == [] then "" else if |ws| == 1 then ws[0] else ws[0] + " " + Join(ws[1..])
  }

  lemma FirstWord(w: string, s: string)
    requires IsWord(w) && w <= s && (|s| > |w| ==> IsSpace(s[|w|]))
    ensures Split(s) == [w] + Split(s[|w|..])
  {
    assert s[0] == w[0] && w[0] in w;
    assert WordEnd(s) == |w| by {
      assert forall k :: 0 <= k < |w| ==> s[k] == w[k] && s[k] in w;
    }
    assert s[..|w|] == w;
  }

  /** Splitting undoes joining. */
  lemma {:induction false} SplitJoin(ws: seq<string>)
    requires AllWords(ws)
    ensures Split(Join(ws)) == ws
  {
    if ws != [] {
      var w, s := ws[0], Join(ws);
      assert IsWord(w);
      if |ws| > 1 {
        var rest := Join(ws[1..]);
        assert s == w + (" " + rest);
        assert s[|w|..] == " " + rest && (" " + rest)[1..] == rest;
        SplitJoin(ws[1..]);
      } else {
        assert s[|w|..] == "";
      }
      FirstWord(w, s);
    }
  }

  lemma SplitWord(a: string)
    requires a != "" && !IsSpace(a[0])
    ensures var n := WordEnd(a); n > 0 && IsWord(a[..n]) && (n < |a| ==> IsSpace(a[n]))
  {
  }

  lemma Assoc<T>(a: seq<T>, b: seq<T>, c: seq<T>)
    ensures (a + b) + c == a + (b + c)
  {
  }

  lemma WordThen(w: string, rest: string)
    requires IsWord(w) && (rest != "" ==> IsSpace(rest[0]))
    ensures Split(w + rest) == [w] + Split(rest)
  {
    assert (w + rest)[|w|..] == rest;
    FirstWord(w, w + rest);
  }

  lemma WordAround(w: string, rest: string, more: string)
    requires IsWord(w) && (rest != "" ==> IsSpace(rest[0])) && more != "" && IsSpace(more[0])
    requires Split(rest + more) == Split(rest) + Split(more)
    ensures Split(w + (rest + more)) == Split(w + rest) + Split(more)
  {
    WordThen(w, rest + more);
    WordThen(w, rest);
    Assoc([w], Split(rest), Split(more));
  }

  lemma {:induction false} SplitAround(a: string, more: string)
    requires more != "" && IsSpace(more[0])
    ensures Split(a + more) == Split(a) + Split(more)
    decreases |a|
  {
    if a == "" {
      assert a + more == more;
    } else if IsSpace(a[0]) {
      assert (a + more)[1..] == a[1..] + more;
      SplitAround(a[1..], more);
    } else {
      SplitWord(a);
      var n := WordEnd(a);
      assert a == a[..n] + a[n..] && a + more == a[..n] + (a[n..] + more);
      SplitAround(a[n..], more);
      WordAround(a[..n], a[n..], more);
    }
  }

  lemma {:induction false} JoinConcat(a: seq<string>, b: seq<string>)
    requires a != [] && b != []
    ensures Join(a + b) == Join(a) + " " + Join(b)
  {
    if |a| == 1 {
      assert (a + b)[1..] == b;
    } else {
      assert (a + b)[1..] == a[1..] + b;
      JoinConcat(a[1..], b);
    }
  }

  lemma {:induction false} JoinNonempty(ws: seq<string>)
    requires AllWords(ws) && ws != []
    ensures Join(ws) != "" && |Join(ws)| >= |ws[0]| && !IsSpace(Join(ws)[0])
  {
    assert IsWord(ws[0]);
    assert ws[0][0] in ws[0];
    assert Join(ws)[0] == ws[0][0];
  }

  lemma {:induction false} JoinHolds(ws: seq<string>, w: string)
    requires w in ws
    ensures |Join(ws)| >= |w|
  {
    if ws[0] != w {
      JoinHolds(ws[1..], w);
    }
  }

  function Flat<T>(groups: seq<seq<T>>): seq<T> {
    if groups == [] then [] else groups[0] + Flat(groups[1..])
  }

  lemma FlatOne<T>(g: seq<T>)
    ensures Flat([g]) == g
  {
    assert [g][1..] == [] && g + [] == g;
  }

  lemma {:induction false} FlatConcat<T>(a: seq<seq<T>>, b: seq<seq<T>>)
    ensures Flat(a + b) == Flat(a) + Flat(b)
  {
    if a == [] {
      assert a + b == b;
    } else {
      assert (a + b)[1..] == a[1..] + b;
      FlatConcat(a[1..], b);
    }
  }

  function Joined(groups: seq<seq<string>>): (lines: seq<string>)
    ensures |lines| == |groups| && forall k :: 0 <= k < |groups| ==> lines[k] == Join(groups[k])
  {
    seq(|groups|, k requires 0 <= k < |groups| => Join(groups[k]))
  }

  /** No group is empty: what it takes for joining the groups' joins to join everything. */
  ghost predicate Solid(groups: seq<seq<string>>) { forall g :: g in groups ==> g != [] }

  lemma {:induction false} JoinJoined(groups: seq<seq<string>>)
    requires Solid(groups)
    ensures Join(Joined(groups)) == Join(Flat(groups))
  {
    if |groups| == 1 {
      assert Flat(groups[1..]) == [];
      assert Flat(groups) == groups[0];
    } else if groups != [] {
      assert groups[0] in groups && groups[1] in groups;
      assert forall g :: g in groups[1..] ==> g in groups;
      assert Joined(groups)[1..] == Joined(groups[1..]);
      assert Flat(groups[1..]) != [] by { assert groups[1..][0] == groups[1]; }
      JoinJoined(groups[1..]);
      JoinConcat(groups[0], Flat(groups[1..]));
    }
  }
}
