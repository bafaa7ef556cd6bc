/** Sequences. */
module Sequences {
  ghost predicate Distinct<T>(s: seq<T>) { forall i, j :: 0 <= i < j < |s| ==> s[i] != s[j] }

  lemma Appended<T>(b: seq<T>, m: seq<T>, i: nat, j: nat)
    requires i <= j <= |m|
    ensures (b + m)[|b| + i..|b| + j] == m[i..j]
  {
  }

  lemma SliceOfSlice<T>(s: seq<T>, a: nat, b: nat, c: nat, d: nat)
    requires a <= b <= |s| && c <= d <= b - a
    ensures s[a..b][c..d] == s[a + c..a + d]
  {
    forall i | 0 <= i < d - c ensures s[a..b][c..d][i] == s[a + c..a + d][i] {
      assert s[a..b][c..d][i] == s[a..b][c + i] == s[a + c + i];
    }
    assert |s[a..b][c..d]| == |s[a + c..a + d]|;
  }

  /** A slice cut in three. */
  lemma ThreeParts<T>(s: seq<T>, a: nat, b: nat, c: nat, d: nat, h: nat, n: nat, k: nat)
    requires b == a + h && c == b + n && d == c + k && d <= |s|
    ensures s[a..d][0..h] == s[a..b]
    ensures s[a..d][h..h + n] == s[b..c]
    ensures s[a..d][h + n..h + n + k] == s[c..d]
  {
    SliceOfSlice(s, a, d, 0, h);
    SliceOfSlice(s, a, d, h, h + n);
    SliceOfSlice(s, a, d, h + n, h + n + k);
  }

  /** What is appended, in three. */
  lemma ThreeAppended<T>(b: seq<T>, m: seq<T>, i: nat, j: nat)
    requires i <= j <= |m|
    ensures (b + m)[|b|..|b| + i] == m[0..i]
    ensures (b + m)[|b| + i..|b| + j] == m[i..j]
    ensures (b + m)[|b| + j..] == m[j..|m|]
  {
    Appended(b, m, 0, i);
    Appended(b, m, i, j);
    Appended(b, m, j, |m|);
  }

  /** What stood before, and what was put after it. */
  lemma Followed<T>(a: seq<T>, z: seq<T>, b: seq<T>, i: nat)
    requires i <= |a|
    ensures (a + z + b)[i..|a|] == a[i..]
    ensures forall k :: |a| <= k < |a| + |z| ==> (a + z + b)[k] == z[k - |a|]
  {
  }
}
