/** Facts about sequences the solver has to be told. */
module Sequences {
  lemma Regroup<T>(a: seq<T>, b: seq<T>, c: seq<T>)
    ensures a + (b + c) == a + b + c
  {
  }

  lemma RegroupFour<T>(a: seq<T>, b: seq<T>, c: seq<T>, d: seq<T>)
    ensures a + b + c + d == a + (b + c + d)
  {
  }

  lemma Prepended<T>(x: T, before: seq<T>, step: T, after: seq<T>)
    ensures [x] + (before + [step] + after) == [x] + before + [step] + after
  {
  }

  lemma CutInThree<T>(s: seq<T>, i: nat, j: nat)
    requires i <= j <= |s|
    ensures s == s[..i] + s[i..j] + s[j..]
    ensures j == |s| ==> s == s[..i] + s[i..]
  {
  }

  lemma CutInTwo<T>(s: seq<T>, lo: nat, mid: nat, hi: nat)
    requires lo <= mid <= hi <= |s|
    ensures s[lo..hi] == s[lo..mid] + s[mid..hi]
  {
  }

  lemma AppendTwo<T>(s: seq<T>, x: T, y: T)
    ensures s + [x, y] == s + [x] + [y]
  {
  }

  lemma ToTheEnd<T>(s: seq<T>, lo: nat)
    requires lo <= |s|
    ensures s[lo..|s|] == s[lo..]
  {
  }

  lemma Nothing<T>(s: seq<T>, i: nat)
    requires i <= |s|
    ensures s[i..i] == []
  {
  }

  lemma FirstOf<T>(s: seq<T>, lo: nat, hi: nat)
    requires lo < hi <= |s|
    ensures s[lo..hi] == [s[lo]] + s[lo + 1..hi]
  {
  }

  lemma LastOf<T>(s: seq<T>, lo: nat, hi: nat)
    requires lo <= hi < |s|
    ensures s[lo..hi + 1] == s[lo..hi] + [s[hi]]
  {
  }

  lemma TakeOneMore<T>(s: seq<T>, i: nat)
    requires i < |s|
    ensures s[..i + 1] == s[..i] + [s[i]] && s[i..][1..] == s[i + 1..]
  {
  }

  lemma Halves<T>(a: seq<T>, b: seq<T>)
    ensures (a + b)[..|a|] == a && (a + b)[|a|..] == b
  {
  }

  lemma EmptyStretch<T>(s: seq<T>, lo: nat, hi: nat)
    requires lo <= hi <= |s|
    ensures s[lo..hi] == [] <==> lo == hi
  {
    assert |s[lo..hi]| == hi - lo;
  }

  lemma Untouched<T>(s: seq<T>, x: T, lo: nat, hi: nat)
    requires lo <= hi <= |s|
    ensures (s + [x])[lo..hi] == s[lo..hi]
  {
  }

  lemma LastOfRest<T>(s: seq<T>, lo: nat)
    requires lo < |s|
    ensures s[lo..] != [] && s[lo..][|s[lo..]| - 1] == s[|s| - 1]
  {
  }

  lemma Around<T>(s: seq<T>, lo: nat, i: nat)
    requires lo <= i < |s|
    ensures s[lo..] == s[lo..i] + [s[i]] + s[i + 1..]
  {
  }

  lemma SameFront<T>(a: seq<T>, b: seq<T>, end: seq<T>)
    requires a + end == b + end
    ensures a == b
  {
    assert |a| == |b|;
    assert a == (a + end)[..|a|];
    assert b == (b + end)[..|b|];
  }

  lemma StillAPrefix<T>(a: seq<T>, b: seq<T>, x: T)
    requires a <= b
    ensures a <= b + [x] && (b + [x])[|a|] == if |a| < |b| then b[|a|] else x
  {
  }

  lemma OneLonger<T>(a: seq<T>, b: seq<T>)
    requires a <= b && |a| < |b|
    ensures b[..|a| + 1] == a + [b[|a|]]
    ensures a + [b[|a|]] <= b
  {
  }

  lemma DropTwice<T>(s: seq<T>, k: nat, n: nat)
    requires k + n <= |s|
    ensures s[k..][n..] == s[k + n..]
    ensures k + n < |s| ==> s[k..][n..] != [] && s[k..][n..][|s[k..][n..]| - 1] == s[|s| - 1]
  {
  }
}
