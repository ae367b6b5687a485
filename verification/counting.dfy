/** Counting the seeds above a cut. The preliminary round of double
    elimination takes one match per seed above 2^k - rem, in seed order, and
    the loser's-bracket redirects count round-2 matches that lost one or both
    seeds; both counts come down to how many values of a permutation exceed a
    bound. */
module Counting {
  import opened Base

  /** Number of elements of s above T. */
  function CountAbove(s: seq<int>, T: int): (c: nat)
    ensures c <= |s|
  {
    if s == [] then 0 else CountAbove(s[..|s| - 1], T) + (if s[|s| - 1] > T then 1 else 0)
  }

  lemma {:induction false} CountAboveAppend(a: seq<int>, b: seq<int>, T: int)
    ensures CountAbove(a + b, T) == CountAbove(a, T) + CountAbove(b, T)
    decreases |b|
  {
    if b == [] {
      assert a + b == a;
    } else {
      assert (a + b)[..|a + b| - 1] == a + b[..|b| - 1];
      CountAboveAppend(a, b[..|b| - 1], T);
    }
  }

  lemma CountAboveSingle(x: int, T: int)
    ensures CountAbove([x], T) == if x > T then 1 else 0
  {
    assert [x][..0] == [];
  }

  /** Extending a prefix by one element adds one exactly when that element is
      above T. */
  lemma CountAboveStep(s: seq<int>, i: nat, T: int)
    requires i < |s|
    ensures CountAbove(s[..i + 1], T) == CountAbove(s[..i], T) + (if s[i] > T then 1 else 0)
  {
    assert s[..i + 1][..i] == s[..i];
  }

  /** A prefix counts no more than the whole sequence. */
  lemma CountAbovePrefix(s: seq<int>, i: nat, T: int)
    requires i <= |s|
    ensures CountAbove(s[..i], T) + CountAbove(s[i..], T) == CountAbove(s, T)
  {
    assert s == s[..i] + s[i..];
    CountAboveAppend(s[..i], s[i..], T);
  }

  lemma {:induction false} CountAboveNone(s: seq<int>, T: int)
    requires forall i :: 0 <= i < |s| ==> s[i] <= T
    ensures CountAbove(s, T) == 0
  {
    if s != [] {
      var front := s[..|s| - 1];
      assert forall i :: 0 <= i < |front| ==> front[i] == s[i];
      CountAboveNone(front, T);
    }
  }

  /** Dropping the largest value N from a permutation of 1..N leaves a
      permutation of 1..N-1. */
  lemma PermutationDropMax(s: seq<int>, N: nat, p: nat)
    requires IsPermutation(s, N)
    requires p < |s| && s[p] == N
    ensures IsPermutation(s[..p] + s[p + 1..], N - 1)
  {
    var s' := s[..p] + s[p + 1..];
    assert forall i :: 0 <= i < |s'| ==> s'[i] == if i < p then s[i] else s[i + 1];
    forall i, j | 0 <= i < j < |s'|
      ensures s'[i] != s'[j]
    {
      var a := if i < p then i else i + 1;
      var b := if j < p then j else j + 1;
      assert s'[i] == s[a] && s'[j] == s[b] && a < b;
    }
    forall i | 0 <= i < |s'|
      ensures 1 <= s'[i] <= N - 1
    {
      var a := if i < p then i else i + 1;
      assert s'[i] == s[a] && a != p;
    }
    forall v | 1 <= v <= N - 1
      ensures v in s'
    {
      assert v in s;
      var q := IndexOf(s, v);
      assert q != p;
      if q < p {
        assert s'[q] == v;
      } else {
        assert s'[q - 1] == v;
      }
    }
  }

  /** A permutation of 1..N has exactly N - T values above T, for T in 0..N. */
  lemma {:induction false} CountAbovePermutation(s: seq<int>, N: nat, T: int)
    requires IsPermutation(s, N)
    requires 0 <= T <= N
    ensures CountAbove(s, T) == N - T
    decreases N
  {
    if T == N {
      CountAboveNone(s, T);
    } else {
      assert N in s;
      var p := IndexOf(s, N);
      var s' := s[..p] + s[p + 1..];
      assert s == s[..p] + [N] + s[p + 1..];
      CountAboveAppend(s[..p] + [N], s[p + 1..], T);
      CountAboveAppend(s[..p], [N], T);
      CountAboveAppend(s[..p], s[p + 1..], T);
      CountAboveSingle(N, T);
      PermutationDropMax(s, N, p);
      CountAbovePermutation(s', N - 1, T);
    }
  }
}
