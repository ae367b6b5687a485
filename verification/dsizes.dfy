/** Sizes of the loser's-bracket rounds of double elimination
    (lib/Algorithms.js:172-191): which round each winner's round drops into,
    and how consecutive loser rounds compare. */
module LoserSizing {
  import opened Base
  import opened Arena
  import opened DoubleElim

  /** Entry i of the do-while's sizes: the pair i / 2 counted down from p. */
  lemma {:induction false} PairSizeAt(p: nat, i: nat)
    requires i < 2 * (p + 1)
    ensures |PairSizes(p)| == 2 * (p + 1)
    ensures PairSizes(p)[i] == Pow2(p - i / 2)
  {
    if p > 0 {
      PairSizeAt(p - 1, if i >= 2 then i - 2 else 0);
      if i >= 2 {
        assert PairSizes(p)[i] == PairSizes(p - 1)[i - 2];
        assert (i - 2) / 2 == i / 2 - 1;
      }
    }
  }

  lemma {:induction false} PairSizesSum(p: nat)
    ensures |PairSizes(p)| == 2 * (p + 1)
    ensures Sum(PairSizes(p)) == 2 * Pow2(p + 1) - 2
  {
    var head: seq<nat> := [Pow2(p), Pow2(p)];
    assert Sum(head) == 2 * Pow2(p) by {
      assert head[1..] == [Pow2(p)];
      assert [Pow2(p)][1..] == [];
      assert Sum([Pow2(p)]) == Pow2(p);
    }
    if p > 0 {
      PairSizesSum(p - 1);
      SumAppend(head, PairSizes(p - 1));
    } else {
      assert PairSizes(0) == head;
    }
  }

  /** Number of loser's-bracket rounds: 2(k - 1), plus one or two for the
      preliminary losers. */
  function LoserCount(k: nat, rem: nat): nat
    requires k >= 2
  {
    (if rem == 0 then 0 else if rem <= Pow2(k - 1) then 1 else 2) + 2 * (k - 1)
  }

  lemma FirstLoserSum(rem: nat, h: nat)
    ensures Sum(FirstLoserSizes(rem, h)) == rem
  {
    var s := FirstLoserSizes(rem, h);
    if rem != 0 && rem <= h {
      assert s[1..] == [];
    } else if rem != 0 {
      assert s[1..] == [h];
      assert [h][1..] == [];
      assert Sum([h]) == h;
      assert Sum(s) == (rem - h) + Sum([h]);
    }
  }

  lemma FirstLoserLength(rem: nat, h: nat)
    ensures |FirstLoserSizes(rem, h)| == if rem == 0 then 0 else if rem <= h then 1 else 2
  {
  }

  /** The loser's bracket has n - 2 matches in all, where n = 2^k + rem. */
  lemma LoserSizesSum(k: nat, rem: nat)
    requires k >= 2
    ensures |LoserSizes(k, rem)| == LoserCount(k, rem)
    ensures Sum(LoserSizes(k, rem)) == Pow2(k) + rem - 2
  {
    var h, p := Pow2(k - 1), k - 2;
    var a, b := FirstLoserSizes(rem, h), PairSizes(p);
    assert LoserSizes(k, rem) == a + b;
    PairSizesSum(p);
    assert p + 1 == k - 1;
    assert Sum(b) == 2 * h - 2;
    FirstLoserSum(rem, h);
    FirstLoserLength(rem, h);
    SumAppend(a, b);
    Pow2Small(k);
    assert Pow2(k) == 2 * h;
  }

  /** Size of the loser round at position j of the loser's bracket. */
  lemma LoserSizeAt(k: nat, rem: nat, j: nat)
    requires k >= 2 && j < LoserCount(k, rem)
    ensures |LoserSizes(k, rem)| == LoserCount(k, rem)
    ensures var h, s, lead := Pow2(k - 1), LoserSizes(k, rem), |FirstLoserSizes(rem, Pow2(k - 1))|;
      && (j < lead && rem <= h ==> s[j] == rem)
      && (j == 0 && rem > h ==> s[j] == rem - h)
      && (j == 1 && rem > h ==> s[j] == h)
      && (lead <= j ==> s[j] == Pow2(k - 2 - (j - lead) / 2))
  {
    var lead := |FirstLoserSizes(rem, Pow2(k - 1))|;
    FirstLoserLength(rem, Pow2(k - 1));
    PairSizeAt(k - 2, if lead <= j then j - lead else 0);
    if lead <= j {
      assert LoserSizes(k, rem)[j] == PairSizes(k - 2)[j - lead];
    }
  }

  /** Loser round number fed by winner round i in the loop of lines 268-279:
      it starts at diff + 2 (diff + 3 after a small preliminary round) and
      moves on by two per winner round. */
  function DropLoser(k: nat, rem: nat, i: nat): nat
    requires k >= 2
  {
    k + 2 * i + (if rem > Pow2(k - 1) then 1 else 0)
  }

  /** The first winner round of that loop: 2, or 3 after a preliminary round
      of at most 2^(k-1) matches. */
  function RestStart(k: nat, rem: nat): nat
    requires k >= 2
  {
    if rem != 0 && rem <= Pow2(k - 1) then 3 else 2
  }

  /** Winner round i (RestStart <= i <= W, W the winner's final) drops into a
      loser round of exactly its own size. */
  lemma DropLoserSize(k: nat, rem: nat, i: nat)
    requires k >= 2 && rem < Pow2(k)
    requires RestStart(k, rem) <= i <= k + (if rem != 0 then 1 else 0)
    ensures var W := k + (if rem != 0 then 1 else 0);
      var l := DropLoser(k, rem, i);
      var f := if rem != 0 then 2 else 1;
      && W + 3 <= l <= W + 2 + LoserCount(k, rem)
      && |LoserSizes(k, rem)| == LoserCount(k, rem)
      && LoserSizes(k, rem)[l - W - 3] == Pow2(k + f - 1 - i)
  {
    var W := k + (if rem != 0 then 1 else 0);
    var l := DropLoser(k, rem, i);
    LoserSizeAt(k, rem, l - W - 3);
  }

  /** From the first round routed by lines 292-297 on, each loser round is
      as large as the next one or twice as large, and the last has one
      match. */
  lemma LoserSizesStep(k: nat, rem: nat, j: nat)
    requires k >= 2
    requires (if rem != 0 then 1 else 0) <= j < LoserCount(k, rem) - 1
    ensures |LoserSizes(k, rem)| == LoserCount(k, rem)
    ensures var s := LoserSizes(k, rem);
      s[j] > 0 && (s[j + 1] == s[j] || 2 * s[j + 1] == s[j])
  {
    var h, lead := Pow2(k - 1), |FirstLoserSizes(rem, Pow2(k - 1))|;
    LoserSizeAt(k, rem, j);
    LoserSizeAt(k, rem, j + 1);
    if j + 1 == lead {
      assert h == 2 * Pow2(k - 2);
    } else if lead <= j {
      var m := (j - lead) / 2;
      if j - lead == 2 * m + 1 {
        assert (j + 1 - lead) / 2 == m + 1;
        assert Pow2(k - 2 - m) == 2 * Pow2(k - 2 - (m + 1));
      } else {
        assert (j + 1 - lead) / 2 == m;
      }
    }
  }

  lemma LoserSizesLast(k: nat, rem: nat)
    requires k >= 2
    ensures |LoserSizes(k, rem)| == LoserCount(k, rem)
    ensures LoserSizes(k, rem)[LoserCount(k, rem) - 1] == 1
  {
    LoserSizeAt(k, rem, LoserCount(k, rem) - 1);
  }
}
