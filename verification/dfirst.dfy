/** The drops of the first one or two winner's rounds of double elimination
    (lib/Algorithms.js:192-266), by the three cases of rem, and the sizes of
    the arena that make every drop find its matches. */
module DoubleFirst {
  import opened Base
  import opened Arena
  import opened Skeleton
  import opened Counting
  import Seeding
  import opened DoubleElim
  import opened DoublePrelim
  import opened LoserSizing
  import opened DoubleStages
  import opened DoubleDrops

  /** Matches in winner round x of a bracket of 2^k + rem players: rem in the
      preliminary round, then 2^(k-1), 2^(k-2), ..., 1. */
  function WinnerSize(k: nat, rem: nat, x: nat): nat
    requires x <= k + (if rem != 0 then 1 else 0)
  {
    if rem != 0 && x == 1 then rem else Pow2(k + (if rem != 0 then 1 else 0) - x)
  }

  /** Round sizes of the arranged arena: W winner rounds, the two grand
      finals, then the loser rounds sized by LoserSizes. */
  ghost predicate Sized(A: Rounds, k: nat, rem: nat, W: nat)
  {
    && k >= 2
    && Pow2(k) == 2 * Pow2(k - 1)
    && rem < Pow2(k)
    && W == k + (if rem != 0 then 1 else 0)
    && |LoserSizes(k, rem)| == LoserCount(k, rem)
    && |A| == W + 2 + LoserCount(k, rem)
    && (forall x :: 1 <= x <= W ==> |A[x - 1]| == WinnerSize(k, rem, x))
    && |A[W]| == 1 && |A[W + 1]| == 1
    && (forall q :: 0 <= q < LoserCount(k, rem) ==> |A[W + 2 + q]| == LoserSizes(k, rem)[q])
  }

  /** The arena after lines 160-191 has these sizes. */
  lemma SizedArranged(A: Rounds, P: Rounds, k: nat, rem: nat, f: nat, top: nat, order: seq<int>)
    requires DPlain(P, k, rem, f, top, order)
    requires Arranged(A, P, top, LoserSizes(k, rem))
    ensures Sized(A, k, rem, top)
  {
    LoserSizesSum(k, rem);
    forall x | 1 <= x <= top
      ensures |A[x - 1]| == WinnerSize(k, rem, x)
    {
      if x < top {
        assert A[x - 1] == P[x - 1];
      }
    }
  }

  lemma WinnerRoundSize(A: Rounds, k: nat, rem: nat, W: nat, x: nat)
    requires Sized(A, k, rem, W) && 1 <= x <= W
    ensures |A[x - 1]| == WinnerSize(k, rem, x)
  {
  }

  lemma LoserRoundSize(A: Rounds, k: nat, rem: nat, W: nat, l: nat)
    requires Sized(A, k, rem, W) && W + 3 <= l <= |A|
    ensures |A[l - 1]| == LoserSizes(k, rem)[l - W - 3]
  {
    assert A[l - 1] == A[W + 2 + (l - W - 3)];
  }

  /** Sizes are all that Sized looks at. */
  lemma SizedSame(A: Rounds, B: Rounds, k: nat, rem: nat, W: nat)
    requires Sized(A, k, rem, W) && SameShape(A, B)
    ensures Sized(B, k, rem, W)
  {
  }

  /** From RestStart on, winner round x can fill loser round DropLoser(x),
      which has as many matches as round x. */
  lemma RestFitsFrom(A: Rounds, k: nat, rem: nat, W: nat)
    requires Sized(A, k, rem, W)
    ensures RestFits(A, RestStart(k, rem), W + 2, DropLoser(k, rem, RestStart(k, rem)), W, W + 3)
  {
    var i, l := RestStart(k, rem), DropLoser(k, rem, RestStart(k, rem));
    forall x | i <= x <= W
      ensures RoundFeeds(A, x, Fed(l, i, x), W + 3)
    {
      DropLoserSize(k, rem, x);
      assert Fed(l, i, x) == DropLoser(k, rem, x);
      LoserRoundSize(A, k, rem, W, DropLoser(k, rem, x));
      WinnerRoundSize(A, k, rem, W, x);
    }
  }

  // ---------------------------------------------------------------------------
  // The three cases

  /** rem = 0 (lines 196-210): loser match m of round W + 3 takes the losers
      of winner matches loserFill[2m] and loserFill[2m + 1] of round 1. */
  lemma FirstPairs(A: Rounds, k: nat, W: nat, less: seq<int>, great: seq<int>)
    requires Sized(A, k, 0, W)
    ensures FirstDrops(A, W + 2, 0, Pow2(k - 1), less, great).Ok?
    ensures var st := FirstDrops(A, W + 2, 0, Pow2(k - 1), less, great).value;
      && st.winnerRound == 2 && st.loserRound == W + 4 && st.fillCount == 1
      && PairsDone(A, st.rs, 1, W + 3, Seeding.LoserFill(|A[0]|, 0), 0, W, W + 3)
  {
    LoserSizeAt(k, 0, 0);
    assert Pow2(k - 1) == 2 * Pow2(k - 2) by {
      assert k - 1 == (k - 2) + 1;
    }
    var first := Seeding.LoserFill(|A[0]|, 0);
    LoserRoundSize(A, k, 0, W, W + 3);
    WinnerRoundSize(A, k, 0, W, 1);
    assert |A[W + 2]| == Pow2(k - 2);
    assert |A[0]| == Pow2(k - 1);
    DropPairsEffect(A, 1, W + 3, first, 0, 0, W, W + 3);
  }

  /** After the preliminary losers are placed, round 2 and loser round
      W + 4 fit the `forEach` of lines 228-243. */
  lemma LessSecond(A: Rounds, rs1: Rounds, k: nat, rem: nat, W: nat)
    requires Sized(A, k, rem, W) && 0 < rem <= Pow2(k - 1)
    requires |rs1| == |A| && forall j :: 0 <= j < |A| ==> |rs1[j]| == |A[j]|
    ensures LessFits(rs1, 2, W + 4, Seeding.LoserFill(|rs1[1]|, 1), W, W + 3)
  {
    LoserSizeAt(k, rem, 1);
    LoserRoundSize(A, k, rem, W, W + 4);
    WinnerRoundSize(A, k, rem, W, 2);
    assert Pow2(k - 1) == 2 * Pow2(k - 2) by {
      assert k - 1 == (k - 2) + 1;
    }
    assert |rs1[1]| == Pow2(k - 1);
  }

  /** 0 < rem <= h (lines 211-244): the preliminary losers fill loser round
      W + 3 one per match; the round-2 losers go, two per match, to loser
      round W + 4 or are redirected. */
  lemma FirstEachLess(A: Rounds, k: nat, rem: nat, W: nat, less: seq<int>, great: seq<int>)
    requires Sized(A, k, rem, W) && 0 < rem <= Pow2(k - 1)
    ensures FirstDrops(A, W + 2, rem, Pow2(k - 1), less, great).Ok?
    ensures var st := FirstDrops(A, W + 2, rem, Pow2(k - 1), less, great).value;
      && st.winnerRound == 3 && st.loserRound == W + 5 && st.fillCount == 2
      && LossOnly(A, st.rs, W, W + 3)
      && (forall j :: 2 <= j < |A| ==> st.rs[j] == A[j])
      && RoundDone(A[0], st.rs[0], W + 3, Seeding.LoserFill(rem, 0), 0, rem)
  {
    var rs1, rs2 := LessLoops(A, k, rem, W, less, great);
    LessChain(A, rs1, rs2, rem, W);
  }

  /** The two loops of lines 211-244, one state after the other. */
  lemma LessLoops(A: Rounds, k: nat, rem: nat, W: nat, less: seq<int>, great: seq<int>) returns (rs1: Rounds, rs2: Rounds)
    requires Sized(A, k, rem, W) && 0 < rem <= Pow2(k - 1)
    ensures |A| >= W + 3 && |A[0]| == rem && |A[W + 2]| == rem
    ensures EachDone(A, rs1, 1, W + 3, Seeding.LoserFill(|A[0]|, 0), 0, W, W + 3)
    ensures RoundOnly(rs1, rs2, 2, W, W + 3)
    ensures FirstDrops(A, W + 2, rem, Pow2(k - 1), less, great) == Ok(DropState(rs2, 3, W + 5, 2))
  {
    rs1 := LessFirstLoop(A, k, rem, W);
    var second := Seeding.LoserFill(|rs1[1]|, 1);
    LessSecond(A, rs1, k, rem, W);
    DropLessOk(rs1, 2, W + 4, second, 0, 0, 0, less, W, W + 3);
    rs2 := DropLess(rs1, 2, W + 4, second, 0, 0, 0, less).value;
  }

  /** The loop of lines 218-222: each preliminary loser to its own match of
      loser round W + 3. */
  lemma LessFirstLoop(A: Rounds, k: nat, rem: nat, W: nat) returns (rs1: Rounds)
    requires Sized(A, k, rem, W) && 0 < rem <= Pow2(k - 1)
    ensures |A| >= W + 3 && |A[0]| == rem && |A[W + 2]| == rem
    ensures DropEach(A, 1, W + 3, Seeding.LoserFill(|A[0]|, 0), 0, 218) == Ok(rs1)
    ensures EachDone(A, rs1, 1, W + 3, Seeding.LoserFill(|A[0]|, 0), 0, W, W + 3)
    ensures |rs1| == |A| && forall j :: 0 <= j < |A| ==> |rs1[j]| == |A[j]|
  {
    LoserSizeAt(k, rem, 0);
    var fill := Seeding.LoserFill(|A[0]|, 0);
    LoserRoundSize(A, k, rem, W, W + 3);
    WinnerRoundSize(A, k, rem, W, 1);
    DropEachEffect(A, 1, W + 3, fill, 0, 218, W, W + 3);
    rs1 := DropEach(A, 1, W + 3, fill, 0, 218).value;
  }

  /** Round 1 done by the first loop and round 2 by the second leave only
      loser paths changed, rounds 3 on untouched and round 1 as the first
      loop left it. */
  lemma LessChain(A: Rounds, rs1: Rounds, rs2: Rounds, rem: nat, W: nat)
    requires |A| >= W + 3 && |A[0]| == rem && |A[W + 2]| == rem
    requires EachDone(A, rs1, 1, W + 3, Seeding.LoserFill(|A[0]|, 0), 0, W, W + 3)
    requires RoundOnly(rs1, rs2, 2, W, W + 3)
    ensures LossOnly(A, rs2, W, W + 3)
    ensures forall j :: 2 <= j < |A| ==> rs2[j] == A[j]
    ensures RoundDone(A[0], rs2[0], W + 3, Seeding.LoserFill(rem, 0), 0, rem)
  {
    LossOnlyTrans(A, rs1, rs2, W, W + 3);
  }

  /** Within round 2 of h matches, `great` holds exactly the loser matches
      whose number is that of a round-2 match whose even-position seed is
      above the cut; so the first h loser matches count rem - h of them. */
  lemma GreatInCount(round: Round, cut: int, top: nat, order: seq<int>, h: nat, rem: nat)
    requires CutRound(round, cut, top, order, h) && |round| == h
    requires IsPermutation(order, 2 * h)
    requires h < rem < 2 * h && cut == 2 * h - rem
    ensures InCount(Great(round), 0, h) == rem - h
  {
    var E := Evens(order);
    GreatAll(round, cut, top, order, h, rem);
    GreatByEvens(round, cut, top, order, h);
    InCountAbove(Great(round), E, cut, 0, h);
    assert E[0..h] == E;
  }

  lemma GreatByEvens(round: Round, cut: int, top: nat, order: seq<int>, h: nat)
    requires CutRound(round, cut, top, order, h) && |round| == h && |order| == 2 * h
    ensures forall x :: 0 <= x < h ==> (x + 1 in Great(round) <==> Evens(order)[x] > cut)
  {
    forall x | 0 <= x < h
      ensures x + 1 in Great(round) <==> Evens(order)[x] > cut
    {
      GreatMembers(round, cut, top, order, h, x + 1);
    }
  }

  /** rem > h (lines 245-266): the preliminary losers go to loser round
      W + 4, two at a time to the matches listed in `great`, which are
      redirected to round W + 3. */
  lemma FirstGreat(A: Rounds, k: nat, rem: nat, W: nat, less: seq<int>,
                   round: Round, cut: int, top: nat, order: seq<int>)
    requires Sized(A, k, rem, W) && Pow2(k - 1) < rem
    requires CutRound(round, cut, top, order, Pow2(k - 1)) && |round| == Pow2(k - 1)
    requires IsPermutation(order, 2 * Pow2(k - 1)) && cut == 2 * Pow2(k - 1) - rem
    ensures FirstDrops(A, W + 2, rem, Pow2(k - 1), less, Great(round)).Ok?
    ensures var st := FirstDrops(A, W + 2, rem, Pow2(k - 1), less, Great(round)).value;
      && st.winnerRound == 2 && st.loserRound == W + 4 && st.fillCount == 1
      && RoundOnly(A, st.rs, 1, W, W + 3)
  {
    var h := Pow2(k - 1);
    LoserSizeAt(k, rem, 1);
    GreatInCount(round, cut, top, order, h, rem);
    var first := Seeding.LoserFill(|A[0]|, 0);
    LoserRoundSize(A, k, rem, W, W + 4);
    WinnerRoundSize(A, k, rem, W, 1);
    assert |A[W + 3]| == h && |A[0]| == rem;
    assert GreatFits(A, 1, W + 4, first, Great(round), 0, 0, W, W + 3);
    DropGreatOk(A, 1, W + 4, first, Great(round), 0, 0, 0, W, W + 3);
  }

  // ---------------------------------------------------------------------------
  // The drop loop after the first drops

  /** Where the first drops leave the arena A: the loop of lines 268-279 is
      to start at winner round RestStart with fill count RestStart - 1 and
      loser round DropLoser(RestStart); only loser paths of the winner rounds
      before RestStart have changed. */
  ghost predicate FirstDone(A: Rounds, st: DropState, k: nat, rem: nat, W: nat)
  {
    && Sized(A, k, rem, W)
    && st.winnerRound == RestStart(k, rem)
    && st.loserRound == DropLoser(k, rem, RestStart(k, rem))
    && st.fillCount == RestStart(k, rem) - 1
    && LossOnly(A, st.rs, W, W + 3)
    && (forall j :: RestStart(k, rem) - 1 <= j < |A| ==> st.rs[j] == A[j])
  }

  /** What all drops of lines 192-279 leave behind: every winner round x from
      RestStart to the winner's final W drops into loser round DropLoser(x)
      through `loserFill` with fill count x - 1; the grand finals and the
      loser rounds are untouched; only loser paths changed, each to a match
      of the loser's bracket. */
  ghost predicate DropsDone(A: Rounds, D: Rounds, k: nat, rem: nat, W: nat)
  {
    && Sized(A, k, rem, W)
    && LossOnly(A, D, W, W + 3)
    && (forall j :: W <= j < |A| ==> D[j] == A[j])
    && (forall x :: RestStart(k, rem) <= x <= W ==> RoundDropped(A, D, x, DropLoser(k, rem, x)))
  }

  lemma RestDropped(A: Rounds, st: DropState, b: Rounds, k: nat, rem: nat, W: nat)
    requires FirstDone(A, st, k, rem, W)
    requires RestDone(st.rs, b, st.winnerRound, W + 2, st.loserRound, W, W + 3)
    ensures forall x :: RestStart(k, rem) <= x <= W ==> RoundDropped(A, b, x, DropLoser(k, rem, x))
  {
    var i, l := st.winnerRound, st.loserRound;
    forall x | RestStart(k, rem) <= x <= W
      ensures RoundDropped(A, b, x, DropLoser(k, rem, x))
    {
      assert RoundDropped(st.rs, b, x, Fed(l, i, x));
      assert Fed(l, i, x) == DropLoser(k, rem, x);
      assert st.rs[x - 1] == A[x - 1];
      assert st.rs[DropLoser(k, rem, x) - 1] == A[DropLoser(k, rem, x) - 1];
    }
  }

  /** The loop of lines 268-279 after the first drops never raises and
      completes the drops. */
  lemma RestAfterFirst(A: Rounds, st: DropState, k: nat, rem: nat, W: nat)
    requires FirstDone(A, st, k, rem, W)
    ensures DropRest(st.rs, st.winnerRound, W + 2, st.loserRound, 0, st.fillCount).Ok?
    ensures var D := DropRest(st.rs, st.winnerRound, W + 2, st.loserRound, 0, st.fillCount).value;
      && DropsDone(A, D, k, rem, W)
      && (forall j :: 0 <= j < RestStart(k, rem) - 1 ==> D[j] == st.rs[j])
  {
    SizedSame(A, st.rs, k, rem, W);
    RestFitsFrom(st.rs, k, rem, W);
    DropRestEffect(st.rs, st.winnerRound, W + 2, st.loserRound, 0, st.fillCount, W, W + 3);
    var D := DropRest(st.rs, st.winnerRound, W + 2, st.loserRound, 0, st.fillCount).value;
    LossOnlyTrans(A, st.rs, D, W, W + 3);
    RestDropped(A, st, D, k, rem, W);
  }

  // ---------------------------------------------------------------------------
  // All drops for n players

  /** The three cases of lines 192-266 end where the drop loop takes over. */
  lemma FirstCases(A: Rounds, k: nat, rem: nat, W: nat, less: seq<int>, great: seq<int>,
                   round: Round, top: nat, order: seq<int>) returns (st: DropState)
    requires Sized(A, k, rem, W)
    requires Pow2(k - 1) < rem ==>
      && CutRound(round, 2 * Pow2(k - 1) - rem, top, order, Pow2(k - 1)) && |round| == Pow2(k - 1)
      && IsPermutation(order, 2 * Pow2(k - 1)) && great == Great(round)
    ensures FirstDrops(A, W + 2, rem, Pow2(k - 1), less, great) == Ok(st)
    ensures FirstDone(A, st, k, rem, W)
    ensures rem == 0 ==> PairRoundDone(A[0], st.rs[0], W + 3, Seeding.LoserFill(|A[0]|, 0), 0, |A[W + 2]|)
    ensures 0 < rem <= Pow2(k - 1) ==> RoundDone(A[0], st.rs[0], W + 3, Seeding.LoserFill(rem, 0), 0, rem)
  {
    var h := Pow2(k - 1);
    if rem == 0 {
      FirstPairs(A, k, W, less, great);
    } else if rem <= h {
      FirstEachLess(A, k, rem, W, less, great);
    } else {
      FirstGreat(A, k, rem, W, less, round, 2 * h - rem, top, order);
    }
    st := FirstDrops(A, W + 2, rem, h, less, great).value;
  }

  /** The arena after lines 160-191 for n players, with what the case of
      lines 245-266 needs to know about `great`. */
  lemma RoundedSized(n: nat)
    requires n >= 4
    ensures Prelims(n).Ok? && |Prelims(n).value| >= 2 && Rounded(n).Ok?
    ensures Ready(Rounded(n).value.0, Power(n), Rem(n), Top(n), Rounded(n).value.2, Prelims(n).value[1], Top(n), Order(n))
  {
    RoundedSizes(n);
    if Pow2(Power(n) - 1) < Rem(n) {
      RoundedGreat(n);
    }
    ReadyFrom(Rounded(n).value.0, Power(n), Rem(n), Top(n), Rounded(n).value.2, Prelims(n).value[1], Top(n), Order(n));
  }

  lemma ReadyFrom(A: Rounds, k: nat, rem: nat, W: nat, great: seq<int>, round: Round, top: nat, order: seq<int>)
    requires Sized(A, k, rem, W)
    requires Pow2(k - 1) < rem ==>
      var h := Pow2(k - 1);
      && CutRound(round, 2 * h - rem, top, order, h) && |round| == h
      && IsPermutation(order, 2 * h) && great == Great(round)
    ensures Ready(A, k, rem, W, great, round, top, order)
  {
  }

  lemma RoundedSizes(n: nat)
    requires n >= 4
    ensures Prelims(n).Ok? && |Prelims(n).value| >= 2 && Rounded(n).Ok?
    ensures Sized(Rounded(n).value.0, Power(n), Rem(n), Top(n))
  {
    RoundedShape(n);
    SizedArranged(Rounded(n).value.0, Prelims(n).value, Power(n), Rem(n), FirstFull(Rem(n)), Top(n), Order(n));
  }

  /** With more than 2^(k-1) preliminary matches, `great` is read off the
      cut round 2. */
  lemma RoundedGreat(n: nat)
    requires n >= 4 && Pow2(Power(n) - 1) < Rem(n)
    ensures Prelims(n).Ok? && |Prelims(n).value| >= 2 && Rounded(n).Ok?
    ensures var h, round := Pow2(Power(n) - 1), Prelims(n).value[1];
      && CutRound(round, 2 * h - Rem(n), Top(n), Order(n), h) && |round| == h
      && IsPermutation(Order(n), 2 * h) && Rounded(n).value.2 == Great(round)
  {
    RoundedShape(n);
    SecondRound(n);
  }

  /** All drops of lines 192-279 done: DropsDone, and the losers of round 1
      placed, in pairs into loser round W + 3 without preliminary matches,
      one each with at most 2^(k-1) of them. */
  ghost predicate AllDropped(A: Rounds, D: Rounds, k: nat, rem: nat, W: nat)
  {
    && DropsDone(A, D, k, rem, W)
    && (rem == 0 ==> PairRoundDone(A[0], D[0], W + 3, Seeding.LoserFill(|A[0]|, 0), 0, |A[W + 2]|))
    && (0 < rem <= Pow2(k - 1) ==> RoundDone(A[0], D[0], W + 3, Seeding.LoserFill(rem, 0), 0, rem))
  }

  /** What the drops need of the arranged arena: its sizes and, with more
      than 2^(k-1) preliminary matches, the list `great` read off round 2. */
  ghost predicate Ready(A: Rounds, k: nat, rem: nat, W: nat, great: seq<int>, round: Round, top: nat, order: seq<int>)
  {
    && Sized(A, k, rem, W)
    && (Pow2(k - 1) < rem ==>
          && CutRound(round, 2 * Pow2(k - 1) - rem, top, order, Pow2(k - 1)) && |round| == Pow2(k - 1)
          && IsPermutation(order, 2 * Pow2(k - 1)) && great == Great(round))
  }

  lemma ReadyFacts(A: Rounds, k: nat, rem: nat, W: nat, great: seq<int>, round: Round, top: nat, order: seq<int>)
    requires Ready(A, k, rem, W, great, round, top, order)
    ensures Sized(A, k, rem, W)
    ensures Pow2(k - 1) < rem ==>
      && CutRound(round, 2 * Pow2(k - 1) - rem, top, order, Pow2(k - 1)) && |round| == Pow2(k - 1)
      && IsPermutation(order, 2 * Pow2(k - 1)) && great == Great(round)
  {
  }

  /** The first drops and the drop loop together, on an arena of the right
      sizes, return. */
  lemma FirstAndRest(A: Rounds, k: nat, rem: nat, W: nat, less: seq<int>, great: seq<int>,
                     round: Round, top: nat, order: seq<int>) returns (st: DropState, D: Rounds)
    requires Ready(A, k, rem, W, great, round, top, order)
    ensures FirstDrops(A, W + 2, rem, Pow2(k - 1), less, great) == Ok(st)
    ensures DropRest(st.rs, st.winnerRound, W + 2, st.loserRound, 0, st.fillCount) == Ok(D)
  {
    ReadyFacts(A, k, rem, W, great, round, top, order);
    st := FirstCases(A, k, rem, W, less, great, round, top, order);
    RestAfterFirst(A, st, k, rem, W);
    D := DropRest(st.rs, st.winnerRound, W + 2, st.loserRound, 0, st.fillCount).value;
  }

  /** What the first drops and the drop loop leave behind. */
  lemma FirstAndRestDone(A: Rounds, k: nat, rem: nat, W: nat, less: seq<int>, great: seq<int>,
                         round: Round, top: nat, order: seq<int>, st: DropState, D: Rounds)
    requires Ready(A, k, rem, W, great, round, top, order)
    requires FirstDrops(A, W + 2, rem, Pow2(k - 1), less, great) == Ok(st)
    requires DropRest(st.rs, st.winnerRound, W + 2, st.loserRound, 0, st.fillCount) == Ok(D)
    ensures AllDropped(A, D, k, rem, W)
  {
    ReadyFacts(A, k, rem, W, great, round, top, order);
    var st' := FirstCases(A, k, rem, W, less, great, round, top, order);
    RestAfterFirst(A, st, k, rem, W);
    assert D[0] == st.rs[0];
  }

  /** Lines 192-279 never raise for n >= 4 players. Every winner round from
      RestStart on drops into its loser round through `loserFill` with fill
      count one less than its round number; without preliminary matches the
      losers of round 1 meet in pairs in loser round W + 3, and with at most
      2^(k-1) preliminary matches they fill loser round W + 3 one each. */
  lemma DroppedEffect(n: nat)
    requires n >= 4
    ensures Rounded(n).Ok? && Dropped(n).Ok?
    ensures var A, D := Rounded(n).value.0, Dropped(n).value.0;
      var k, rem, W := Power(n), Rem(n), Top(n);
      && Dropped(n).value.1 == Rounded(n).value.1
      && Dropped(n).value.2 == Rounded(n).value.2
      && AllDropped(A, D, k, rem, W)
  {
    RoundedSized(n);
    var r := Rounded(n).value;
    var k, rem, W := Power(n), Rem(n), Top(n);
    var st, D := FirstAndRest(r.0, k, rem, W, r.1, r.2, Prelims(n).value[1], W, Order(n));
    DroppedIs(n, r, k, rem, W, st, D);
    FirstAndRestDone(r.0, k, rem, W, r.1, r.2, Prelims(n).value[1], W, Order(n), st, D);
  }

  lemma DroppedIs(n: nat, r: (Rounds, seq<int>, seq<int>), k: nat, rem: nat, W: nat, st: DropState, D: Rounds)
    requires n >= 4 && k == Power(n) && rem == Rem(n) && W == Top(n)
    requires Rounded(n) == Ok(r)
    requires FirstDrops(r.0, W + 2, rem, Pow2(k - 1), r.1, r.2) == Ok(st)
    requires DropRest(st.rs, st.winnerRound, W + 2, st.loserRound, 0, st.fillCount) == Ok(D)
    ensures Dropped(n) == Ok((D, r.1, r.2))
  {
    SameDrops(n, r, k, rem, W, st, D);
    DroppedUnfold(n, r, st, D);
  }

  /** The same two calls, written with the locals or with what they stand
      for. */
  lemma SameDrops(n: nat, r: (Rounds, seq<int>, seq<int>), k: nat, rem: nat, W: nat, st: DropState, D: Rounds)
    requires n >= 4 && k == Power(n) && rem == Rem(n) && W == Top(n)
    requires FirstDrops(r.0, W + 2, rem, Pow2(k - 1), r.1, r.2) == Ok(st)
    requires DropRest(st.rs, st.winnerRound, W + 2, st.loserRound, 0, st.fillCount) == Ok(D)
    ensures FirstDrops(r.0, Top(n) + 2, Rem(n), Pow2(Power(n) - 1), r.1, r.2) == Ok(st)
    ensures DropRest(st.rs, st.winnerRound, Top(n) + 2, st.loserRound, 0, st.fillCount) == Ok(D)
  {
  }

  lemma DroppedUnfold(n: nat, r: (Rounds, seq<int>, seq<int>), st: DropState, D: Rounds)
    requires n >= 4
    requires Rounded(n) == Ok(r)
    requires FirstDrops(r.0, Top(n) + 2, Rem(n), Pow2(Power(n) - 1), r.1, r.2) == Ok(st)
    requires DropRest(st.rs, st.winnerRound, Top(n) + 2, st.loserRound, 0, st.fillCount) == Ok(D)
    ensures Dropped(n) == Ok((D, r.1, r.2))
  {
  }
}
