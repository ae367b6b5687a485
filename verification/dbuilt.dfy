/** One `doubleElim` run taken apart into its stages: the written-out
    winner's bracket P (lines 105-161), the arranged arena A (lines 160-191),
    the arena D1 once every drop is routed (lines 192-279) and the returned
    arena D (lines 280-300), with what each stage leaves behind. The edge
    lemmas here say, region by region, where every winner and loser path of
    D leads. */
module DoubleBuilt {
  import opened Base
  import opened Arena
  import opened Skeleton
  import Seeding
  import SingleElim
  import opened DoubleElim
  import opened DoublePrelim
  import opened LoserSizing
  import opened DoubleStages
  import opened DoubleDrops
  import opened DoubleFirst
  import opened DoubleWins

  /** The redirect list lines 282-289 route loser round W + 3 by: `less`
      of round 2 after at most h = 2^(k-1) preliminary matches, `great`
      after more. */
  function Redirect(P: Rounds, k: nat, rem: nat): seq<int>
    requires |P| >= 2 && k >= 1
  {
    if rem <= Pow2(k - 1) then Less(P[1]) else Great(P[1])
  }

  /** With preliminary matches, the redirect list has one entry per match of
      loser round W + 3, each a match number of loser round W + 4. */
  ghost predicate SelFits(A: Rounds, rem: nat, W: nat, sel: seq<int>)
  {
    && |A| >= W + 4
    && (rem != 0 ==> |sel| == |A[W + 2]| && forall i :: 0 <= i < |sel| ==> 1 <= sel[i] <= |A[W + 3]|)
  }

  /** The four stages of one run and the redirect list its loser round
      W + 3 was routed by. */
  ghost predicate Built(D: Rounds, A: Rounds, D1: Rounds, P: Rounds, k: nat, rem: nat, W: nat,
                        order: seq<int>, sel: seq<int>)
  {
    && DPlain(P, k, rem, FirstFull(rem), W, order)
    && Arranged(A, P, W, LoserSizes(k, rem))
    && AllDropped(A, D1, k, rem, W)
    && WinsDone(D1, D, rem, W, sel)
    && SelFits(A, rem, W, sel)
  }

  lemma DoubleElimIs(n: nat, k: nat, rem: nat, W: nat, r: (Rounds, seq<int>, seq<int>), D: Rounds)
    requires n >= 4 && k == Power(n) && rem == Rem(n) && W == Top(n)
    requires Dropped(n) == Ok(r)
    requires LoserWins(r.0, W + 2, rem, Pow2(k - 1), r.1, r.2) == Ok(D)
    ensures DoubleElim.DoubleElim(n) == Ok(D)
  {
    DoubleElimUnfold(n, r);
    SameWins(n, k, rem, W, r, D);
  }

  /** The same call, written with the locals or with what they stand for. */
  lemma SameWins(n: nat, k: nat, rem: nat, W: nat, r: (Rounds, seq<int>, seq<int>), D: Rounds)
    requires n >= 4 && k == Power(n) && rem == Rem(n) && W == Top(n)
    requires LoserWins(r.0, W + 2, rem, Pow2(k - 1), r.1, r.2) == Ok(D)
    ensures LoserWins(r.0, Top(n) + 2, Rem(n), Pow2(Power(n) - 1), r.1, r.2) == Ok(D)
  {
  }

  lemma DoubleElimUnfold(n: nat, r: (Rounds, seq<int>, seq<int>))
    requires n >= 4
    requires Dropped(n) == Ok(r)
    ensures DoubleElim.DoubleElim(n) == LoserWins(r.0, Top(n) + 2, Rem(n), Pow2(Power(n) - 1), r.1, r.2)
  {
  }

  /** What lines 172-191 need of round 2 once preliminary matches exist: it
      is the seeded round with every seed above the cut moved out. */
  ghost predicate RoundTwo(P: Rounds, k: nat, rem: nat, W: nat, order: seq<int>)
  {
    && k >= 2
    && |P| >= 2
    && (rem != 0 ==>
          && Pow2(k) == 2 * Pow2(k - 1) && rem < 2 * Pow2(k - 1)
          && IsPermutation(order, 2 * Pow2(k - 1))
          && CutRound(P[1], 2 * Pow2(k - 1) - rem, W, order, Pow2(k - 1))
          && |P[1]| == Pow2(k - 1))
  }

  lemma RoundTwoOf(n: nat)
    requires n >= 4
    ensures Prelims(n).Ok?
    ensures RoundTwo(Prelims(n).value, Power(n), Rem(n), Top(n), Order(n))
  {
    RoundedShape(n);
    if Rem(n) != 0 {
      SecondRound(n);
    }
  }

  /** Size of loser round W + 3 + q of the arranged arena. */
  lemma ArrangedLoserSize(A: Rounds, P: Rounds, W: nat, LS: seq<nat>, q: nat)
    requires Arranged(A, P, W, LS) && q < |LS|
    ensures |A[W + 2 + q]| == LS[q]
  {
    assert A[W + 2 + q] == NewRound(W + 3 + q, LS[q]);
  }

  /** The redirect list read off round 2 fits loser round W + 3: `less` when
      there are at most 2^(k-1) preliminary matches, `great` otherwise. */
  lemma SelFacts(A: Rounds, P: Rounds, k: nat, rem: nat, W: nat, order: seq<int>, sel: seq<int>)
    requires RoundTwo(P, k, rem, W, order) && Arranged(A, P, W, LoserSizes(k, rem))
    requires k >= 1 && sel == Redirect(P, k, rem)
    ensures SelFits(A, rem, W, sel)
  {
    LoserSizesSum(k, rem);
    if rem != 0 {
      ArrangedLoserSize(A, P, W, LoserSizes(k, rem), 0);
      ArrangedLoserSize(A, P, W, LoserSizes(k, rem), 1);
      SelSizes(A, P, k, rem, W, order, sel);
    }
  }

  lemma SelSizes(A: Rounds, P: Rounds, k: nat, rem: nat, W: nat, order: seq<int>, sel: seq<int>)
    requires RoundTwo(P, k, rem, W, order) && rem != 0
    requires |A| >= W + 4 && LoserCount(k, rem) >= 2 && |LoserSizes(k, rem)| == LoserCount(k, rem)
    requires |A[W + 2]| == LoserSizes(k, rem)[0] && |A[W + 3]| == LoserSizes(k, rem)[1]
    requires k >= 1 && sel == Redirect(P, k, rem)
    ensures SelFits(A, rem, W, sel)
  {
    LoserSizeAt(k, rem, 0);
    LoserSizeAt(k, rem, 1);
    if rem <= Pow2(k - 1) {
      SelLess(P, k, rem, W, order);
    } else {
      SelGreat(P, k, rem, W, order);
    }
  }

  /** At most 2^(k-1) preliminary matches: `less` names one match of loser
      round W + 4 (of 2^(k-2) matches) per preliminary match. */
  lemma SelLess(P: Rounds, k: nat, rem: nat, W: nat, order: seq<int>)
    requires RoundTwo(P, k, rem, W, order) && 0 < rem <= Pow2(k - 1)
    ensures |Less(P[1])| == rem
    ensures forall i :: 0 <= i < rem ==> 1 <= Less(P[1])[i] <= Pow2(k - 2)
  {
    var h := Pow2(k - 1);
    assert h == 2 * Pow2(k - 2) by {
      assert k - 1 == (k - 2) + 1;
    }
    LessAll(P[1], 2 * h - rem, W, order, h, rem);
  }

  /** More than 2^(k-1) preliminary matches: `great` names rem - 2^(k-1)
      matches of loser round W + 4 (of 2^(k-1) matches). */
  lemma SelGreat(P: Rounds, k: nat, rem: nat, W: nat, order: seq<int>)
    requires RoundTwo(P, k, rem, W, order) && Pow2(k - 1) < rem
    ensures |Great(P[1])| == rem - Pow2(k - 1)
    ensures forall i :: 0 <= i < |Great(P[1])| ==> 1 <= Great(P[1])[i] <= Pow2(k - 1)
  {
    var h := Pow2(k - 1);
    GreatAll(P[1], 2 * h - rem, W, order, h, rem);
  }

  /** The stages up to the drops, with the redirect lists read off round 2. */
  lemma StagesOf(n: nat) returns (A: Rounds, D1: Rounds, P: Rounds, less: seq<int>, great: seq<int>)
    requires n >= 4
    ensures Power(n) >= 2 && |P| >= 2
    ensures Dropped(n) == Ok((D1, less, great))
    ensures P == Prelims(n).value
    ensures less == Less(P[1]) && great == Great(P[1])
    ensures DPlain(P, Power(n), Rem(n), FirstFull(Rem(n)), Top(n), Order(n))
    ensures Arranged(A, P, Top(n), LoserSizes(Power(n), Rem(n)))
    ensures AllDropped(A, D1, Power(n), Rem(n), Top(n))
  {
    RoundedShape(n);
    DroppedEffect(n);
    P := Prelims(n).value;
    var r := Rounded(n).value;
    A, D1, less, great := r.0, Dropped(n).value.0, r.1, r.2;
  }

  /** Lines 280-300 on the dropped arena D1. */
  lemma WinsOf(A: Rounds, D1: Rounds, k: nat, rem: nat, W: nat, less: seq<int>, great: seq<int>, sel: seq<int>)
    requires AllDropped(A, D1, k, rem, W)
    requires sel == if rem <= Pow2(k - 1) then less else great
    ensures LoserWins(D1, W + 2, rem, Pow2(k - 1), less, great).Ok?
    ensures WinsDone(D1, LoserWins(D1, W + 2, rem, Pow2(k - 1), less, great).value, rem, W, sel)
  {
    SizedSame(A, D1, k, rem, W);
    LoserWinsEffect(D1, k, rem, W, less, great);
  }

  /** D is the arena of n players, built in the four stages A, D1, P with
      redirect list sel. */
  ghost predicate Decomposes(n: nat, D: Rounds, A: Rounds, D1: Rounds, P: Rounds, sel: seq<int>)
    requires n >= 4
  {
    && DoubleElim.DoubleElim(n) == Ok(D)
    && Built(D, A, D1, P, Power(n), Rem(n), Top(n), Order(n), sel)
    && Prelims(n).Ok? && P == Prelims(n).value && |P| >= 2
    && sel == Redirect(P, Power(n), Rem(n))
  }

  /** Every run for n >= 4 players returns, and decomposes into its stages. */
  lemma Pieces(n: nat) returns (D: Rounds, A: Rounds, D1: Rounds, P: Rounds, sel: seq<int>)
    requires n >= 4
    ensures Decomposes(n, D, A, D1, P, sel)
  {
    var less, great;
    A, D1, P, less, great := StagesOf(n);
    RoundTwoOf(n);
    var k, rem, W := Power(n), Rem(n), Top(n);
    sel := Redirect(P, k, rem);
    D := Assemble(A, D1, P, k, rem, W, Order(n), less, great, sel);
    DoubleElimIs(n, k, rem, W, (D1, less, great), D);
  }

  lemma Assemble(A: Rounds, D1: Rounds, P: Rounds, k: nat, rem: nat, W: nat, order: seq<int>,
                 less: seq<int>, great: seq<int>, sel: seq<int>) returns (D: Rounds)
    requires RoundTwo(P, k, rem, W, order)
    requires less == Less(P[1]) && great == Great(P[1])
    requires k >= 1 && sel == Redirect(P, k, rem)
    requires DPlain(P, k, rem, FirstFull(rem), W, order)
    requires Arranged(A, P, W, LoserSizes(k, rem))
    requires AllDropped(A, D1, k, rem, W)
    ensures LoserWins(D1, W + 2, rem, Pow2(k - 1), less, great) == Ok(D)
    ensures Built(D, A, D1, P, k, rem, W, order, sel)
  {
    WinsOf(A, D1, k, rem, W, less, great, sel);
    D := LoserWins(D1, W + 2, rem, Pow2(k - 1), less, great).value;
    SelFacts(A, P, k, rem, W, order, sel);
  }

  // ---------------------------------------------------------------------------
  // The winner's bracket as written out

  /** In the written-out winner's bracket no loser path is set, and every
      match below the final sends its winner to an existing match of the
      next round. */
  lemma PlainEdgeAt(P: Rounds, k: nat, rem: nat, top: nat, order: seq<int>, j: nat, i: nat)
    requires DPlain(P, k, rem, FirstFull(rem), top, order)
    requires j < top && i < |P[j]|
    ensures P[j][i].loss == None
    ensures j < top - 1 ==>
      P[j][i].win.Some? && P[j][i].win.value.round == j + 2 && Has(P, P[j][i].win.value)
  {
    if rem != 0 && j == 0 {
      PrelimEdgeAt(P, k, rem, top, order, i);
    } else {
      RoundEdgeAt(P, k, rem, top, order, j, i);
    }
  }

  /** The edge of a preliminary match: to round 2, no loser path. */
  lemma PrelimEdgeAt(P: Rounds, k: nat, rem: nat, top: nat, order: seq<int>, i: nat)
    requires DPlain(P, k, rem, FirstFull(rem), top, order)
    requires rem != 0 && 0 < top && i < |P[0]|
    ensures P[0][i].loss == None
    ensures 0 < top - 1 ==>
      P[0][i].win.Some? && P[0][i].win.value.round == 2 && Has(P, P[0][i].win.value)
  {
    var h := Pow2(k - 1);
    assert DPlayed(P[0][i], i, 2 * h, 2 * h - rem, order);
    PlayedFacts(P[0][i], i, h, 2 * h - rem, order);
    assert |P[1]| == Pow2(k + 2 - 2 - 1);
  }

  /** The edge of a match in a seeded or full round. */
  lemma RoundEdgeAt(P: Rounds, k: nat, rem: nat, top: nat, order: seq<int>, j: nat, i: nat)
    requires DPlain(P, k, rem, FirstFull(rem), top, order)
    requires j < top && i < |P[j]| && (rem != 0 ==> j != 0)
    ensures P[j][i].loss == None
    ensures j < top - 1 ==>
      P[j][i].win.Some? && P[j][i].win.value.round == j + 2 && Has(P, P[j][i].win.value)
  {
    var f := FirstFull(rem);
    assert f - 1 <= j;
    Pow2Small(k + f - 2 - j);
    assert |P[j]| == Pow2(k + f - 2 - j);
    if j < top - 1 {
      assert |P[j + 1]| == Pow2(k + f - 2 - (j + 1));
    }
    if rem != 0 && j == 1 {
      assert P[j][i] == SingleElim.CutMatch(i, Pow2(k) - rem, top, order);
    } else if j == 0 {
      assert P[j][i] == SeededMatch(1, i, top, order);
    } else {
      assert P[j][i] == FullMatch(j + 1, i + 1, top);
    }
  }

  // ---------------------------------------------------------------------------
  // Where the paths of D lead

  /** Has looks at sizes only. */
  lemma HasSame(a: Rounds, b: Rounds, id: MatchId)
    requires SameShape(a, b)
    ensures Has(a, id) == Has(b, id)
  {
  }

  /** The winner rounds of D are those of D1, and the paths D1 changed are
      loser paths into the loser's bracket. */
  lemma WinnerRoundOf(A: Rounds, D1: Rounds, D: Rounds, k: nat, rem: nat, W: nat, sel: seq<int>, j: nat, i: nat)
    requires AllDropped(A, D1, k, rem, W) && WinsDone(D1, D, rem, W, sel)
    requires j < W && i < |A[j]|
    ensures D[j][i] == A[j][i].(loss := D[j][i].loss)
    ensures D[j][i].loss == A[j][i].loss || LossOk(D, D[j][i].loss, W + 3)
  {
    assert D[j] == D1[j];
    var o := D1[j][i].loss;
    if o.Some? {
      HasSame(D1, D, o.value);
    }
  }

  /** Winner rounds: the winner goes on to the next round, or from the
      winner's final (round W) to the first grand final (round W + 1); the
      loser goes nowhere or into the loser's bracket (rounds W + 3 on). */
  lemma WinnerEdge(D: Rounds, A: Rounds, D1: Rounds, P: Rounds, k: nat, rem: nat, W: nat,
                   order: seq<int>, sel: seq<int>, j: nat, i: nat)
    requires Built(D, A, D1, P, k, rem, W, order, sel)
    requires j < W && i < |D[j]|
    ensures D[j][i].win.Some? && Has(D, D[j][i].win.value)
    ensures D[j][i].win.value.round == if j < W - 1 then j + 2 else W + 1
    ensures D[j][i].loss.None? || (Has(D, D[j][i].loss.value) && D[j][i].loss.value.round >= W + 3)
  {
    WinnerRoundOf(A, D1, D, k, rem, W, sel, j, i);
    HasSame(A, D1, MatchId(0, 0));
    if j < W - 1 {
      assert A[j] == P[j];
      PlainEdgeAt(P, k, rem, W, order, j, i);
      var to := P[j][i].win.value;
      assert |A[to.round - 1]| == |P[to.round - 1]| by {
        if to.round - 1 < W - 1 {
          assert A[to.round - 1] == P[to.round - 1];
        }
      }
      HasSame(A, D1, to);
      HasSame(D1, D, to);
    } else {
      PlainEdgeAt(P, k, rem, W, order, j, 0);
      HasSame(A, D1, Single(W + 1));
      HasSame(D1, D, Single(W + 1));
    }
  }

  /** The grand finals: GF1 (round W + 1) sends winner and loser to GF2,
      which sends nobody anywhere. */
  lemma FinalsEdge(D: Rounds, A: Rounds, D1: Rounds, P: Rounds, k: nat, rem: nat, W: nat,
                   order: seq<int>, sel: seq<int>)
    requires Built(D, A, D1, P, k, rem, W, order, sel)
    ensures |D| >= W + 4 && |D[W]| == 1 && |D[W + 1]| == 1
    ensures D[W][0].win == D[W][0].loss == Some(Single(W + 2)) && Has(D, Single(W + 2))
    ensures D[W + 1][0].win == None && D[W + 1][0].loss == None
  {
    assert D[W] == D1[W] == A[W];
    assert D[W + 1] == D1[W + 1] == A[W + 1];
  }

  /** Loser rounds: no loser path; the last match goes back to GF1; with
      preliminary matches loser round W + 3 routes by the redirect list; every
      other loser round sends its winner on to the next round. */
  lemma LoserEdge(D: Rounds, A: Rounds, D1: Rounds, P: Rounds, k: nat, rem: nat, W: nat,
                  order: seq<int>, sel: seq<int>, j: nat, i: nat)
    requires Built(D, A, D1, P, k, rem, W, order, sel)
    requires W + 2 <= j < |D| && i < |D[j]|
    ensures D[j][i].loss == None
    ensures D[j][i].win.Some? && Has(D, D[j][i].win.value)
    ensures j == |D| - 1 ==> D[j][i].win.value == Single(W + 1)
    ensures j < |D| - 1 ==> D[j][i].win.value.round == j + 2
    ensures rem != 0 && j == W + 2 ==> D[j][i].win.value == MatchId(W + 4, sel[i])
  {
    assert D1[j] == A[j];
    assert D[j][i] == A[j][i].(win := D[j][i].win);
    assert A[W + 2 + (j - W - 2)] == NewRound(W + 3 + (j - W - 2), LoserSizes(k, rem)[j - W - 2]);
    if j == |D| - 1 {
      HasSame(D1, D, Single(W + 1));
    } else if rem != 0 && j == W + 2 {
      SelectedEdge(D, A, D1, rem, W, sel, i);
    } else {
      CompactedEdge(D, A, D1, k, rem, W, sel, j, i);
    }
  }

  lemma SelectedEdge(D: Rounds, A: Rounds, D1: Rounds, rem: nat, W: nat, sel: seq<int>, i: nat)
    requires rem != 0 && SelFits(A, rem, W, sel) && WinsDone(D1, D, rem, W, sel)
    requires SameShape(A, D1) && i < |A[W + 2]|
    ensures D[W + 2][i].win == Some(MatchId(W + 4, sel[i])) && Has(D, MatchId(W + 4, sel[i]))
  {
    assert At(sel, i) == sel[i];
    HasSame(D1, D, MatchId(W + 4, sel[i]));
  }

  lemma CompactedEdge(D: Rounds, A: Rounds, D1: Rounds, k: nat, rem: nat, W: nat, sel: seq<int>, j: nat, i: nat)
    requires Sized(A, k, rem, W) && SameShape(A, D1) && WinsDone(D1, D, rem, W, sel)
    requires FirstRouted(rem, W) <= j + 1 && j + 1 < |A| && i < |A[j]|
    ensures D[j][i].win.Some? && Has(D, D[j][i].win.value) && D[j][i].win.value.round == j + 2
  {
    LoserSizesStep(k, rem, j - W - 2);
    LoserRoundSize(A, k, rem, W, j + 1);
    LoserRoundSize(A, k, rem, W, j + 2);
    var q := if |D1[j]| == |D1[j + 1]| then i else i / 2;
    HasSame(D1, D, MatchId(j + 2, q + 1));
  }
}
