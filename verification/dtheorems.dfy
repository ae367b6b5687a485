/** What `doubleElim(players)` (lib/Algorithms.js:105-302) promises for every
    n >= 4 players, stated on the arena it returns. With k = floor(log2 n),
    rem = n - 2^k preliminary matches and h = 2^(k-1): rounds 1..W are the
    winner's bracket (W = k, or k + 1 with preliminary matches), rounds
    W + 1 and W + 2 the two grand finals (GF1, GF2) and rounds W + 3 on the
    loser's bracket.

    Each property is a predicate on an arena, proved first for any arena
    built the way the construction builds it (the lemmas named ...Of) and
    then for the arena of n players. */
module DoubleTheorems {
  import opened Base
  import opened Arena
  import opened Skeleton
  import Seeding
  import opened DoubleElim
  import opened LoserSizing
  import opened DoubleDrops
  import opened DoubleFirst
  import opened DoubleWins
  import opened DoubleBuilt

  // ---------------------------------------------------------------------------
  // Sizes

  /** Sized, and the loser rounds hold 2^k + rem - 2 matches in all. */
  ghost predicate Shaped(D: Rounds, k: nat, rem: nat, W: nat)
  {
    Sized(D, k, rem, W) && Sum(Sizes(D)[W + 2..]) == Pow2(k) + rem - 2
  }

  lemma ShapeOf(D: Rounds, A: Rounds, D1: Rounds, P: Rounds, k: nat, rem: nat, W: nat,
                order: seq<int>, sel: seq<int>)
    requires Built(D, A, D1, P, k, rem, W, order, sel)
    ensures Shaped(D, k, rem, W)
  {
    SizedSame(A, D1, k, rem, W);
    SizedSame(D1, D, k, rem, W);
    assert Sizes(D)[W + 2..] == LoserSizes(k, rem);
    LoserSizesSum(k, rem);
  }

  /** The bracket has W winner rounds sized rem, 2^(k-1), ..., 1 (or 2^(k-1)
      down to 1 without preliminary matches), two single-match grand finals,
      and loser rounds sized LoserSizes, holding n - 2 matches in all. */
  lemma DoubleElimShape(n: nat)
    requires n >= 4
    ensures DoubleElim.DoubleElim(n).Ok?
    ensures Pow2(Power(n)) + Rem(n) == n
    ensures Shaped(DoubleElim.DoubleElim(n).value, Power(n), Rem(n), Top(n))
  {
    var D, A, D1, P, sel := Pieces(n);
    ShapeOf(D, A, D1, P, Power(n), Rem(n), Top(n), Order(n), sel);
  }

  /** Loser round W + 3 + q, after a lead of 0, 1 or 2 rounds for the
      preliminary matches, is sized rem (rem <= h), rem - h then h (rem > h),
      and then 2^(k-2), 2^(k-2), 2^(k-3), 2^(k-3), ..., 1, 1. */
  ghost predicate LoserSized(D: Rounds, k: nat, rem: nat, W: nat, q: nat)
  {
    && k >= 2
    && var h := Pow2(k - 1);
    var lead := if rem == 0 then 0 else if rem <= h then 1 else 2;
    && |D| == W + 2 + lead + 2 * (k - 1)
    && (q < lead + 2 * (k - 1) ==>
          && (q < lead && rem <= h ==> |D[W + 2 + q]| == rem)
          && (q == 0 && rem > h ==> |D[W + 2]| == rem - h)
          && (q == 1 && rem > h ==> |D[W + 3]| == h)
          && (lead <= q ==> |D[W + 2 + q]| == Pow2(k - 2 - (q - lead) / 2)))
  }

  lemma LoserSizeIn(D: Rounds, k: nat, rem: nat, W: nat, q: nat)
    requires Sized(D, k, rem, W)
    ensures LoserSized(D, k, rem, W, q)
  {
    FirstLoserLength(rem, Pow2(k - 1));
    if q < LoserCount(k, rem) {
      LoserSizeAt(k, rem, q);
      LoserRoundSize(D, k, rem, W, W + 3 + q);
    }
  }

  lemma LoserSizeOf(D: Rounds, A: Rounds, D1: Rounds, P: Rounds, k: nat, rem: nat, W: nat,
                    order: seq<int>, sel: seq<int>, q: nat)
    requires Built(D, A, D1, P, k, rem, W, order, sel)
    ensures LoserSized(D, k, rem, W, q)
  {
    ShapeOf(D, A, D1, P, k, rem, W, order, sel);
    LoserSizeIn(D, k, rem, W, q);
  }

  lemma DoubleLoserSizes(n: nat, q: nat)
    requires n >= 4
    ensures DoubleElim.DoubleElim(n).Ok?
    ensures LoserSized(DoubleElim.DoubleElim(n).value, Power(n), Rem(n), Top(n), q)
  {
    var D, A, D1, P, sel := Pieces(n);
    LoserSizeOf(D, A, D1, P, Power(n), Rem(n), Top(n), Order(n), sel, q);
  }

  // ---------------------------------------------------------------------------
  // Grand finals

  /** The winner's final sends its winner to GF1 and its loser to the single
      match of the last loser round; GF1 sends both its winner and its loser
      to GF2, which sends nobody on; the loser's-bracket final sends its
      winner back to GF1. */
  ghost predicate FinalsRouted(D: Rounds, W: nat)
  {
    && W >= 2 && |D| >= W + 4
    && |D[W - 1]| == 1 && |D[W]| == 1 && |D[W + 1]| == 1 && |D[|D| - 1]| == 1
    && D[W - 1][0].win == Some(MatchId(W + 1, 1))
    && D[W - 1][0].loss == Some(MatchId(|D|, 1))
    && D[W][0].win == Some(MatchId(W + 2, 1)) && D[W][0].loss == Some(MatchId(W + 2, 1))
    && D[W + 1][0].win == None && D[W + 1][0].loss == None
    && D[|D| - 1][0].win == Some(MatchId(W + 1, 1))
  }

  /** The winner's final loses into the last loser round, whose single
      match it fills. */
  lemma FinalLoss(D: Rounds, A: Rounds, D1: Rounds, P: Rounds, k: nat, rem: nat, W: nat,
                  order: seq<int>, sel: seq<int>)
    requires Built(D, A, D1, P, k, rem, W, order, sel)
    ensures |D| == |A| && |D[W - 1]| == 1
    ensures D[W - 1][0].loss == Some(MatchId(|D|, 1))
  {
    var l := DropLoser(k, rem, W);
    assert l == |A|;
    LoserSizesLast(k, rem);
    LoserRoundSize(A, k, rem, W, l);
    WinnerRoundSize(A, k, rem, W, W);
    assert RoundDropped(A, D1, W, l);
    var fill := Seeding.LoserFill(|A[W - 1]|, W - 1);
    assert 1 <= fill[0] <= |A[W - 1]|;
    assert D[W - 1] == D1[W - 1];
  }

  lemma FinalsOf(D: Rounds, A: Rounds, D1: Rounds, P: Rounds, k: nat, rem: nat, W: nat,
                 order: seq<int>, sel: seq<int>)
    requires Built(D, A, D1, P, k, rem, W, order, sel)
    ensures FinalsRouted(D, W)
  {
    FinalsEdge(D, A, D1, P, k, rem, W, order, sel);
    FinalLoss(D, A, D1, P, k, rem, W, order, sel);
    WinnerRoundOf(A, D1, D, k, rem, W, sel, W - 1, 0);
  }

  lemma DoubleGrandFinals(n: nat)
    requires n >= 4
    ensures DoubleElim.DoubleElim(n).Ok?
    ensures FinalsRouted(DoubleElim.DoubleElim(n).value, Top(n))
  {
    var D, A, D1, P, sel := Pieces(n);
    FinalsOf(D, A, D1, P, Power(n), Rem(n), Top(n), Order(n), sel);
  }

  // ---------------------------------------------------------------------------
  // Winner paths of the loser's bracket

  /** From loser round W + 3 (W + 4 after preliminary matches) on, a loser
      round j + 1 is as large as the next or twice as large, and its match
      q + 1 sends its winner to match q + 1 of the next round in the first
      case and to match floor(q/2) + 1 in the second. */
  ghost predicate LoserRouted(D: Rounds, rem: nat, W: nat, j: nat, q: nat)
  {
    W + 3 + (if rem != 0 then 1 else 0) <= j + 1 < |D| && q < |D[j]| ==>
      && (|D[j + 1]| == |D[j]| || 2 * |D[j + 1]| == |D[j]|)
      && D[j][q].win == Some(MatchId(j + 2, (if |D[j]| == |D[j + 1]| then q else q / 2) + 1))
  }

  lemma RouteIn(D: Rounds, D1: Rounds, k: nat, rem: nat, W: nat, sel: seq<int>, j: nat, q: nat)
    requires Sized(D1, k, rem, W) && WinsDone(D1, D, rem, W, sel)
    ensures LoserRouted(D, rem, W, j, q)
  {
    if W + 3 + (if rem != 0 then 1 else 0) <= j + 1 < |D| && q < |D[j]| {
      LoserSizesStep(k, rem, j - W - 2);
      LoserRoundSize(D1, k, rem, W, j + 1);
      LoserRoundSize(D1, k, rem, W, j + 2);
      assert D[j][q].win == Compacted(D1, j, q);
    }
  }

  lemma RouteOf(D: Rounds, A: Rounds, D1: Rounds, P: Rounds, k: nat, rem: nat, W: nat,
                order: seq<int>, sel: seq<int>, j: nat, q: nat)
    requires Built(D, A, D1, P, k, rem, W, order, sel)
    ensures LoserRouted(D, rem, W, j, q)
  {
    SizedSame(A, D1, k, rem, W);
    RouteIn(D, D1, k, rem, W, sel, j, q);
  }

  lemma DoubleLoserRoutes(n: nat, j: nat, q: nat)
    requires n >= 4
    ensures DoubleElim.DoubleElim(n).Ok?
    ensures LoserRouted(DoubleElim.DoubleElim(n).value, Rem(n), Top(n), j, q)
  {
    var D, A, D1, P, sel := Pieces(n);
    RouteOf(D, A, D1, P, Power(n), Rem(n), Top(n), Order(n), sel, j, q);
  }

  /** With preliminary matches, loser round W + 3 is routed by a redirect
      list sel: one entry per match, match i + 1 sending its winner to match
      sel[i] of loser round W + 4. */
  ghost predicate FirstLoserRouted(D: Rounds, rem: nat, W: nat, sel: seq<int>, i: nat)
  {
    rem != 0 ==>
      && |D| >= W + 4 && |sel| == |D[W + 2]|
      && (i < |sel| ==> 1 <= sel[i] <= |D[W + 3]| && D[W + 2][i].win == Some(MatchId(W + 4, sel[i])))
  }

  lemma FirstRouteOf(D: Rounds, A: Rounds, D1: Rounds, P: Rounds, k: nat, rem: nat, W: nat,
                     order: seq<int>, sel: seq<int>, i: nat)
    requires Built(D, A, D1, P, k, rem, W, order, sel)
    ensures FirstLoserRouted(D, rem, W, sel, i)
  {
    ShapeOf(D, A, D1, P, k, rem, W, order, sel);
    if rem != 0 && i < |sel| {
      LoserEdge(D, A, D1, P, k, rem, W, order, sel, W + 2, i);
    }
  }

  /** The redirect list is Redirect of the preliminary arena: `less` of
      round 2 when rem <= h and `great` of round 2 otherwise. */
  lemma DoubleFirstLoserRound(n: nat, i: nat)
    requires n >= 4
    ensures DoubleElim.DoubleElim(n).Ok? && Prelims(n).Ok? && |Prelims(n).value| >= 2
    ensures FirstLoserRouted(DoubleElim.DoubleElim(n).value, Rem(n), Top(n),
                             Redirect(Prelims(n).value, Power(n), Rem(n)), i)
  {
    var D, A, D1, P, sel := Pieces(n);
    FirstRouteOf(D, A, D1, P, Power(n), Rem(n), Top(n), Order(n), sel, i);
  }

  // ---------------------------------------------------------------------------
  // Drops from the winner's bracket

  /** Winner round x, from RestStart (3 after at most h preliminary matches,
      else 2) up to the winner's final, drops into loser round DropLoser(x)
      = k + 2x (+1 when rem > h), which has as many matches: loser match
      p + 1 receives the loser of winner match loserFill(|round x|, x - 1)[p],
      so the fill count grows by one with every winner round. */
  ghost predicate WinnerDropped(D: Rounds, k: nat, rem: nat, W: nat, x: nat, p: nat)
  {
    k >= 2 && RestStart(k, rem) <= x <= W ==>
      var l := DropLoser(k, rem, x);
      && W + 3 <= l <= |D| && |D[l - 1]| == |D[x - 1]|
      && (p < |D[l - 1]| ==>
            var fill := Seeding.LoserFill(|D[x - 1]|, x - 1);
            1 <= fill[p] <= |D[x - 1]| && D[x - 1][fill[p] - 1].loss == Some(MatchId(l, p + 1)))
  }

  /** Winner round x and the loser round it drops into have one size. */
  lemma DropSized(A: Rounds, k: nat, rem: nat, W: nat, x: nat)
    requires Sized(A, k, rem, W) && RestStart(k, rem) <= x <= W
    ensures W + 3 <= DropLoser(k, rem, x) <= |A|
    ensures |A[DropLoser(k, rem, x) - 1]| == |A[x - 1]|
  {
    DropLoserSize(k, rem, x);
    LoserRoundSize(A, k, rem, W, DropLoser(k, rem, x));
    WinnerRoundSize(A, k, rem, W, x);
  }

  lemma DropFilled(A: Rounds, D1: Rounds, k: nat, rem: nat, W: nat, x: nat, p: nat)
    requires AllDropped(A, D1, k, rem, W) && RestStart(k, rem) <= x <= W
    requires W + 3 <= DropLoser(k, rem, x) <= |A| && p < |A[DropLoser(k, rem, x) - 1]|
    ensures var fill := Seeding.LoserFill(|A[x - 1]|, x - 1);
      1 <= fill[p] <= |A[x - 1]| && D1[x - 1][fill[p] - 1].loss == Some(MatchId(DropLoser(k, rem, x), p + 1))
  {
    assert RoundDropped(A, D1, x, DropLoser(k, rem, x));
  }

  lemma DropIn(D: Rounds, A: Rounds, D1: Rounds, k: nat, rem: nat, W: nat, x: nat, p: nat)
    requires AllDropped(A, D1, k, rem, W) && WinsOnly(D1, D, W + 3)
    ensures WinnerDropped(D, k, rem, W, x, p)
  {
    if k >= 2 && RestStart(k, rem) <= x <= W {
      DropSized(A, k, rem, W, x);
      if p < |A[DropLoser(k, rem, x) - 1]| {
        DropFilled(A, D1, k, rem, W, x, p);
      }
      assert D[x - 1] == D1[x - 1];
    }
  }

  lemma DropOf(D: Rounds, A: Rounds, D1: Rounds, P: Rounds, k: nat, rem: nat, W: nat,
               order: seq<int>, sel: seq<int>, x: nat, p: nat)
    requires Built(D, A, D1, P, k, rem, W, order, sel)
    ensures WinnerDropped(D, k, rem, W, x, p)
  {
    DropIn(D, A, D1, k, rem, W, x, p);
  }

  lemma DoubleWinnerDrops(n: nat, x: nat, p: nat)
    requires n >= 4
    ensures DoubleElim.DoubleElim(n).Ok?
    ensures WinnerDropped(DoubleElim.DoubleElim(n).value, Power(n), Rem(n), Top(n), x, p)
  {
    var D, A, D1, P, sel := Pieces(n);
    DropOf(D, A, D1, P, Power(n), Rem(n), Top(n), Order(n), sel, x, p);
  }

  /** The losers of round 1: without preliminary matches they meet in pairs
      in loser round W + 3, loser match p + 1 taking winner matches
      loserFill(|round 1|, 0)[2p] and [2p + 1]; after at most h preliminary
      matches each fills one match of loser round W + 3 in the order
      loserFill(rem, 0). */
  ghost predicate FirstDropped(D: Rounds, k: nat, rem: nat, W: nat, p: nat)
  {
    && |D| >= W + 3
    && (rem == 0 ==>
          var fill := Seeding.LoserFill(|D[0]|, 0);
          && 2 * |D[W + 2]| == |D[0]|
          && (p < |D[W + 2]| ==>
                && 1 <= fill[2 * p] <= |D[0]| && D[0][fill[2 * p] - 1].loss == Some(MatchId(W + 3, p + 1))
                && 1 <= fill[2 * p + 1] <= |D[0]| && D[0][fill[2 * p + 1] - 1].loss == Some(MatchId(W + 3, p + 1))))
    && (k >= 1 && 0 < rem <= Pow2(k - 1) ==>
          var fill := Seeding.LoserFill(rem, 0);
          && |D[W + 2]| == rem == |D[0]|
          && (p < rem ==> 1 <= fill[p] <= rem && D[0][fill[p] - 1].loss == Some(MatchId(W + 3, p + 1))))
  }

  lemma FirstDropIn(D: Rounds, A: Rounds, D1: Rounds, k: nat, rem: nat, W: nat, p: nat)
    requires AllDropped(A, D1, k, rem, W) && WinsOnly(D1, D, W + 3)
    ensures FirstDropped(D, k, rem, W, p)
  {
    LoserSizeAt(k, rem, 0);
    LoserRoundSize(A, k, rem, W, W + 3);
    WinnerRoundSize(A, k, rem, W, 1);
    assert D[0] == D1[0];
    if rem == 0 {
      assert Pow2(k - 1) == 2 * Pow2(k - 2) by {
        assert k - 1 == (k - 2) + 1;
      }
      if p < |D[W + 2]| {
        var first := Seeding.LoserFill(|A[0]|, 0);
        assert PairOne(first, p) == first[2 * p] && PairTwo(first, p) == first[2 * p + 1];
      }
    }
  }

  lemma FirstDropOf(D: Rounds, A: Rounds, D1: Rounds, P: Rounds, k: nat, rem: nat, W: nat,
                    order: seq<int>, sel: seq<int>, p: nat)
    requires Built(D, A, D1, P, k, rem, W, order, sel)
    ensures FirstDropped(D, k, rem, W, p)
  {
    FirstDropIn(D, A, D1, k, rem, W, p);
  }

  lemma DoubleFirstDrops(n: nat, p: nat)
    requires n >= 4
    ensures DoubleElim.DoubleElim(n).Ok?
    ensures FirstDropped(DoubleElim.DoubleElim(n).value, Power(n), Rem(n), Top(n), p)
  {
    var D, A, D1, P, sel := Pieces(n);
    FirstDropOf(D, A, D1, P, Power(n), Rem(n), Top(n), Order(n), sel, p);
  }

  // ---------------------------------------------------------------------------
  // Loser paths and the routing graph

  /** Loser paths: a winner's-bracket match sends its loser nowhere or into
      an existing loser's-bracket match; GF1 sends its loser to GF2; no
      other match has a loser path. */
  ghost predicate LossRouted(D: Rounds, W: nat, j: nat, i: nat)
  {
    j < |D| && i < |D[j]| ==>
      && (j < W ==> D[j][i].loss.None? || (Has(D, D[j][i].loss.value) && D[j][i].loss.value.round >= W + 3))
      && (j == W ==> D[j][i].loss == Some(MatchId(W + 2, 1)))
      && (j > W ==> D[j][i].loss == None)
  }

  lemma LossOf(D: Rounds, A: Rounds, D1: Rounds, P: Rounds, k: nat, rem: nat, W: nat,
               order: seq<int>, sel: seq<int>, j: nat, i: nat)
    requires Built(D, A, D1, P, k, rem, W, order, sel)
    ensures LossRouted(D, W, j, i)
  {
    if j < |D| && i < |D[j]| {
      if j < W {
        WinnerEdge(D, A, D1, P, k, rem, W, order, sel, j, i);
      } else if j <= W + 1 {
        FinalsEdge(D, A, D1, P, k, rem, W, order, sel);
      } else {
        LoserEdge(D, A, D1, P, k, rem, W, order, sel, j, i);
      }
    }
  }

  lemma DoubleLossTargets(n: nat, j: nat, i: nat)
    requires n >= 4
    ensures DoubleElim.DoubleElim(n).Ok?
    ensures LossRouted(DoubleElim.DoubleElim(n).value, Top(n), j, i)
  {
    var D, A, D1, P, sel := Pieces(n);
    LossOf(D, A, D1, P, Power(n), Rem(n), Top(n), Order(n), sel, j, i);
  }

  /** Every winner or loser path leads to an existing match of a later
      round, with the one exception of the path from the loser's-bracket
      final back to GF1 (line 300). */
  ghost predicate Forward(D: Rounds, W: nat, r: nat, i: nat, to: MatchId)
  {
    r < |D| && i < |D[r]| && EdgeFrom(D, r, i, to) ==>
      Has(D, to) && (to.round > r + 1 || (r == |D| - 1 && to == MatchId(W + 1, 1)))
  }

  /** One routing edge, with the extra facts the ranking needs: GF1 leads
      only to GF2 and GF2 nowhere. */
  lemma EdgeAt(D: Rounds, A: Rounds, D1: Rounds, P: Rounds, k: nat, rem: nat, W: nat,
               order: seq<int>, sel: seq<int>, r: nat, i: nat, to: MatchId)
    requires Built(D, A, D1, P, k, rem, W, order, sel)
    requires r < |D| && i < |D[r]| && EdgeFrom(D, r, i, to)
    ensures Has(D, to)
    ensures to.round > r + 1 || (r == |D| - 1 && to == MatchId(W + 1, 1))
    ensures r == W ==> to == MatchId(W + 2, 1)
    ensures r != W + 1
  {
    if r < W {
      WinnerEdge(D, A, D1, P, k, rem, W, order, sel, r, i);
    } else if r == W {
      FinalsEdge(D, A, D1, P, k, rem, W, order, sel);
    } else if r == W + 1 {
      FinalsEdge(D, A, D1, P, k, rem, W, order, sel);
      assert false;
    } else {
      LoserEdge(D, A, D1, P, k, rem, W, order, sel, r, i);
    }
  }

  lemma DoubleForward(n: nat, r: nat, i: nat, to: MatchId)
    requires n >= 4
    ensures DoubleElim.DoubleElim(n).Ok?
    ensures Forward(DoubleElim.DoubleElim(n).value, Top(n), r, i, to)
  {
    var D, A, D1, P, sel := Pieces(n);
    if r < |D| && i < |D[r]| && EdgeFrom(D, r, i, to) {
      EdgeAt(D, A, D1, P, Power(n), Rem(n), Top(n), Order(n), sel, r, i, to);
    }
  }

  /** Rank of round r in an arena of B rounds whose grand finals are rounds
      W + 1 and W + 2: the grand finals rank above every other round, GF2
      above GF1, and every other round ranks by its number. */
  function DRank(W: nat, B: nat, r: nat): nat
  {
    if r == W + 1 then B + 1 else if r == W + 2 then B + 2 else r
  }

  /** Every edge climbs in that ranking. */
  ghost predicate DRanked(D: Rounds, W: nat)
  {
    RankedEdges(D, (r: nat) => DRank(W, |D|, r))
  }

  lemma RankedOf(D: Rounds, A: Rounds, D1: Rounds, P: Rounds, k: nat, rem: nat, W: nat,
                 order: seq<int>, sel: seq<int>)
    requires Built(D, A, D1, P, k, rem, W, order, sel)
    ensures DRanked(D, W)
  {
    var rank := (r: nat) => DRank(W, |D|, r);
    forall r, i, to | 0 <= r < |D| && 0 <= i < |D[r]| && EdgeFrom(D, r, i, to)
      ensures Has(D, to) && rank(r + 1) < rank(to.round)
    {
      EdgeAt(D, A, D1, P, k, rem, W, order, sel, r, i, to);
    }
  }

  /** The routing graph is acyclic even with the back edge to GF1: ranking
      the grand finals above every other round makes every edge climb. */
  lemma DoubleAcyclic(n: nat)
    requires n >= 4
    ensures DoubleElim.DoubleElim(n).Ok?
    ensures DRanked(DoubleElim.DoubleElim(n).value, Top(n))
  {
    var D, A, D1, P, sel := Pieces(n);
    RankedOf(D, A, D1, P, Power(n), Rem(n), Top(n), Order(n), sel);
  }

  /** A walk along winner and loser paths never returns to its start. */
  ghost predicate NoReturn(D: Rounds, w: seq<MatchId>)
  {
    IsWalk(D, w) && |w| >= 2 ==> w[0] != w[|w| - 1]
  }

  lemma NoReturnOf(D: Rounds, W: nat, w: seq<MatchId>)
    requires DRanked(D, W)
    ensures NoReturn(D, w)
  {
    if IsWalk(D, w) && |w| >= 2 {
      RankedWalkRises(D, (r: nat) => DRank(W, |D|, r), w);
    }
  }

  lemma DoubleNoCycle(n: nat, w: seq<MatchId>)
    requires n >= 4
    ensures DoubleElim.DoubleElim(n).Ok?
    ensures NoReturn(DoubleElim.DoubleElim(n).value, w)
  {
    DoubleAcyclic(n);
    NoReturnOf(DoubleElim.DoubleElim(n).value, Top(n), w);
  }
}
