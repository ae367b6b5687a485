/** The winner's-to-loser's drops of double elimination
    (lib/Algorithms.js:192-279): they never raise, they touch nothing but the
    loser paths of winner's-bracket matches, every loser path they set leads
    to an existing match of the loser's bracket (some may stay unset), and
    from the loop of lines 268-279 on, winner round x drops through
    `loserFill` with fill count x - 1. */
module DoubleDrops {
  import opened Base
  import opened Arena
  import opened Counting
  import Seeding
  import opened DoubleElim

  /** Two arenas with the same rounds of the same sizes. */
  ghost predicate SameShape(a: Rounds, b: Rounds)
  {
    |b| == |a| && forall j :: 0 <= j < |a| ==> |b[j]| == |a[j]|
  }

  /** A loser path that is unset, or leads to an existing match of round lo
      or later. */
  predicate LossOk(rs: Rounds, o: Option<MatchId>, lo: nat)
  {
    o.None? || (Has(rs, o.value) && o.value.round >= lo)
  }

  /** b differs from a at most in loser paths of rounds 1..wmax, and every
      changed loser path is acceptable. */
  ghost predicate LossOnly(a: Rounds, b: Rounds, wmax: nat, lo: nat)
  {
    && SameShape(a, b)
    && forall j, i :: 0 <= j < |a| && 0 <= i < |a[j]| ==>
         && b[j][i] == a[j][i].(loss := b[j][i].loss)
         && (b[j][i].loss == a[j][i].loss || (j < wmax && LossOk(b, b[j][i].loss, lo)))
  }

  lemma LossOnlySame(a: Rounds, wmax: nat, lo: nat)
    ensures LossOnly(a, a, wmax, lo)
  {
  }

  lemma LossOnlyTrans(a: Rounds, b: Rounds, c: Rounds, wmax: nat, lo: nat)
    requires LossOnly(a, b, wmax, lo) && LossOnly(b, c, wmax, lo)
    ensures LossOnly(a, c, wmax, lo)
  {
    forall j, i | 0 <= j < |a| && 0 <= i < |a[j]|
      ensures c[j][i] == a[j][i].(loss := c[j][i].loss)
      ensures c[j][i].loss == a[j][i].loss || (j < wmax && LossOk(c, c[j][i].loss, lo))
    {
      assert b[j][i] == a[j][i].(loss := b[j][i].loss);
      assert c[j][i] == b[j][i].(loss := c[j][i].loss);
      if c[j][i].loss == b[j][i].loss && b[j][i].loss != a[j][i].loss {
        var o := b[j][i].loss;
        assert LossOk(b, o, lo);
        if o.Some? {
          assert Has(c, o.value);
        }
      }
    }
  }

  /** Round c is round a with the loser path of match i set to `to`. */
  ghost predicate OneLoss(a: Round, c: Round, i: nat, to: Option<MatchId>)
  {
    && |c| == |a|
    && i < |a|
    && c[i] == a[i].(loss := to)
    && forall x :: 0 <= x < |a| && x != i ==> c[x] == a[x]
  }

  /** Setting one loser path of round w <= wmax to an acceptable target. */
  lemma SetLossOnly(rs: Rounds, w: nat, number: int, to: Option<MatchId>, line: nat, wmax: nat, lo: nat)
    requires Find(rs, w, number).Some?
    requires w <= wmax && LossOk(rs, to, lo)
    ensures SetLoss(rs, w, number, to, line).Ok?
    ensures var b := SetLoss(rs, w, number, to, line).value;
      && LossOnly(rs, b, wmax, lo)
      && (forall j :: 0 <= j < |rs| && j != w - 1 ==> b[j] == rs[j])
      && OneLoss(rs[w - 1], b[w - 1], number - 1, to)
  {
    var b: Rounds := SetLoss(rs, w, number, to, line).value;
    forall j, i | 0 <= j < |rs| && 0 <= i < |rs[j]|
      ensures b[j][i] == rs[j][i].(loss := b[j][i].loss)
      ensures b[j][i].loss == rs[j][i].loss || (j < wmax && LossOk(b, b[j][i].loss, lo))
    {
      if to.Some? {
        assert Has(b, to.value);
      }
    }
  }

  // ---------------------------------------------------------------------------
  // One loser per loser match (lines 216-219, 274-277)

  /** Conditions for the losers of winner round w to fill loser round l, one
      per loser match, in the order `fill`. */
  ghost predicate EachFits(rs: Rounds, w: nat, l: nat, fill: seq<int>, wmax: nat, lo: nat)
  {
    && 1 <= w <= wmax < lo <= l <= |rs|
    && w <= |rs|
    && |rs[l - 1]| <= |fill|
    && Distinct(fill)
    && (forall p :: 0 <= p < |rs[l - 1]| ==> 1 <= fill[p] <= |rs[w - 1]|)
  }

  /** No fill entry at positions q..cnt-1 names winner match i + 1. */
  ghost predicate Untouched(fill: seq<int>, q: nat, cnt: nat, i: nat)
  {
    forall p :: q <= p < cnt && p < |fill| ==> fill[p] != i + 1
  }

  /** Round c is round a once loser matches q..cnt-1 of round l have been
      filled from a in the order `fill`: match p receives the loser of
      winner match fill[p], and no other match of a changes. */
  ghost predicate RoundDone(a: Round, c: Round, l: nat, fill: seq<int>, q: nat, cnt: nat)
  {
    && |c| == |a|
    && cnt <= |fill|
    && (forall p :: q <= p < cnt ==> 1 <= fill[p] <= |a| && c[fill[p] - 1].loss == Some(MatchId(l, p + 1)))
    && (forall i :: 0 <= i < |a| && Untouched(fill, q, cnt, i) ==> c[i] == a[i])
  }

  /** What DropEach from loser match q on leaves behind. */
  ghost predicate EachDone(rs: Rounds, b: Rounds, w: nat, l: nat, fill: seq<int>, q: nat, wmax: nat, lo: nat)
  {
    && EachFits(rs, w, l, fill, wmax, lo)
    && LossOnly(rs, b, wmax, lo)
    && (forall j :: 0 <= j < |rs| && j != w - 1 ==> b[j] == rs[j])
    && RoundDone(rs[w - 1], b[w - 1], l, fill, q, |rs[l - 1]|)
  }

  lemma DropEachStep(rs: Rounds, rs1: Rounds, b: Rounds, w: nat, l: nat, fill: seq<int>, q: nat, line: nat, wmax: nat, lo: nat)
    requires EachFits(rs, w, l, fill, wmax, lo) && q < |rs[l - 1]|
    requires SetLoss(rs, w, fill[q], Some(MatchId(l, q + 1)), line) == Ok(rs1)
    requires EachDone(rs1, b, w, l, fill, q + 1, wmax, lo)
    ensures EachDone(rs, b, w, l, fill, q, wmax, lo)
  {
    SetLossOnly(rs, w, fill[q], Some(MatchId(l, q + 1)), line, wmax, lo);
    LossOnlyTrans(rs, rs1, b, wmax, lo);
    var cnt := |rs[l - 1]|;
    assert rs1[l - 1] == rs[l - 1];
    assert Untouched(fill, q + 1, cnt, fill[q] - 1);
    forall i | 0 <= i < |rs[w - 1]| && Untouched(fill, q, cnt, i)
      ensures b[w - 1][i] == rs[w - 1][i]
    {
      assert fill[q] != i + 1;
      assert Untouched(fill, q + 1, cnt, i);
    }
  }

  /** One turn of lines 216-219: loser match q takes the loser of winner
      match fill[q], and the rest of the loop runs on the arena after it. */
  lemma EachTurn(rs: Rounds, w: nat, l: nat, fill: seq<int>, q: nat, line: nat, wmax: nat, lo: nat) returns (rs1: Rounds)
    requires EachFits(rs, w, l, fill, wmax, lo) && q < |rs[l - 1]|
    ensures SetLoss(rs, w, fill[q], Some(MatchId(l, q + 1)), line) == Ok(rs1)
    ensures EachFits(rs1, w, l, fill, wmax, lo)
    ensures |rs1[l - 1]| == |rs[l - 1]|
    ensures DropEach(rs, w, l, fill, q, line) == DropEach(rs1, w, l, fill, q + 1, line)
  {
    var to := Some(MatchId(l, q + 1));
    SetLossOnly(rs, w, fill[q], to, line, wmax, lo);
    rs1 := SetLoss(rs, w, fill[q], to, line).value;
    assert rs1[l - 1] == rs[l - 1];
  }

  /** Lines 216-219 from loser match q on never raise. */
  lemma {:induction false} EachOk(rs: Rounds, w: nat, l: nat, fill: seq<int>, q: nat, line: nat, wmax: nat, lo: nat)
    requires EachFits(rs, w, l, fill, wmax, lo)
    ensures DropEach(rs, w, l, fill, q, line).Ok?
    decreases |rs[l - 1]| - q
  {
    if q < |rs[l - 1]| {
      var rs1 := EachTurn(rs, w, l, fill, q, line, wmax, lo);
      EachOk(rs1, w, l, fill, q + 1, line, wmax, lo);
    }
  }

  /** From loser match q on, match p of round l receives the loser of winner
      match fill[p]; no other match changes. */
  lemma {:induction false} EachRun(rs: Rounds, b: Rounds, w: nat, l: nat, fill: seq<int>, q: nat, line: nat, wmax: nat, lo: nat)
    requires EachFits(rs, w, l, fill, wmax, lo)
    requires DropEach(rs, w, l, fill, q, line) == Ok(b)
    ensures EachDone(rs, b, w, l, fill, q, wmax, lo)
    decreases |rs[l - 1]| - q
  {
    if q >= |rs[l - 1]| {
      LossOnlySame(rs, wmax, lo);
    } else {
      var rs1 := EachTurn(rs, w, l, fill, q, line, wmax, lo);
      EachRun(rs1, b, w, l, fill, q + 1, line, wmax, lo);
      DropEachStep(rs, rs1, b, w, l, fill, q, line, wmax, lo);
    }
  }

  lemma DropEachEffect(rs: Rounds, w: nat, l: nat, fill: seq<int>, q: nat, line: nat, wmax: nat, lo: nat)
    requires EachFits(rs, w, l, fill, wmax, lo)
    ensures DropEach(rs, w, l, fill, q, line).Ok?
    ensures EachDone(rs, DropEach(rs, w, l, fill, q, line).value, w, l, fill, q, wmax, lo)
  {
    EachOk(rs, w, l, fill, q, line, wmax, lo);
    EachRun(rs, DropEach(rs, w, l, fill, q, line).value, w, l, fill, q, line, wmax, lo);
  }

  // ---------------------------------------------------------------------------
  // Two losers per loser match (lines 202-209)

  ghost predicate PairsFits(rs: Rounds, w: nat, l: nat, first: seq<int>, wmax: nat, lo: nat)
  {
    && 1 <= w <= wmax < lo <= l <= |rs|
    && w <= |rs|
    && 2 * |rs[l - 1]| <= |first|
    && Distinct(first)
    && (forall p :: 0 <= p < 2 * |rs[l - 1]| ==> 1 <= first[p] <= |rs[w - 1]|)
  }

  /** The two winner matches whose losers meet in loser match m. */
  function PairOne(first: seq<int>, m: nat): int
    requires 2 * m + 1 < |first|
  {
    first[2 * m]
  }

  function PairTwo(first: seq<int>, m: nat): int
    requires 2 * m + 1 < |first|
  {
    first[2 * m + 1]
  }

  /** Round c is round a once loser matches q..cnt-1 of round l have each
      received the losers of winner matches first[2m] and first[2m + 1]. */
  ghost predicate PairRoundDone(a: Round, c: Round, l: nat, first: seq<int>, q: nat, cnt: nat)
  {
    && |c| == |a|
    && 2 * cnt <= |first|
    && (forall m :: q <= m < cnt ==>
          && 1 <= PairOne(first, m) <= |a| && c[PairOne(first, m) - 1].loss == Some(MatchId(l, m + 1))
          && 1 <= PairTwo(first, m) <= |a| && c[PairTwo(first, m) - 1].loss == Some(MatchId(l, m + 1)))
    && (forall i :: 0 <= i < |a| && Untouched(first, 2 * q, 2 * cnt, i) ==> c[i] == a[i])
  }

  ghost predicate PairsDone(rs: Rounds, b: Rounds, w: nat, l: nat, first: seq<int>, q: nat, wmax: nat, lo: nat)
  {
    && PairsFits(rs, w, l, first, wmax, lo)
    && LossOnly(rs, b, wmax, lo)
    && (forall j :: 0 <= j < |rs| && j != w - 1 ==> b[j] == rs[j])
    && PairRoundDone(rs[w - 1], b[w - 1], l, first, q, |rs[l - 1]|)
  }

  /** The arena after one turn of the `forEach` of lines 202-209. */
  function PairTurned(rs: Rounds, w: nat, l: nat, first: seq<int>, q: nat, wmax: nat, lo: nat): (rs2: Rounds)
    requires PairsFits(rs, w, l, first, wmax, lo) && q < |rs[l - 1]|
    ensures SameShape(rs, rs2)
  {
    var to := Some(MatchId(l, q + 1));
    var x, y := MatchId(w, first[2 * q]), MatchId(w, first[2 * q + 1]);
    var rs1 := Put(rs, x, Get(rs, x).(loss := to));
    Put(rs1, y, Get(rs1, y).(loss := to))
  }

  lemma DropPairsStep(rs: Rounds, b: Rounds, w: nat, l: nat, first: seq<int>, q: nat, wmax: nat, lo: nat)
    requires PairsFits(rs, w, l, first, wmax, lo) && q < |rs[l - 1]|
    requires PairsDone(PairTurned(rs, w, l, first, q, wmax, lo), b, w, l, first, q + 1, wmax, lo)
    ensures PairsDone(rs, b, w, l, first, q, wmax, lo)
  {
    var rs2 := PairTurnedLosses(rs, w, l, first, q, wmax, lo);
    LossOnlyTrans(rs, rs2, b, wmax, lo);
    PairRoundStep(rs[w - 1], rs2[w - 1], b[w - 1], l, first, q, |rs[l - 1]|);
  }

  /** Round by round: the pair of matches one turn sets stays set, as the
      later turns never name them again. */
  lemma PairRoundStep(a: Round, m: Round, c: Round, l: nat, first: seq<int>, q: nat, cnt: nat)
    requires q < cnt && 2 * cnt <= |first| && Distinct(first)
    requires TwoLosses(a, m, first[2 * q], first[2 * q + 1], Some(MatchId(l, q + 1)))
    requires PairRoundDone(m, c, l, first, q + 1, cnt)
    ensures PairRoundDone(a, c, l, first, q, cnt)
  {
    assert Untouched(first, 2 * q + 2, 2 * cnt, first[2 * q] - 1);
    assert Untouched(first, 2 * q + 2, 2 * cnt, first[2 * q + 1] - 1);
    assert PairOne(first, q) == first[2 * q] && PairTwo(first, q) == first[2 * q + 1];
    forall i | 0 <= i < |a| && Untouched(first, 2 * q, 2 * cnt, i)
      ensures c[i] == a[i]
    {
      assert first[2 * q] != i + 1 && first[2 * q + 1] != i + 1;
      assert Untouched(first, 2 * q + 2, 2 * cnt, i);
    }
  }

  /** Round c is round a with the loser paths of the two different matches
      x and y set to `to`. */
  ghost predicate TwoLosses(a: Round, c: Round, x: int, y: int, to: Option<MatchId>)
  {
    && |c| == |a|
    && 1 <= x <= |a| && 1 <= y <= |a| && x != y
    && c[x - 1].loss == to && c[y - 1].loss == to
    && forall i :: 0 <= i < |a| && i + 1 != x && i + 1 != y ==> c[i] == a[i]
  }

  /** One turn sets the loser paths of winner matches first[2q] and
      first[2q + 1], which differ, and changes nothing else. */
  lemma PairTurnedLosses(rs: Rounds, w: nat, l: nat, first: seq<int>, q: nat, wmax: nat, lo: nat) returns (rs2: Rounds)
    requires PairsFits(rs, w, l, first, wmax, lo) && q < |rs[l - 1]|
    ensures rs2 == PairTurned(rs, w, l, first, q, wmax, lo)
    ensures
      && LossOnly(rs, rs2, wmax, lo)
      && (forall j :: 0 <= j < |rs| && j != w - 1 ==> rs2[j] == rs[j])
      && TwoLosses(rs[w - 1], rs2[w - 1], first[2 * q], first[2 * q + 1], Some(MatchId(l, q + 1)))
  {
    rs2 := PairTurned(rs, w, l, first, q, wmax, lo);
    var to := Some(MatchId(l, q + 1));
    SetLossOnly(rs, w, first[2 * q], to, 204, wmax, lo);
    var rs1: Rounds := SetLoss(rs, w, first[2 * q], to, 204).value;
    SetLossOnly(rs1, w, first[2 * q + 1], to, 207, wmax, lo);
    assert rs2 == SetLoss(rs1, w, first[2 * q + 1], to, 207).value;
    LossOnlyTrans(rs, rs1, rs2, wmax, lo);
    assert first[2 * q] != first[2 * q + 1];
  }

  /** One turn of the `forEach` of lines 202-209, as seen by the recursion:
      the rest of the loop runs on the arena after the turn. */
  lemma PairTurn(rs: Rounds, w: nat, l: nat, first: seq<int>, q: nat, d: nat, wmax: nat, lo: nat) returns (rs2: Rounds)
    requires PairsFits(rs, w, l, first, wmax, lo) && q < |rs[l - 1]| && d == 2 * q
    ensures rs2 == PairTurned(rs, w, l, first, q, wmax, lo)
    ensures PairsFits(rs2, w, l, first, wmax, lo)
    ensures |rs2[l - 1]| == |rs[l - 1]|
    ensures DropPairs(rs, w, l, first, q, d) == DropPairs(rs2, w, l, first, q + 1, d + 2)
  {
    rs2 := PairTurned(rs, w, l, first, q, wmax, lo);
  }

  lemma PairsBase(rs: Rounds, w: nat, l: nat, first: seq<int>, q: nat, d: nat, wmax: nat, lo: nat)
    requires PairsFits(rs, w, l, first, wmax, lo) && q >= |rs[l - 1]|
    ensures DropPairs(rs, w, l, first, q, d) == Ok(rs)
    ensures PairsDone(rs, rs, w, l, first, q, wmax, lo)
  {
    LossOnlySame(rs, wmax, lo);
  }

  /** From loser match q on, loser match p of round l receives the losers of
      winner matches first[2p] and first[2p + 1]; nothing else changes. */
  lemma {:induction false} DropPairsEffect(rs: Rounds, w: nat, l: nat, first: seq<int>, q: nat, d: nat, wmax: nat, lo: nat)
    requires PairsFits(rs, w, l, first, wmax, lo) && d == 2 * q
    ensures DropPairs(rs, w, l, first, q, d).Ok?
    ensures PairsDone(rs, DropPairs(rs, w, l, first, q, d).value, w, l, first, q, wmax, lo)
    decreases |rs[l - 1]| - q
  {
    if q >= |rs[l - 1]| {
      PairsBase(rs, w, l, first, q, d, wmax, lo);
    } else {
      var rs2 := PairTurn(rs, w, l, first, q, d, wmax, lo);
      DropPairsEffect(rs2, w, l, first, q + 1, d + 2, wmax, lo);
      DropPairsStep(rs, DropPairs(rs2, w, l, first, q + 1, d + 2).value, w, l, first, q, wmax, lo);
    }
  }

  // ---------------------------------------------------------------------------
  // Redirected drops (lines 227-243 and 254-264)

  /** b differs from rs only in loser paths of round w, acceptably set. */
  ghost predicate RoundOnly(rs: Rounds, b: Rounds, w: nat, wmax: nat, lo: nat)
  {
    && LossOnly(rs, b, wmax, lo)
    && (forall j :: 0 <= j < |rs| && j != w - 1 ==> b[j] == rs[j])
  }

  lemma RoundOnlyTrans(a: Rounds, b: Rounds, c: Rounds, w: nat, wmax: nat, lo: nat)
    requires RoundOnly(a, b, w, wmax, lo) && RoundOnly(b, c, w, wmax, lo)
    ensures RoundOnly(a, c, w, wmax, lo)
  {
    LossOnlyTrans(a, b, c, wmax, lo);
  }

  /** One turn of lines 229-235: a redirect to round l - 1 or a plain drop
      into round l; either way the target is acceptable. */
  lemma LessStepOk(rs: Rounds, w: nat, l: nat, number: int, q: nat, e: nat, lessCopy: seq<int>,
                   redirect: nat, plain: nat, wmax: nat, lo: nat)
    requires 2 <= l <= |rs| && q < |rs[l - 1]|
    requires Find(rs, w, number).Some?
    requires w <= wmax && lo <= l - 1
    ensures LessStep(rs, w, l, number, q, e, lessCopy, redirect, plain).Ok?
    ensures RoundOnly(rs, LessStep(rs, w, l, number, q, e, lessCopy, redirect, plain).value.0, w, wmax, lo)
  {
    if q + 1 in lessCopy {
      SetLossOnly(rs, w, number, MatchAt(rs, l - 1, e), redirect, wmax, lo);
    } else {
      SetLossOnly(rs, w, number, Some(MatchId(l, q + 1)), plain, wmax, lo);
    }
  }

  ghost predicate LessFits(rs: Rounds, w: nat, l: nat, second: seq<int>, wmax: nat, lo: nat)
  {
    && 1 <= w <= wmax < lo <= l - 1
    && 2 <= l <= |rs|
    && w <= |rs|
    && 2 * |rs[l - 1]| <= |second|
    && (forall p :: 0 <= p < 2 * |rs[l - 1]| ==> 1 <= second[p] <= |rs[w - 1]|)
  }

  /** One turn of the `forEach` of lines 228-243. */
  lemma LessTurn(rs: Rounds, w: nat, l: nat, second: seq<int>, q: nat, d: nat, e: nat, lessCopy: seq<int>,
                 wmax: nat, lo: nat) returns (rs2: Rounds, e2: nat, lc2: seq<int>)
    requires LessFits(rs, w, l, second, wmax, lo) && d == 2 * q && q < |rs[l - 1]|
    ensures LessFits(rs2, w, l, second, wmax, lo)
    ensures DropLess(rs, w, l, second, q, d, e, lessCopy) == DropLess(rs2, w, l, second, q + 1, d + 2, e2, lc2)
    ensures RoundOnly(rs, rs2, w, wmax, lo)
  {
    LessStepOk(rs, w, l, second[d], q, e, lessCopy, 231, 234, wmax, lo);
    var r1 := LessStep(rs, w, l, second[d], q, e, lessCopy, 231, 234).value;
    var rs1: Rounds := r1.0;
    assert rs1[l - 1] == rs[l - 1];
    LessStepOk(rs1, w, l, second[d + 1], q, r1.1, r1.2, 238, 241, wmax, lo);
    var r2 := LessStep(rs1, w, l, second[d + 1], q, r1.1, r1.2, 238, 241).value;
    rs2, e2, lc2 := r2.0, r2.1, r2.2;
    assert rs2[l - 1] == rs[l - 1];
    RoundOnlyTrans(rs, rs1, rs2, w, wmax, lo);
  }

  /** Lines 228-243 from loser match q on never raise: the two winner
      matches taken per loser match always exist. */
  lemma {:induction false} DropLessOk(rs: Rounds, w: nat, l: nat, second: seq<int>, q: nat, d: nat, e: nat,
                                      lessCopy: seq<int>, wmax: nat, lo: nat)
    requires LessFits(rs, w, l, second, wmax, lo) && d == 2 * q
    ensures DropLess(rs, w, l, second, q, d, e, lessCopy).Ok?
    ensures RoundOnly(rs, DropLess(rs, w, l, second, q, d, e, lessCopy).value, w, wmax, lo)
    decreases |rs[l - 1]| - q
  {
    if q >= |rs[l - 1]| {
      LossOnlySame(rs, wmax, lo);
    } else {
      var rs2, e2, lc2 := LessTurn(rs, w, l, second, q, d, e, lessCopy, wmax, lo);
      DropLessOk(rs2, w, l, second, q + 1, d + 2, e2, lc2, wmax, lo);
      RoundOnlyTrans(rs, rs2, DropLess(rs2, w, l, second, q + 1, d + 2, e2, lc2).value, w, wmax, lo);
    }
  }

  /** How many of the loser matches q + 1 .. cnt are in `great`. */
  function InCount(great: seq<int>, q: nat, cnt: nat): nat
    decreases cnt - q
  {
    if q >= cnt then 0 else (if q + 1 in great then 1 else 0) + InCount(great, q + 1, cnt)
  }

  /** Counted against a sequence E and a threshold T that decide membership
      in `great`, InCount is the number of entries of E above T. */
  lemma {:induction false} InCountAbove(great: seq<int>, E: seq<int>, T: int, q: nat, cnt: nat)
    requires q <= cnt <= |E|
    requires forall x :: q <= x < cnt ==> (x + 1 in great <==> E[x] > T)
    ensures InCount(great, q, cnt) == CountAbove(E[q..cnt], T)
    decreases cnt - q
  {
    if q < cnt {
      InCountAbove(great, E, T, q + 1, cnt);
      assert E[q..cnt] == [E[q]] + E[q + 1..cnt];
      CountAboveAppend([E[q]], E[q + 1..cnt], T);
      CountAboveSingle(E[q], T);
    } else {
      assert E[q..cnt] == [];
    }
  }

  /** Conditions for lines 254-264 from loser match q on, d preliminary
      matches used so far: a loser match in `great` takes two preliminary
      losers, any other one. */
  ghost predicate GreatFits(rs: Rounds, w: nat, l: nat, first: seq<int>, great: seq<int>, q: nat, d: nat, wmax: nat, lo: nat)
  {
    && 1 <= w <= wmax < lo <= l - 1
    && 2 <= l <= |rs|
    && w <= |rs|
    && d + (|rs[l - 1]| - q) + InCount(great, q, |rs[l - 1]|) <= |first|
    && (forall p :: 0 <= p < |first| ==> 1 <= first[p] <= |rs[w - 1]|)
  }

  /** One turn of the `forEach` of lines 254-264. */
  lemma GreatTurn(rs: Rounds, w: nat, l: nat, first: seq<int>, great: seq<int>, q: nat, d: nat, e: nat,
                  wmax: nat, lo: nat) returns (rs2: Rounds, d2: nat, e2: nat)
    requires GreatFits(rs, w, l, first, great, q, d, wmax, lo) && q < |rs[l - 1]|
    ensures GreatFits(rs2, w, l, first, great, q + 1, d2, wmax, lo)
    ensures |rs2[l - 1]| == |rs[l - 1]|
    ensures DropGreat(rs, w, l, first, great, q, d, e) == DropGreat(rs2, w, l, first, great, q + 1, d2, e2)
    ensures RoundOnly(rs, rs2, w, wmax, lo)
  {
    if q + 1 in great {
      var o := MatchAt(rs, l - 1, e);
      SetLossOnly(rs, w, first[d], o, 258, wmax, lo);
      var rs1: Rounds := SetLoss(rs, w, first[d], o, 258).value;
      SetLossOnly(rs1, w, first[d + 1], o, 261, wmax, lo);
      rs2 := SetLoss(rs1, w, first[d + 1], o, 261).value;
      d2, e2 := d + 2, if d != 0 then e + 1 else e;
      RoundOnlyTrans(rs, rs1, rs2, w, wmax, lo);
    } else {
      var to := Some(MatchId(l, q + 1));
      SetLossOnly(rs, w, first[d], to, 262, wmax, lo);
      rs2 := SetLoss(rs, w, first[d], to, 262).value;
      d2, e2 := d + 1, e;
    }
  }

  lemma GreatBase(rs: Rounds, w: nat, l: nat, first: seq<int>, great: seq<int>, q: nat, d: nat, e: nat,
                  wmax: nat, lo: nat)
    requires GreatFits(rs, w, l, first, great, q, d, wmax, lo) && q >= |rs[l - 1]|
    ensures DropGreat(rs, w, l, first, great, q, d, e) == Ok(rs)
    ensures RoundOnly(rs, rs, w, wmax, lo)
  {
    LossOnlySame(rs, wmax, lo);
  }

  /** Lines 254-264 from loser match q on never raise: the preliminary matches
      taken, one or two per loser match, always exist. */
  lemma {:induction false} DropGreatOk(rs: Rounds, w: nat, l: nat, first: seq<int>, great: seq<int>, q: nat, d: nat, e: nat,
                                       wmax: nat, lo: nat)
    requires GreatFits(rs, w, l, first, great, q, d, wmax, lo)
    ensures DropGreat(rs, w, l, first, great, q, d, e).Ok?
    ensures RoundOnly(rs, DropGreat(rs, w, l, first, great, q, d, e).value, w, wmax, lo)
    decreases |rs[l - 1]| - q
  {
    if q >= |rs[l - 1]| {
      GreatBase(rs, w, l, first, great, q, d, e, wmax, lo);
    } else {
      var rs2, d2, e2 := GreatTurn(rs, w, l, first, great, q, d, e, wmax, lo);
      DropGreatOk(rs2, w, l, first, great, q + 1, d2, e2, wmax, lo);
      RoundOnlyTrans(rs, rs2, DropGreat(rs2, w, l, first, great, q + 1, d2, e2).value, w, wmax, lo);
    }
  }

  // ---------------------------------------------------------------------------
  // The drop loop (lines 268-279)

  /** Loser round fed by winner round x when winner round i feeds round l. */
  function Fed(l: nat, i: nat, x: nat): nat
    requires i <= x
  {
    l + 2 * (x - i)
  }

  /** Winner round x exists and can fill loser round l, one loser per
      loser match. */
  ghost predicate RoundFeeds(rs: Rounds, x: nat, l: nat, lo: nat)
  {
    1 <= x <= |rs| && 1 <= l && lo <= l <= |rs| && |rs[l - 1]| <= |rs[x - 1]|
  }

  /** Every winner round from i to diff - 2 can fill the loser round it
      feeds, the first of which is l. */
  ghost predicate RestFits(rs: Rounds, i: nat, diff: nat, l: nat, wmax: nat, lo: nat)
  {
    && 1 <= i
    && diff <= wmax + 2
    && wmax < lo
    && forall x :: i <= x <= diff - 2 ==> RoundFeeds(rs, x, Fed(l, i, x), lo)
  }

  /** Round x of b is round x of rs with each loser match p of round l
      receiving the loser of winner match loserFill(|round x|, x - 1)[p]:
      the loop's fill count is x - 1 when it reaches winner round x. */
  ghost predicate RoundDropped(rs: Rounds, b: Rounds, x: nat, l: nat)
  {
    && 1 <= x <= |rs|
    && 1 <= l <= |rs|
    && |b| == |rs|
    && RoundDone(rs[x - 1], b[x - 1], l, Seeding.LoserFill(|rs[x - 1]|, x - 1), 0, |rs[l - 1]|)
  }

  /** What the drop loop from winner round i on leaves behind. */
  ghost predicate RestDone(rs: Rounds, b: Rounds, i: nat, diff: nat, l: nat, wmax: nat, lo: nat)
  {
    && RestFits(rs, i, diff, l, wmax, lo)
    && LossOnly(rs, b, wmax, lo)
    && (forall j :: 0 <= j < |rs| && !(i <= j + 1 <= diff - 2) ==> b[j] == rs[j])
    && (forall x :: i <= x <= diff - 2 ==> RoundDropped(rs, b, x, Fed(l, i, x)))
  }

  /** One turn of the drop loop: winner round i fills loser round lr + z. */
  lemma RestTurn(rs: Rounds, i: nat, diff: nat, lr: nat, z: nat, fc: nat, wmax: nat, lo: nat) returns (rs1: Rounds)
    requires RestFits(rs, i, diff, lr + z, wmax, lo) && i + 1 < diff
    ensures i <= |rs| && 1 <= lr + z <= |rs|
    ensures DropEach(rs, i, lr + z, Seeding.LoserFill(|rs[i - 1]|, fc), 0, 276) == Ok(rs1)
    ensures RestFits(rs1, i + 1, diff, (lr + 1) + (z + 1), wmax, lo)
    ensures DropRest(rs, i, diff, lr, z, fc) == DropRest(rs1, i + 1, diff, lr + 1, z + 1, fc + 1)
  {
    var l := lr + z;
    assert RoundFeeds(rs, i, Fed(l, i, i), lo);
    var fill := Seeding.LoserFill(|rs[i - 1]|, fc);
    EachOk(rs, i, l, fill, 0, 276, wmax, lo);
    rs1 := DropEach(rs, i, l, fill, 0, 276).value;
    FitsLater(rs, rs1, i, diff, l, wmax, lo);
  }

  /** A round that keeps every round's size still fits the later turns. */
  lemma FitsLater(rs: Rounds, rs1: Rounds, i: nat, diff: nat, l: nat, wmax: nat, lo: nat)
    requires RestFits(rs, i, diff, l, wmax, lo)
    requires |rs1| == |rs| && forall j :: 0 <= j < |rs| ==> |rs1[j]| == |rs[j]|
    ensures RestFits(rs1, i + 1, diff, l + 2, wmax, lo)
  {
    var i1, l1 := i + 1, l + 2;
    forall x | i1 <= x <= diff - 2
      ensures RoundFeeds(rs1, x, Fed(l1, i1, x), lo)
    {
      assert Fed(l1, i1, x) == Fed(l, i, x);
      assert RoundFeeds(rs, x, Fed(l, i, x), lo);
    }
  }

  lemma RestStep(rs: Rounds, rs1: Rounds, b: Rounds, i: nat, diff: nat, l: nat, l1: nat, fc: nat, wmax: nat, lo: nat)
    requires RestFits(rs, i, diff, l, wmax, lo) && i + 1 < diff && i <= |rs| && 1 <= l <= |rs| && l1 == l + 2
    requires fc + 1 == i
    requires DropEach(rs, i, l, Seeding.LoserFill(|rs[i - 1]|, fc), 0, 276) == Ok(rs1)
    requires RestDone(rs1, b, i + 1, diff, l1, wmax, lo)
    ensures RestDone(rs, b, i, diff, l, wmax, lo)
  {
    assert RoundFeeds(rs, i, Fed(l, i, i), lo);
    DropEachEffect(rs, i, l, Seeding.LoserFill(|rs[i - 1]|, fc), 0, 276, wmax, lo);
    LossOnlyTrans(rs, rs1, b, wmax, lo);
    RestHere(rs, rs1, b, i, l, fc, wmax, lo);
    assert Fed(l, i, i) == l;
    RestLater(rs, rs1, b, i, i + 1, diff, l, l1);
  }

  /** The round this turn filled is dropped in b, which keeps that round. */
  lemma RestHere(rs: Rounds, rs1: Rounds, b: Rounds, i: nat, l: nat, fc: nat, wmax: nat, lo: nat)
    requires 1 <= i <= |rs| && fc + 1 == i
    requires EachDone(rs, rs1, i, l, Seeding.LoserFill(|rs[i - 1]|, fc), 0, wmax, lo)
    requires |b| == |rs| && b[i - 1] == rs1[i - 1]
    ensures RoundDropped(rs, b, i, l)
  {
    assert i - 1 == fc;
  }

  /** The later winner rounds, untouched by this turn, are dropped in b as
      they are in the rest of the loop. */
  lemma RestLater(rs: Rounds, rs1: Rounds, b: Rounds, i: nat, i1: nat, diff: nat, l: nat, l1: nat)
    requires 1 <= i < l && i1 == i + 1 && l1 == l + 2 && |rs1| == |rs|
    requires forall j :: 0 <= j < |rs| && j != i - 1 ==> rs1[j] == rs[j]
    requires forall x :: i1 <= x <= diff - 2 ==> RoundDropped(rs1, b, x, Fed(l1, i1, x))
    ensures forall x :: i < x <= diff - 2 ==> RoundDropped(rs, b, x, Fed(l, i, x))
  {
    forall x | i < x <= diff - 2
      ensures RoundDropped(rs, b, x, Fed(l, i, x))
    {
      assert Fed(l1, i1, x) == Fed(l, i, x);
      assert RoundDropped(rs1, b, x, Fed(l1, i1, x));
      assert rs1[x - 1] == rs[x - 1];
    }
  }

  lemma RestBase(rs: Rounds, i: nat, diff: nat, lr: nat, z: nat, fc: nat, wmax: nat, lo: nat)
    requires RestFits(rs, i, diff, lr + z, wmax, lo) && i + 1 >= diff
    ensures DropRest(rs, i, diff, lr, z, fc) == Ok(rs)
    ensures RestDone(rs, rs, i, diff, lr + z, wmax, lo)
  {
    LossOnlySame(rs, wmax, lo);
  }

  /** Lines 268-279 from winner round i on never raise; winner round x
      (i <= x <= diff - 2) drops into loser round lr + z + 2(x - i) through
      `loserFill` with fill count x - 1, and nothing else changes. */
  lemma {:induction false} DropRestEffect(rs: Rounds, i: nat, diff: nat, lr: nat, z: nat, fc: nat, wmax: nat, lo: nat)
    requires RestFits(rs, i, diff, lr + z, wmax, lo) && fc + 1 == i
    ensures DropRest(rs, i, diff, lr, z, fc).Ok?
    ensures RestDone(rs, DropRest(rs, i, diff, lr, z, fc).value, i, diff, lr + z, wmax, lo)
    decreases diff - i, 2
  {
    if i + 1 >= diff {
      RestBase(rs, i, diff, lr, z, fc, wmax, lo);
    } else {
      RestNext(rs, i, diff, lr, z, fc, wmax, lo);
    }
  }

  lemma {:induction false} RestNext(rs: Rounds, i: nat, diff: nat, lr: nat, z: nat, fc: nat, wmax: nat, lo: nat)
    requires RestFits(rs, i, diff, lr + z, wmax, lo) && i + 1 < diff && fc + 1 == i
    ensures DropRest(rs, i, diff, lr, z, fc).Ok?
    ensures RestDone(rs, DropRest(rs, i, diff, lr, z, fc).value, i, diff, lr + z, wmax, lo)
    decreases diff - i, 1
  {
    var rs1 := RestTurn(rs, i, diff, lr, z, fc, wmax, lo);
    RestFrom(rs, rs1, i, diff, lr, z, fc, wmax, lo);
  }

  /** The rest of the loop after the turn of winner round i. */
  lemma {:induction false} RestFrom(rs: Rounds, rs1: Rounds, i: nat, diff: nat, lr: nat, z: nat, fc: nat, wmax: nat, lo: nat)
    requires RestFits(rs, i, diff, lr + z, wmax, lo) && i + 1 < diff && fc + 1 == i
    requires i <= |rs| && 1 <= lr + z <= |rs|
    requires DropEach(rs, i, lr + z, Seeding.LoserFill(|rs[i - 1]|, fc), 0, 276) == Ok(rs1)
    requires RestFits(rs1, i + 1, diff, (lr + 1) + (z + 1), wmax, lo)
    ensures DropRest(rs1, i + 1, diff, lr + 1, z + 1, fc + 1).Ok?
    ensures RestDone(rs, DropRest(rs1, i + 1, diff, lr + 1, z + 1, fc + 1).value, i, diff, lr + z, wmax, lo)
    decreases diff - i, 0
  {
    DropRestEffect(rs1, i + 1, diff, lr + 1, z + 1, fc + 1, wmax, lo);
    RestStep(rs, rs1, DropRest(rs1, i + 1, diff, lr + 1, z + 1, fc + 1).value, i, diff, lr + z, (lr + 1) + (z + 1), fc, wmax, lo);
  }
}
