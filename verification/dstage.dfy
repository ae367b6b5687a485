/** The double-elimination arena once the grand finals and the fresh loser's
    rounds are in place (lib/Algorithms.js:160-191), before any drop is
    routed, and the two redirect lists read off round 2. */
module DoubleStages {
  import opened Base
  import opened Arena
  import opened Skeleton
  import opened Counting
  import Seeding
  import SingleElim
  import opened DoubleElim
  import opened DoublePrelim
  import opened LoserSizing

  /** The key of the single match of round r. */
  function Single(r: nat): MatchId
  {
    MatchId(r, 1)
  }

  /** The arena A after lines 160-191 for a winner's bracket P of W rounds and
      loser sizes LS: P with its final sending the winner to GF1 (round W+1),
      GF1 sending winner and loser to GF2 (round W+2), GF2 fresh, and one
      fresh round per loser size. */
  ghost predicate Arranged(A: Rounds, P: Rounds, W: nat, LS: seq<nat>)
  {
    && W >= 1
    && |P| == W
    && |P[W - 1]| == 1
    && |A| == W + 2 + |LS|
    && (forall j :: 0 <= j < W - 1 ==> A[j] == P[j])
    && A[W - 1] == [P[W - 1][0].(win := Some(Single(W + 1)))]
    && A[W] == [NewMatch(W + 1, 1).(win := Some(Single(W + 2)), loss := Some(Single(W + 2)))]
    && A[W + 1] == NewRound(W + 2, 1)
    && (forall q :: 0 <= q < |LS| ==> A[W + 2 + q] == NewRound(W + 3 + q, LS[q]))
  }

  /** The two turns of lines 163-170 on a bracket whose last round is its
      single final. */
  lemma GrandFinalsIs(P: Rounds, W: nat)
    requires W >= 1 && |P| == W && |P[W - 1]| == 1
    ensures GrandFinals(P).Ok?
    ensures var G := GrandFinals(P).value;
      && |G| == W + 2
      && (forall j :: 0 <= j < W - 1 ==> G[j] == P[j])
      && G[W - 1] == [P[W - 1][0].(win := Some(Single(W + 1)))]
      && G[W] == [NewMatch(W + 1, 1).(win := Some(Single(W + 2)), loss := Some(Single(W + 2)))]
      && G[W + 1] == NewRound(W + 2, 1)
  {
    var m := P[W - 1][0];
    var G1: Rounds := (P + [NewRound(W + 1, 1)])[W - 1 := [m.(win := Some(Single(W + 1)))]];
    assert P[W - 1] == [m];
    var m1 := m.(win := Some(Single(W + 1)), loss := m.loss);
    assert (P + [NewRound(W + 1, 1)])[W - 1][0 := m1] == [m.(win := Some(Single(W + 1)))];
    assert GrandFinal(P, false) == Ok(G1);
    assert G1[W] == [NewMatch(W + 1, 1)];
    var g := NewMatch(W + 1, 1).(win := Some(Single(W + 2)), loss := Some(Single(W + 2)));
    var G2: Rounds := (G1 + [NewRound(W + 2, 1)])[W := [g]];
    assert (G1 + [NewRound(W + 2, 1)])[W][0 := g] == [g];
    assert GrandFinal(G1, true) == Ok(G2);
    assert forall j :: 0 <= j < W - 1 ==> G2[j] == G1[j] == P[j];
  }

  /** Appending the loser rounds to the bracket with its grand finals. */
  lemma ArrangedFrom(P: Rounds, W: nat, LS: seq<nat>)
    requires W >= 1 && |P| == W && |P[W - 1]| == 1
    ensures GrandFinals(P).Ok?
    ensures Arranged(AppendRounds(GrandFinals(P).value, LS), P, W, LS)
  {
    GrandFinalsIs(P, W);
    var G := GrandFinals(P).value;
    var A := AppendRounds(G, LS);
    assert A[..W + 2] == G;
    forall j | 0 <= j < W + 2
      ensures A[j] == G[j]
    {
      assert A[j] == A[..W + 2][j];
    }
  }

  /** The winner's final of the written-out bracket is a single fresh match
      with nowhere to send its winner. */
  lemma PlainFinal(rs: Rounds, k: nat, rem: nat, f: nat, top: nat, order: seq<int>)
    requires DPlain(rs, k, rem, f, top, order)
    ensures top >= 2 && |rs[top - 1]| == 1 && rs[top - 1][0] == NewMatch(top, 1)
  {
    assert k + f - 2 - (top - 1) == 0;
    assert rs[top - 1][0] == FullMatch(top, 1, top);
  }

  lemma RoundedUnfold(n: nat)
    requires n >= 4
    ensures Prelims(n).Ok? && |Prelims(n).value| >= 2
    ensures var P := Prelims(n).value;
      Rounded(n) == match GrandFinals(P)
        case Err(e) => Err(e)
        case Ok(G) => Ok((AppendRounds(G, LoserSizes(Power(n), Rem(n))), Less(P[1]), Great(P[1])))
  {
    PrelimsShape(n);
    assert Power(n) >= 2;
  }

  /** Lines 160-191 never raise: the arena is arranged as above, with the
      redirect lists read off round 2 of the filled winner's bracket. */
  lemma RoundedShape(n: nat)
    requires n >= 4
    ensures Prelims(n).Ok? && |Prelims(n).value| >= 2 && DoublePlain(Prelims(n).value, n)
    ensures Power(n) >= 2
    ensures Rounded(n).Ok?
    ensures var P := Prelims(n).value;
      var (A, less, great) := Rounded(n).value;
      && Arranged(A, P, Top(n), LoserSizes(Power(n), Rem(n)))
      && less == Less(P[1]) && great == Great(P[1])
  {
    PrelimsShape(n);
    RoundedUnfold(n);
    var P := Prelims(n).value;
    PlainFinal(P, Power(n), Rem(n), FirstFull(Rem(n)), Top(n), Order(n));
    ArrangedFrom(P, Top(n), LoserSizes(Power(n), Rem(n)));
  }

  // ---------------------------------------------------------------------------
  // The redirect lists in full

  /** With rem <= h preliminary matches every one of them emptied a distinct
      round-2 slot at an odd position, so `less` has exactly rem entries,
      each a match number of the h/2-match round after round 2. */
  lemma LessAll(round: Round, cut: int, top: nat, order: seq<int>, h: nat, rem: nat)
    requires CutRound(round, cut, top, order, h) && |round| == h
    requires IsPermutation(order, 2 * h)
    requires 0 < rem <= h && cut == 2 * h - rem
    ensures |Less(round)| == rem
    ensures forall i :: 0 <= i < rem ==> 1 <= Less(round)[i] <= Half(h)
  {
    LessCount(round, cut, top, order, h);
    var e, o := Evens(order), Odds(order);
    assert order[..2 * h] == order;
    assert e[..h] == e && o[..h] == o;
    CountAboveSplit(order, h, cut);
    CountAbovePermutation(order, 2 * h, cut);
    forall i | 0 <= i < |e|
      ensures e[i] <= cut
    {
      assert order[2 * i] + order[2 * i + 1] == 2 * h + 1 && order[2 * i] < order[2 * i + 1];
    }
    CountAboveNone(e, cut);
  }

  /** With rem > h preliminary matches, `great` has rem - h entries: the
      round-2 matches that lost both seeds. */
  lemma GreatAll(round: Round, cut: int, top: nat, order: seq<int>, h: nat, rem: nat)
    requires CutRound(round, cut, top, order, h) && |round| == h
    requires IsPermutation(order, 2 * h)
    requires h < rem < 2 * h && cut == 2 * h - rem
    ensures |Great(round)| == rem - h
    ensures CountAbove(Evens(order), cut) == rem - h
    ensures forall i :: 0 <= i < |Great(round)| ==> 1 <= Great(round)[i] <= h
  {
    GreatCount(round, cut, top, order, h);
    var e := Evens(order);
    assert e[..h] == e;
    EvensPermutation(order, h);
    CountAbovePermutation(e, h, cut);
    forall i | 0 <= i < |Great(round)|
      ensures 1 <= Great(round)[i] <= h
    {
      GreatMembers(round, cut, top, order, h, Great(round)[i]);
    }
  }

  /** Round 2 of the filled winner's bracket, for n not a power of two. */
  lemma SecondRound(n: nat)
    requires n >= 4 && Rem(n) != 0
    ensures Prelims(n).Ok? && |Prelims(n).value| >= 2
    ensures var h := Pow2(Power(n) - 1);
      && Power(n) >= 2
      && Pow2(Power(n)) == 2 * h
      && Rem(n) < 2 * h
      && IsPermutation(Order(n), 2 * h)
      && CutRound(Prelims(n).value[1], 2 * h - Rem(n), Top(n), Order(n), h)
      && |Prelims(n).value[1]| == h
  {
    PrelimsShape(n);
    var k, P := Power(n), Prelims(n).value;
    assert FirstFull(Rem(n)) == 2;
    assert |P[1]| == Pow2(k + 2 - 2 - 1);
  }
}
