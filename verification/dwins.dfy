/** The winner paths of the loser's bracket of double elimination
    (lib/Algorithms.js:280-300): the first loser round after preliminary
    matches routes by its redirect list, the rounds after it are compacted
    one-to-one or two-to-one, and the last match goes back to the first grand
    final. Only winner paths of loser rounds change. */
module DoubleWins {
  import opened Base
  import opened Arena
  import opened DoubleElim
  import opened LoserSizing
  import opened DoubleDrops
  import opened DoubleFirst

  /** Lookups by key see only the sizes of the rounds. */
  lemma FindShape(a: Rounds, b: Rounds, round: nat, number: int)
    requires SameShape(a, b)
    ensures Find(a, round, number) == Find(b, round, number)
  {
  }

  /** b differs from a only in winner paths of rounds lo and later. */
  ghost predicate WinsOnly(a: Rounds, b: Rounds, lo: nat)
  {
    && SameShape(a, b)
    && (forall j :: 0 <= j < |a| && j + 1 < lo ==> b[j] == a[j])
    && (forall j, i :: 0 <= j < |a| && 0 <= i < |a[j]| ==> b[j][i] == a[j][i].(win := b[j][i].win))
  }

  lemma WinsOnlyTrans(a: Rounds, b: Rounds, c: Rounds, lo: nat)
    requires WinsOnly(a, b, lo) && WinsOnly(b, c, lo)
    ensures WinsOnly(a, c, lo)
  {
    forall j, i | 0 <= j < |a| && 0 <= i < |a[j]|
      ensures c[j][i] == a[j][i].(win := c[j][i].win)
    {
      assert b[j][i] == a[j][i].(win := b[j][i].win);
      assert c[j][i] == b[j][i].(win := c[j][i].win);
    }
  }

  // ---------------------------------------------------------------------------
  // Compaction (lines 292-297)

  /** The match of round j + 2 that match q of round j + 1 sends its winner
      to: the same position when both rounds have as many matches, else
      position floor(q/2). */
  function Compacted(rs: Rounds, j: nat, q: nat): Option<MatchId>
    requires j + 1 < |rs|
  {
    MatchAt(rs, j + 2, if |rs[j]| == |rs[j + 1]| then q else q / 2)
  }

  /** b is rs with rounds i..|rs|-1 compacted, and nothing else changed. */
  ghost predicate Routed(rs: Rounds, b: Rounds, i: nat)
  {
    && SameShape(rs, b)
    && (forall j :: 0 <= j < |rs| && !(i <= j + 1 < |rs|) ==> b[j] == rs[j])
    && (forall j, q :: 0 <= j < |rs| - 1 && i <= j + 1 && 0 <= q < |rs[j]| ==>
          b[j][q] == rs[j][q].(win := Compacted(rs, j, q)))
  }

  /** Lines 293-296 for one round i. */
  lemma RouteRoundIs(rs: Rounds, i: nat) returns (b: Rounds)
    requires 1 <= i < |rs|
    ensures b == RouteRound(rs, i)
    ensures SameShape(rs, b)
    ensures forall j :: 0 <= j < |rs| && j != i - 1 ==> b[j] == rs[j]
    ensures forall j, q :: j == i - 1 && 0 <= q < |rs[j]| ==> b[j][q] == rs[j][q].(win := Compacted(rs, j, q))
  {
    b := RouteRound(rs, i);
  }

  lemma RoutedBase(rs: Rounds, i: nat)
    requires 1 <= i && i >= |rs|
    ensures RouteLosers(rs, i) == rs
    ensures Routed(rs, rs, i)
  {
  }

  lemma RoutedStep(rs: Rounds, rs1: Rounds, b: Rounds, i: nat)
    requires 1 <= i < |rs|
    requires rs1 == RouteRound(rs, i)
    requires Routed(rs1, b, i + 1)
    ensures Routed(rs, b, i)
  {
    var _ := RouteRoundIs(rs, i);
    forall j, q | 0 <= j < |rs| - 1 && i <= j + 1 && 0 <= q < |rs[j]|
      ensures b[j][q] == rs[j][q].(win := Compacted(rs, j, q))
    {
      FindShape(rs, rs1, j + 2, (if |rs[j]| == |rs[j + 1]| then q else q / 2) + 1);
      if j + 1 == i {
        assert b[j] == rs1[j];
      }
    }
  }

  lemma RoutedTurn(rs: Rounds, i: nat) returns (rs1: Rounds, i1: nat)
    requires 1 <= i < |rs|
    ensures i1 == i + 1 && |rs1| == |rs|
    ensures RouteLosers(rs, i) == RouteLosers(rs1, i + 1)
    ensures forall b :: Routed(rs1, b, i1) ==> Routed(rs, b, i)
  {
    rs1, i1 := RouteRound(rs, i), i + 1;
    forall b | Routed(rs1, b, i1)
      ensures Routed(rs, b, i)
    {
      RoutedStep(rs, rs1, b, i);
    }
  }

  /** Lines 292-297 from round i on: every round from i to the second-to-last
      is compacted into the next, and no other round changes. */
  lemma {:induction false} RouteLosersEffect(rs: Rounds, i: nat)
    requires 1 <= i
    ensures Routed(rs, RouteLosers(rs, i), i)
    decreases |rs| - i
  {
    if i >= |rs| {
      RoutedBase(rs, i);
    } else {
      var rs1, i1 := RoutedTurn(rs, i);
      RouteLosersEffect(rs1, i + 1);
    }
  }

  // ---------------------------------------------------------------------------
  // The whole of lines 280-300

  /** Round W + 2 + (rem != 0), 1-based, is the first compacted round. */
  function FirstRouted(rem: nat, W: nat): nat
  {
    W + 3 + (if rem != 0 then 1 else 0)
  }

  /** What lines 280-300 leave behind on the dropped arena rs1 of sizes
      Sized(_, k, rem, W), with redirect list sel: only winner paths of loser
      rounds changed; the rounds from FirstRouted to the second-to-last are
      compacted; with preliminary matches, match i of loser round W + 3 goes
      to match sel[i] of round W + 4; and the last match goes to the first
      grand final. */
  ghost predicate WinsDone(rs1: Rounds, D: Rounds, rem: nat, W: nat, sel: seq<int>)
  {
    && |rs1| > FirstRouted(rem, W)
    && WinsOnly(rs1, D, W + 3)
    && (forall j, q :: 0 <= j < |rs1| - 1 && FirstRouted(rem, W) <= j + 1 && 0 <= q < |rs1[j]| ==>
          D[j][q].win == Compacted(rs1, j, q))
    && (rem != 0 ==> forall i :: 0 <= i < |rs1[W + 2]| ==> D[W + 2][i].win == Find(rs1, W + 4, At(sel, i)))
    && |rs1[|rs1| - 1]| == 1
    && D[|rs1| - 1][0].win == Some(MatchId(W + 1, 1))
  }

  /** With preliminary matches, lines 282-289 route round W + 3 by `sel`. */
  lemma SelectWinsIs(rs: Rounds, from: nat, sel: seq<int>)
    requires 1 <= from <= |rs|
    ensures var b := SelectWins(rs, from, sel);
      && SameShape(rs, b)
      && (forall j :: 0 <= j < |rs| && j != from - 1 ==> b[j] == rs[j])
      && (forall i :: 0 <= i < |rs[from - 1]| ==> b[from - 1][i] == rs[from - 1][i].(win := Find(rs, from + 1, At(sel, i))))
  {
  }

  /** The last match of the loser's bracket goes to the first grand final. */
  lemma ConnectIs(rs: Rounds, W: nat)
    requires |rs| >= W + 4 && |rs[W]| == 1 && |rs[|rs| - 1]| == 1
    ensures Connect(rs, W + 2).Ok?
    ensures var b := Connect(rs, W + 2).value;
      && SameShape(rs, b)
      && (forall j :: 0 <= j < |rs| - 1 ==> b[j] == rs[j])
      && b[|rs| - 1] == [rs[|rs| - 1][0].(win := Some(MatchId(W + 1, 1)))]
  {
    var last := |rs| - 1;
    assert rs[last][0 := rs[last][0].(win := MatchAt(rs, W + 1, 0))] == [rs[last][0].(win := Some(MatchId(W + 1, 1)))];
  }

  /** The preliminary step of lines 280-290: nothing without preliminary
      matches, else round W + 3 routed by `sel`. */
  /** Lines 280-289 as one step: the selected arena, then the routing. */
  lemma SelectedEq(rs1: Rounds, rem: nat, W: nat, h: nat, less: seq<int>, great: seq<int>, sel: seq<int>) returns (rs3: Rounds)
    requires |rs1| > FirstRouted(rem, W)
    requires sel == if rem <= h then less else great
    ensures LoserWins(rs1, W + 2, rem, h, less, great) == Connect(RouteLosers(rs3, FirstRouted(rem, W)), W + 2)
    ensures rs3 == if rem == 0 then rs1 else SelectWins(rs1, W + 3, sel)
  {
    rs3 := if rem == 0 then rs1 else SelectWins(rs1, W + 3, sel);
  }

  /** What the selection of lines 280-289 changes: only the winner paths of
      round W + 3, each to the match `sel` names in the next round. */
  lemma SelectedFacts(rs1: Rounds, rs3: Rounds, rem: nat, W: nat, sel: seq<int>)
    requires |rs1| > W + 2
    requires rs3 == if rem == 0 then rs1 else SelectWins(rs1, W + 3, sel)
    ensures WinsOnly(rs1, rs3, W + 3)
    ensures rem == 0 ==> rs3 == rs1
    ensures forall j :: 0 <= j < |rs1| && j != W + 2 ==> rs3[j] == rs1[j]
    ensures rem != 0 ==> forall i :: 0 <= i < |rs1[W + 2]| ==>
      rs3[W + 2][i].win == Find(rs1, W + 4, At(sel, i))
  {
    if rem != 0 {
      SelectWinsIs(rs1, W + 3, sel);
    }
  }

  lemma SelectedIs(rs1: Rounds, rem: nat, W: nat, h: nat, less: seq<int>, great: seq<int>, sel: seq<int>) returns (rs3: Rounds)
    requires |rs1| > FirstRouted(rem, W)
    requires sel == if rem <= h then less else great
    ensures LoserWins(rs1, W + 2, rem, h, less, great) == Connect(RouteLosers(rs3, FirstRouted(rem, W)), W + 2)
    ensures WinsOnly(rs1, rs3, W + 3)
    ensures rem == 0 ==> rs3 == rs1
    ensures forall j :: 0 <= j < |rs1| && j != W + 2 ==> rs3[j] == rs1[j]
    ensures rem != 0 ==> forall i :: 0 <= i < |rs1[W + 2]| ==>
      rs3[W + 2][i].win == Find(rs1, W + 4, At(sel, i))
  {
    rs3 := SelectedEq(rs1, rem, W, h, less, great, sel);
    SelectedFacts(rs1, rs3, rem, W, sel);
  }

  /** Lines 280-300 never raise on an arena of the dropped sizes. */
  lemma LoserWinsEffect(rs1: Rounds, k: nat, rem: nat, W: nat, less: seq<int>, great: seq<int>)
    requires Sized(rs1, k, rem, W)
    ensures LoserWins(rs1, W + 2, rem, Pow2(k - 1), less, great).Ok?
    ensures WinsDone(rs1, LoserWins(rs1, W + 2, rem, Pow2(k - 1), less, great).value, rem, W,
                     if rem <= Pow2(k - 1) then less else great)
  {
    var h := Pow2(k - 1);
    var sel := if rem <= h then less else great;
    LoserSizesLast(k, rem);
    LoserRoundSize(rs1, k, rem, W, |rs1|);
    var rs3 := SelectedIs(rs1, rem, W, h, less, great, sel);
    var start := FirstRouted(rem, W);
    RouteLosersEffect(rs3, start);
    var R := RouteLosers(rs3, start);
    ConnectIs(R, W);
    var D := Connect(R, W + 2).value;
    WinsDoneFrom(rs1, rs3, R, D, rem, W, sel);
  }

  lemma WinsDoneFrom(rs1: Rounds, rs3: Rounds, R: Rounds, D: Rounds, rem: nat, W: nat, sel: seq<int>)
    requires |rs1| > FirstRouted(rem, W) && |rs1[W]| == 1 && |rs1[|rs1| - 1]| == 1
    requires WinsOnly(rs1, rs3, W + 3)
    requires rem == 0 ==> rs3 == rs1
    requires forall j :: 0 <= j < |rs1| && j != W + 2 ==> rs3[j] == rs1[j]
    requires rem != 0 ==> forall i :: 0 <= i < |rs1[W + 2]| ==> rs3[W + 2][i].win == Find(rs1, W + 4, At(sel, i))
    requires Routed(rs3, R, FirstRouted(rem, W))
    requires SameShape(R, D)
    requires forall j :: 0 <= j < |R| - 1 ==> D[j] == R[j]
    requires D[|R| - 1] == [R[|R| - 1][0].(win := Some(MatchId(W + 1, 1)))]
    ensures WinsDone(rs1, D, rem, W, sel)
  {
    var last := |rs1| - 1;
    forall j, i | 0 <= j < |rs1| && 0 <= i < |rs1[j]|
      ensures D[j][i] == rs1[j][i].(win := D[j][i].win)
    {
      assert rs3[j][i] == rs1[j][i].(win := rs3[j][i].win);
      if j == last {
        assert R[j] == rs3[j];
      } else if !(FirstRouted(rem, W) <= j + 1) {
        assert R[j] == rs3[j];
      }
    }
    forall j, q | 0 <= j < |rs1| - 1 && FirstRouted(rem, W) <= j + 1 && 0 <= q < |rs1[j]|
      ensures D[j][q].win == Compacted(rs1, j, q)
    {
      assert rs3[j] == rs1[j];
      FindShape(rs1, rs3, j + 2, (if |rs1[j]| == |rs1[j + 1]| then q else q / 2) + 1);
    }
    assert R[last] == rs3[last] == rs1[last];
  }
}
