/** The preliminary round of double elimination (lib/Algorithms.js:130-161):
    walking round 2 in order, every seed above the cut 2^k - rem leaves its
    round-2 slot for the next free preliminary match, where it meets its
    complement; then the `less` and `great` redirect lists are read off
    round 2. */
module DoublePrelim {
  import opened Base
  import opened Arena
  import opened Skeleton
  import opened Counting
  import Seeding
  import SingleElim
  import opened DoubleElim

  /** Preliminary match v once seed b (1-based) has moved into it: seed index
      b - 1 against seed index 2t - b, the winner going back to the round-2
      match that held b. */
  function DPrelimMatch(v: nat, b: int, t: int, order: seq<int>): Match
    requires b in order
  {
    Match(MatchId(1, v + 1), true, Some(b - 1), Some(2 * t - b), Some(MatchId(2, IndexOf(order, b) / 2 + 1)), None)
  }

  /** Preliminary match v has been played into by some seed above the cut. */
  ghost predicate DPlayed(m: Match, v: nat, t: int, cut: int, order: seq<int>)
  {
    && m.one.Some?
    && cut < m.one.value + 1 <= t
    && m.one.value + 1 in order
    && m == DPrelimMatch(v, m.one.value + 1, t, order)
  }

  /** After the `forEach` has visited round-2 matches 0..c-1 with j
      preliminary matches used (t = 2h seeds, cut = t - rem): j counts the
      seed-order positions before 2c above the cut, the first j preliminary
      matches are played, the others still fresh, and the visited round-2
      matches have lost their seeds above the cut. */
  ghost predicate VisitInv(rs: Rounds, c: nat, j: nat, rem: nat, h: nat, top: nat, order: seq<int>, tail: Rounds)
  {
    && 0 < rem < 2 * h
    && |order| == 2 * h
    && Seeding.PairedSeeds(order, h)
    && IsPermutation(order, 2 * h)
    && |rs| == top >= 2
    && |rs[0]| == rem
    && |rs[1]| == h
    && rs[2..] == tail
    && c <= h
    && j == CountAbove(order[..2 * c], 2 * h - rem)
    && j <= rem
    && (forall v :: 0 <= v < j ==> DPlayed(rs[0][v], v, 2 * h, 2 * h - rem, order))
    && (forall v :: j <= v < rem ==> rs[0][v] == NewMatch(1, v + 1))
    && (forall u :: 0 <= u < c ==> rs[1][u] == SingleElim.CutMatch(u, 2 * h - rem, top, order))
    && (forall u :: c <= u < h ==> rs[1][u] == SeededMatch(2, u, top, order))
  }

  /** A seed above the cut at position p leaves room for itself: fewer than
      rem seeds above the cut come before it. */
  lemma HitBound(order: seq<int>, N: nat, p: nat, cut: int)
    requires IsPermutation(order, N)
    requires 0 <= cut <= N
    requires p < |order| && order[p] > cut
    ensures CountAbove(order[..p], cut) < N - cut
  {
    CountAboveStep(order, p, cut);
    CountAbovePrefix(order, p + 1, cut);
    CountAbovePermutation(order, N, cut);
  }

  /** The position of a seed in the order is where the order has it. */
  lemma IndexAt(order: seq<int>, p: nat)
    requires Distinct(order) && p < |order|
    ensures order[p] in order && IndexOf(order, order[p]) == p
  {
  }

  /** Round-2 match c holds no seed above the cut: the visit changes nothing. */
  lemma VisitNone(rs: Rounds, c: nat, j: nat, rem: nat, h: nat, top: nat, order: seq<int>, tail: Rounds)
    requires VisitInv(rs, c, j, rem, h, top, order, tail) && c < h
    requires order[2 * c + 1] <= 2 * h - rem
    ensures Visit(rs, c, j, 2 * h - rem, 2 * h, order) == Ok((rs, j))
    ensures VisitInv(rs, c + 1, j, rem, h, top, order, tail)
  {
    var cut := 2 * h - rem;
    CountAboveStep(order, 2 * c, cut);
    CountAboveStep(order, 2 * c + 1, cut);
    assert rs[1][c] == SingleElim.CutMatch(c, cut, top, order);
  }

  /** Only the second seed of round-2 match c is above the cut. */
  lemma VisitTwo(rs: Rounds, c: nat, j: nat, rem: nat, h: nat, top: nat, order: seq<int>, tail: Rounds)
    requires VisitInv(rs, c, j, rem, h, top, order, tail) && c < h
    requires order[2 * c] <= 2 * h - rem < order[2 * c + 1]
    ensures j < rem
    ensures var b := order[2 * c + 1];
      b in order
      && Visit(rs, c, j, 2 * h - rem, 2 * h, order) ==
         Ok((rs[0 := rs[0][j := DPrelimMatch(j, b, 2 * h, order)]][1 := rs[1][c := SingleElim.CutMatch(c, 2 * h - rem, top, order)]], j + 1))
  {
    var cut, b := 2 * h - rem, order[2 * c + 1];
    CountAboveStep(order, 2 * c, cut);
    HitBound(order, 2 * h, 2 * c + 1, cut);
    var x := rs[1][c];
    var y := rs[0][j].(active := true, one := x.two, two := Some(2 * (2 * h) - b), win := Some(MatchId(2, c + 1)));
    TwoParts(rs, c, j, rem, h, top, order, tail);
    assert Take(rs, c, j, false, b, 2 * h) == Ok(rs[0 := rs[0][j := y]][1 := rs[1][c := x.(active := false, two := None)]]);
  }

  /** The two matches VisitTwo writes, as the visit builds them. */
  lemma TwoParts(rs: Rounds, c: nat, j: nat, rem: nat, h: nat, top: nat, order: seq<int>, tail: Rounds)
    requires VisitInv(rs, c, j, rem, h, top, order, tail) && c < h && j < rem
    requires order[2 * c] <= 2 * h - rem < order[2 * c + 1]
    ensures var x, b := rs[1][c], order[2 * c + 1];
      && rs[0][j].(active := true, one := x.two, two := Some(2 * (2 * h) - b), win := Some(MatchId(2, c + 1)))
         == DPrelimMatch(j, b, 2 * h, order)
      && x.(active := false, two := None) == SingleElim.CutMatch(c, 2 * h - rem, top, order)
  {
    IndexAt(order, 2 * c + 1);
    assert rs[1][c] == SeededMatch(2, c, top, order);
    assert rs[0][j] == NewMatch(1, j + 1);
  }

  /** Both seeds of round-2 match c move out, into preliminary matches j and
      j + 1, written out from the facts the visit reads. */
  lemma VisitBothIs(rs: Rounds, c: nat, j: nat, cut: int, t: int, top: nat, order: seq<int>)
    requires |rs| >= 2 && c < |rs[1]| && 2 * c + 1 < |order| && j + 1 < |rs[0]|
    requires rs[1][c] == SeededMatch(2, c, top, order)
    requires rs[0][j] == NewMatch(1, j + 1) && rs[0][j + 1] == NewMatch(1, j + 2)
    requires cut < order[2 * c] < order[2 * c + 1]
    requires order[2 * c] in order && IndexOf(order, order[2 * c]) == 2 * c
    requires order[2 * c + 1] in order && IndexOf(order, order[2 * c + 1]) == 2 * c + 1
    ensures Visit(rs, c, j, cut, t, order) ==
         Ok((rs[0 := rs[0][j := DPrelimMatch(j, order[2 * c], t, order)][j + 1 := DPrelimMatch(j + 1, order[2 * c + 1], t, order)]]
               [1 := rs[1][c := SingleElim.CutMatch(c, cut, top, order)]], j + 2))
  {
    var a, b := order[2 * c], order[2 * c + 1];
    var x := rs[1][c];
    var y1 := rs[0][j].(active := true, one := x.one, two := Some(2 * t - a), win := Some(MatchId(2, c + 1)));
    assert y1 == DPrelimMatch(j, a, t, order);
    var x1 := x.(active := false, one := None);
    var rs1: Rounds := rs[0 := rs[0][j := y1]][1 := rs[1][c := x1]];
    assert Take(rs, c, j, true, a, t) == Ok(rs1);
    var y2 := rs1[0][j + 1].(active := true, one := x1.two, two := Some(2 * t - b), win := Some(MatchId(2, c + 1)));
    assert y2 == DPrelimMatch(j + 1, b, t, order);
    var x2 := x1.(active := false, two := None);
    assert x2 == SingleElim.CutMatch(c, cut, top, order);
    assert Take(rs1, c, j + 1, false, b, t) == Ok(rs1[0 := rs1[0][j + 1 := y2]][1 := rs1[1][c := x2]]);
    assert rs1[0][j + 1 := y2] == rs[0][j := y1][j + 1 := y2];
    assert rs1[1][c := x2] == rs[1][c := x2];
    assert rs1[0 := rs1[0][j + 1 := y2]][1 := rs1[1][c := x2]] ==
      rs[0 := rs[0][j := y1][j + 1 := y2]][1 := rs[1][c := x2]];
  }

  /** Both seeds of round-2 match c are above the cut. */
  lemma VisitBoth(rs: Rounds, c: nat, j: nat, rem: nat, h: nat, top: nat, order: seq<int>, tail: Rounds)
    requires VisitInv(rs, c, j, rem, h, top, order, tail) && c < h
    requires 2 * h - rem < order[2 * c]
    ensures j + 1 < rem
    ensures var a, b := order[2 * c], order[2 * c + 1];
      a in order && b in order
      && Visit(rs, c, j, 2 * h - rem, 2 * h, order) ==
         Ok((rs[0 := rs[0][j := DPrelimMatch(j, a, 2 * h, order)][j + 1 := DPrelimMatch(j + 1, b, 2 * h, order)]]
               [1 := rs[1][c := SingleElim.CutMatch(c, 2 * h - rem, top, order)]], j + 2))
  {
    var cut := 2 * h - rem;
    CountAboveStep(order, 2 * c, cut);
    HitBound(order, 2 * h, 2 * c + 1, cut);
    IndexAt(order, 2 * c);
    IndexAt(order, 2 * c + 1);
    assert rs[1][c] == SeededMatch(2, c, top, order);
    assert rs[0][j] == NewMatch(1, j + 1);
    assert rs[0][j + 1] == NewMatch(1, j + 2);
    VisitBothIs(rs, c, j, cut, 2 * h, top, order);
  }

  lemma VisitTwoInv(rs: Rounds, c: nat, j: nat, rem: nat, h: nat, top: nat, order: seq<int>, tail: Rounds)
    requires VisitInv(rs, c, j, rem, h, top, order, tail) && c < h
    requires order[2 * c] <= 2 * h - rem < order[2 * c + 1]
    ensures j < rem && order[2 * c + 1] in order
    ensures VisitInv(rs[0 := rs[0][j := DPrelimMatch(j, order[2 * c + 1], 2 * h, order)]]
                       [1 := rs[1][c := SingleElim.CutMatch(c, 2 * h - rem, top, order)]],
                     c + 1, j + 1, rem, h, top, order, tail)
  {
    var cut, b := 2 * h - rem, order[2 * c + 1];
    VisitTwo(rs, c, j, rem, h, top, order, tail);
    assert b <= 2 * h;
    StepTwo(order, 2 * c, cut);
    assert 2 * c + 2 == 2 * (c + 1);
    var r0 := rs[0][j := DPrelimMatch(j, b, 2 * h, order)];
    assert DPlayed(r0[j], j, 2 * h, cut, order);
    PrelimsAdvance(rs[0], r0, j, j + 1, 2 * h, cut, order);
    CutAdvance(rs[1], c, cut, top, order);
    var r1 := rs[1][c := SingleElim.CutMatch(c, cut, top, order)];
    var rs' := rs[0 := r0][1 := r1];
    assert rs'[2..] == rs[2..];
    InvFrom(rs', r0, r1, c + 1, j + 1, rem, h, top, order, tail);
  }

  /** Preliminary matches j..k-1 newly played keep the prefix/suffix shape
      the invariant asks of round 1. */
  lemma PrelimsAdvance(r: seq<Match>, r': seq<Match>, j: nat, k: nat, t: int, cut: int, order: seq<int>)
    requires j <= k <= |r| == |r'|
    requires forall v :: 0 <= v < j ==> DPlayed(r[v], v, t, cut, order)
    requires forall v :: j <= v < |r| ==> r[v] == NewMatch(1, v + 1)
    requires forall v :: 0 <= v < j ==> r'[v] == r[v]
    requires forall v :: k <= v < |r| ==> r'[v] == r[v]
    requires forall v :: j <= v < k ==> DPlayed(r'[v], v, t, cut, order)
    ensures forall v :: 0 <= v < k ==> DPlayed(r'[v], v, t, cut, order)
    ensures forall v :: k <= v < |r'| ==> r'[v] == NewMatch(1, v + 1)
  {
  }

  /** Cutting round-2 match c keeps the prefix/suffix shape the invariant
      asks of round 2. */
  lemma CutAdvance(r: seq<Match>, c: nat, cut: int, top: nat, order: seq<int>)
    requires c < |r| && 2 * |r| <= |order|
    requires forall u :: 0 <= u < c ==> r[u] == SingleElim.CutMatch(u, cut, top, order)
    requires forall u :: c <= u < |r| ==> r[u] == SeededMatch(2, u, top, order)
    ensures var r' := r[c := SingleElim.CutMatch(c, cut, top, order)];
      && (forall u :: 0 <= u < c + 1 ==> r'[u] == SingleElim.CutMatch(u, cut, top, order))
      && (forall u :: c + 1 <= u < |r'| ==> r'[u] == SeededMatch(2, u, top, order))
  {
  }

  /** Seeds a < b above the cut moved into free preliminary matches j and
      j + 1 leave the first j + 2 matches played and the rest fresh. */
  lemma BothPlayed(r: seq<Match>, j: nat, cut: int, t: int, a: int, b: int, order: seq<int>)
    requires j + 1 < |r|
    requires forall v :: 0 <= v < j ==> DPlayed(r[v], v, t, cut, order)
    requires forall v :: j <= v < |r| ==> r[v] == NewMatch(1, v + 1)
    requires a in order && b in order && cut < a < b <= t
    ensures var r0 := r[j := DPrelimMatch(j, a, t, order)][j + 1 := DPrelimMatch(j + 1, b, t, order)];
      && (forall v :: 0 <= v < j + 2 ==> DPlayed(r0[v], v, t, cut, order))
      && (forall v :: j + 2 <= v < |r0| ==> r0[v] == NewMatch(1, v + 1))
  {
    var r0 := r[j := DPrelimMatch(j, a, t, order)][j + 1 := DPrelimMatch(j + 1, b, t, order)];
    assert DPlayed(r0[j], j, t, cut, order);
    assert DPlayed(r0[j + 1], j + 1, t, cut, order);
    PrelimsAdvance(r, r0, j, j + 2, t, cut, order);
  }

  /** The invariant, assembled from facts about its two rewritten rounds. */
  lemma InvFrom(rs: Rounds, r0: seq<Match>, r1: seq<Match>, c: nat, j: nat, rem: nat, h: nat, top: nat, order: seq<int>, tail: Rounds)
    requires |rs| == top >= 2 && rs[0] == r0 && rs[1] == r1 && rs[2..] == tail
    requires 0 < rem < 2 * h && |order| == 2 * h
    requires Seeding.PairedSeeds(order, h) && IsPermutation(order, 2 * h)
    requires |r0| == rem && |r1| == h && c <= h && j <= rem
    requires j == CountAbove(order[..2 * c], 2 * h - rem)
    requires forall v :: 0 <= v < j ==> DPlayed(r0[v], v, 2 * h, 2 * h - rem, order)
    requires forall v :: j <= v < rem ==> r0[v] == NewMatch(1, v + 1)
    requires forall u :: 0 <= u < c ==> r1[u] == SingleElim.CutMatch(u, 2 * h - rem, top, order)
    requires forall u :: c <= u < h ==> r1[u] == SeededMatch(2, u, top, order)
    ensures VisitInv(rs, c, j, rem, h, top, order, tail)
  {
  }

  lemma VisitBothInv(rs: Rounds, c: nat, j: nat, rem: nat, h: nat, top: nat, order: seq<int>, tail: Rounds)
    requires VisitInv(rs, c, j, rem, h, top, order, tail) && c < h
    requires 2 * h - rem < order[2 * c]
    ensures j + 1 < rem && order[2 * c] in order && order[2 * c + 1] in order
    ensures VisitInv(rs[0 := rs[0][j := DPrelimMatch(j, order[2 * c], 2 * h, order)][j + 1 := DPrelimMatch(j + 1, order[2 * c + 1], 2 * h, order)]]
                       [1 := rs[1][c := SingleElim.CutMatch(c, 2 * h - rem, top, order)]],
                     c + 1, j + 2, rem, h, top, order, tail)
  {
    var cut, a, b := 2 * h - rem, order[2 * c], order[2 * c + 1];
    VisitBoth(rs, c, j, rem, h, top, order, tail);
    assert a < b <= 2 * h;
    StepTwo(order, 2 * c, cut);
    assert 2 * c + 2 == 2 * (c + 1);
    BothPlayed(rs[0], j, cut, 2 * h, a, b, order);
    var r0 := rs[0][j := DPrelimMatch(j, a, 2 * h, order)][j + 1 := DPrelimMatch(j + 1, b, 2 * h, order)];
    CutAdvance(rs[1], c, cut, top, order);
    var r1 := rs[1][c := SingleElim.CutMatch(c, cut, top, order)];
    var rs' := rs[0 := r0][1 := r1];
    assert rs'[2..] == rs[2..];
    InvFrom(rs', r0, r1, c + 1, j + 2, rem, h, top, order, tail);
  }

  /** After a visit the invariant holds one match further on. */
  lemma VisitStep(rs: Rounds, c: nat, j: nat, rem: nat, h: nat, top: nat, order: seq<int>, tail: Rounds)
    requires VisitInv(rs, c, j, rem, h, top, order, tail) && c < h
    ensures Visit(rs, c, j, 2 * h - rem, 2 * h, order).Ok?
    ensures var (rs', j') := Visit(rs, c, j, 2 * h - rem, 2 * h, order).value;
      VisitInv(rs', c + 1, j', rem, h, top, order, tail)
  {
    var cut, a, b := 2 * h - rem, order[2 * c], order[2 * c + 1];
    if b <= cut {
      VisitNone(rs, c, j, rem, h, top, order, tail);
    } else if a <= cut {
      VisitTwo(rs, c, j, rem, h, top, order, tail);
      VisitTwoInv(rs, c, j, rem, h, top, order, tail);
    } else {
      VisitBoth(rs, c, j, rem, h, top, order, tail);
      VisitBothInv(rs, c, j, rem, h, top, order, tail);
    }
  }

  /** The whole `forEach` ends with every round-2 match cut and exactly rem
      preliminary matches used, all of them played. */
  lemma {:induction false} VisitsEnd(rs: Rounds, c: nat, j: nat, rem: nat, h: nat, top: nat, order: seq<int>, tail: Rounds)
    requires VisitInv(rs, c, j, rem, h, top, order, tail)
    ensures Visits(rs, c, j, 2 * h - rem, 2 * h, order).Ok?
    ensures VisitInv(Visits(rs, c, j, 2 * h - rem, 2 * h, order).value, h, rem, rem, h, top, order, tail)
    decreases h - c
  {
    if c >= h {
      assert order[..2 * h] == order;
      CountAbovePermutation(order, 2 * h, 2 * h - rem);
    } else {
      VisitStep(rs, c, j, rem, h, top, order, tail);
      var (rs', j') := Visit(rs, c, j, 2 * h - rem, 2 * h, order).value;
      VisitsEnd(rs', c + 1, j', rem, h, top, order, tail);
    }
  }

  /** Where the `forEach` starts for exponent k and rem preliminary matches:
      the rounds the loop built, round 2 seeded, nothing visited yet. */
  ghost predicate Start(rs0: Rounds, k: nat, rem: nat, top: nat, order: seq<int>)
  {
    && rem != 0 && LaterRounds(rs0, k, top)
    && VisitInv(rs0, 0, 0, rem, Pow2(k - 1), top, order, rs0[2..])
  }

  /** The seeded state is where the `forEach` starts. */
  lemma VisitStart(rs: Rounds, n: nat)
    requires n >= 4 && Rem(n) != 0
    requires IsSeeded(rs, n)
    ensures var k := Power(n);
      k >= 2 && |rs| == Top(n) >= 3 && VisitInv(rs, 0, 0, Rem(n), Pow2(k - 1), Top(n), Order(n), rs[2..])
  {
    var k := Power(n);
    Seeding.BracketShape(k);
    Seeding.BracketIsPermutation(k);
    assert Order(n)[..0] == [];
  }

  // ---------------------------------------------------------------------------
  // The winner's bracket once the preliminary round is filled

  /** The winner's bracket of double elimination written out, for exponent k,
      rem preliminary matches, first full round f, top rounds and seed order
      `order`: every preliminary match is played by a seed above 2^k - rem
      and its complement, round 2 has lost exactly those seeds, the first full
      round is otherwise seeded from the order, and later rounds are empty
      and chained. */
  ghost predicate DPlain(rs: Rounds, k: nat, rem: nat, f: nat, top: nat, order: seq<int>)
  {
    var t := Pow2(k);
    && k >= 2
    && t == 2 * Pow2(k - 1)
    && rem < t
    && f == FirstFull(rem)
    && |order| == t
    && Seeding.PairedSeeds(order, Pow2(k - 1))
    && IsPermutation(order, t)
    && top == f + k - 1
    && |rs| == top
    && (forall j :: f - 1 <= j < top ==> |rs[j]| == Pow2(k + f - 2 - j))
    && (forall j, i :: f <= j < top && 0 <= i < |rs[j]| ==> rs[j][i] == FullMatch(j + 1, i + 1, top))
    && (rem != 0 ==> |rs[0]| == rem)
    && (rem != 0 ==> forall v :: 0 <= v < rem ==> DPlayed(rs[0][v], v, t, t - rem, order))
    && (rem != 0 ==> forall j :: 0 <= j < |rs[1]| ==> rs[1][j] == SingleElim.CutMatch(j, t - rem, top, order))
    && (rem == 0 ==> forall j :: 0 <= j < |rs[0]| ==> rs[0][j] == SeededMatch(1, j, top, order))
  }

  ghost predicate DoublePlain(rs: Rounds, n: nat)
    requires n >= 4
  {
    DPlain(rs, Power(n), Rem(n), FirstFull(Rem(n)), Top(n), Order(n))
  }

  lemma VisitsPlain(rs: Rounds, rs0: Rounds, k: nat, rem: nat, top: nat, order: seq<int>)
    requires k >= 2 && rem != 0 && top == k + 1 && |rs0| == top
    requires Pow2(k) == 2 * Pow2(k - 1)
    requires forall j :: 1 <= j < top ==> |rs0[j]| == Pow2(k - j)
    requires forall j, i :: 2 <= j < top && 0 <= i < |rs0[j]| ==> rs0[j][i] == FullMatch(j + 1, i + 1, top)
    requires VisitInv(rs, Pow2(k - 1), rem, rem, Pow2(k - 1), top, order, rs0[2..])
    ensures DPlain(rs, k, rem, 2, top, order)
  {
    forall j | 2 <= j < top
      ensures rs[j] == rs0[j]
    {
      assert rs[j] == rs[2..][j - 2] == rs0[2..][j - 2];
    }
  }

  lemma VisitsShape(rs0: Rounds, k: nat, rem: nat, f: nat, top: nat, order: seq<int>)
    requires f == 2 && Start(rs0, k, rem, top, order)
    ensures Visits(rs0, 0, 0, Pow2(k) - rem, Pow2(k), order).Ok?
    ensures DPlain(Visits(rs0, 0, 0, Pow2(k) - rem, Pow2(k), order).value, k, rem, f, top, order)
  {
    VisitsEnd(rs0, 0, 0, rem, Pow2(k - 1), top, order, rs0[2..]);
    VisitsPlain(Visits(rs0, 0, 0, Pow2(k) - rem, Pow2(k), order).value, rs0, k, rem, top, order);
  }

  lemma VisitsFromSeeded(rs0: Rounds, n: nat)
    requires n >= 4 && Rem(n) != 0 && |rs0| >= 2 && 2 * |rs0[1]| <= |Order(n)|
    requires FirstFull(Rem(n)) == 2 && Start(rs0, Power(n), Rem(n), Top(n), Order(n))
    ensures Visits(rs0, 0, 0, Pow2(Power(n)) - Rem(n), Pow2(Power(n)), Order(n)).Ok?
    ensures DoublePlain(Visits(rs0, 0, 0, Pow2(Power(n)) - Rem(n), Pow2(Power(n)), Order(n)).value, n)
  {
    VisitsShape(rs0, Power(n), Rem(n), FirstFull(Rem(n)), Top(n), Order(n));
  }

  lemma SeededDoublePlain(n: nat)
    requires n >= 4 && Rem(n) == 0
    ensures DoublePlain(Seeded(n), n)
  {
    var k := Power(n);
    SeededShape(n);
    Seeding.BracketShape(k);
    Seeding.BracketIsPermutation(k);
  }

  /** Round 2 of the seeded bracket pairs at most the seed order's length. */
  lemma SeededRound2(n: nat)
    requires n >= 4
    ensures |Seeded(n)| >= 2 && 2 * |Seeded(n)[1]| <= |Order(n)|
  {
    SeededShape(n);
    var k := Power(n);
    Seeding.BracketShape(k);
    if Rem(n) == 0 {
      assert |Seeded(n)[0]| == Pow2(k - 1);
      assert |Seeded(n)[1]| == Pow2(k - 2);
      Pow2Monotone(k - 2, k);
    } else {
      assert |Seeded(n)[1]| == Pow2(k - 1);
    }
  }

  lemma PrelimsUnfold(n: nat)
    requires n >= 4
    ensures |Seeded(n)| >= 2 && 2 * |Seeded(n)[1]| <= |Order(n)|
    ensures Rem(n) == 0 ==> Prelims(n) == Ok(Seeded(n))
    ensures Rem(n) != 0 ==> Prelims(n) == Visits(Seeded(n), 0, 0, Pow2(Power(n)) - Rem(n), Pow2(Power(n)), Order(n))
  {
    SeededRound2(n);
  }

  lemma VisitsFromSeededN(n: nat)
    requires n >= 4 && Rem(n) != 0
    ensures |Seeded(n)| >= 2 && 2 * |Seeded(n)[1]| <= |Order(n)|
    ensures Visits(Seeded(n), 0, 0, Pow2(Power(n)) - Rem(n), Pow2(Power(n)), Order(n)).Ok?
    ensures DoublePlain(Visits(Seeded(n), 0, 0, Pow2(Power(n)) - Rem(n), Pow2(Power(n)), Order(n)).value, n)
  {
    SeededShape(n);
    SeededRound2(n);
    SeededLater(Seeded(n), n);
    VisitStart(Seeded(n), n);
    VisitsFromSeeded(Seeded(n), n);
  }

  /** Filling the preliminary round never raises and yields the written-out
      winner's bracket. */
  lemma PrelimsShape(n: nat)
    requires n >= 4
    ensures Prelims(n).Ok?
    ensures DoublePlain(Prelims(n).value, n)
  {
    PrelimsUnfold(n);
    if Rem(n) != 0 {
      VisitsFromSeededN(n);
    } else {
      SeededDoublePlain(n);
    }
  }

  /** What a played preliminary match says, spelled out. */
  lemma PlayedFacts(m: Match, v: nat, h: nat, cut: int, order: seq<int>)
    requires DPlayed(m, v, 2 * h, cut, order)
    requires |order| == 2 * h
    ensures m.id == MatchId(1, v + 1) && m.active
    ensures m.one.Some? && m.two.Some?
    ensures cut < m.one.value + 1 <= 2 * h
    ensures m.one.value + m.two.value == 4 * h - 1
    ensures m.win.Some? && m.win.value.round == 2 && 1 <= m.win.value.number <= h
    ensures var c := m.win.value.number - 1;
      order[2 * c] == m.one.value + 1 || order[2 * c + 1] == m.one.value + 1
    ensures m.loss.None?
  {
    var b := m.one.value + 1;
    var p := IndexOf(order, b);
    assert p == 2 * (p / 2) || p == 2 * (p / 2) + 1;
  }

  /** Every preliminary match is played: it pairs a seed b above 2^k - rem
      (0-based index b - 1) with seed 2^(k+1) + 1 - b, is active, and sends
      its winner to the round-2 match whose slot the seed order gave b; its
      loser goes nowhere yet. */
  lemma DoublePrelimMatches(n: nat, v: nat)
    requires n >= 4 && v < Rem(n)
    ensures Prelims(n).Ok? && |Prelims(n).value| >= 2 && v < |Prelims(n).value[0]|
    ensures var rs, t, order := Prelims(n).value, Pow2(Power(n)), Order(n);
      var m := rs[0][v];
      && m.id == MatchId(1, v + 1) && m.active
      && m.one.Some? && m.two.Some?
      && t - Rem(n) < m.one.value + 1 <= t
      && m.one.value + m.two.value == 2 * t - 1
      && m.win.Some? && m.win.value.round == 2
      && 1 <= m.win.value.number <= |rs[1]|
      && var c := m.win.value.number - 1;
      && 2 * c + 1 < |order|
      && (order[2 * c] == m.one.value + 1 || order[2 * c + 1] == m.one.value + 1)
      && m.loss.None?
  {
    PrelimsShape(n);
    var rs, k, order := Prelims(n).value, Power(n), Order(n);
    var h := Pow2(k - 1);
    assert DPlayed(rs[0][v], v, 2 * h, 2 * h - Rem(n), order);
    assert |rs[1]| == h;
    PlayedFacts(rs[0][v], v, h, 2 * h - Rem(n), order);
  }

  // ---------------------------------------------------------------------------
  // The redirect lists

  /** The seeds at even and at odd positions of a seed order. */
  function Evens(s: seq<int>): (e: seq<int>)
    ensures |e| == |s| / 2
    ensures forall i :: 0 <= i < |s| / 2 ==> e[i] == s[2 * i]
  {
    seq(|s| / 2, i requires 0 <= i < |s| / 2 => s[2 * i])
  }

  function Odds(s: seq<int>): (o: seq<int>)
    ensures |o| == |s| / 2
    ensures forall i :: 0 <= i < |s| / 2 ==> o[i] == s[2 * i + 1]
  {
    seq(|s| / 2, i requires 0 <= i < |s| / 2 => s[2 * i + 1])
  }

  /** Extending a prefix by two elements. */
  lemma StepTwo(s: seq<int>, i: nat, T: int)
    requires i + 1 < |s|
    ensures CountAbove(s[..i + 2], T) == CountAbove(s[..i], T) + (if s[i] > T then 1 else 0) + (if s[i + 1] > T then 1 else 0)
  {
    CountAboveStep(s, i, T);
    CountAboveStep(s, i + 1, T);
  }

  /** Extending the even and the odd prefixes by one pair. */
  lemma HalvesStep(s: seq<int>, k: nat, T: int)
    requires 2 * k + 2 <= |s|
    ensures CountAbove(Evens(s)[..k + 1], T) == CountAbove(Evens(s)[..k], T) + (if s[2 * k] > T then 1 else 0)
    ensures CountAbove(Odds(s)[..k + 1], T) == CountAbove(Odds(s)[..k], T) + (if s[2 * k + 1] > T then 1 else 0)
  {
    CountAboveStep(Evens(s), k, T);
    CountAboveStep(Odds(s), k, T);
  }

  /** Seeds above a cut split between even and odd positions. */
  lemma {:induction false} CountAboveSplit(s: seq<int>, m: nat, cut: int)
    requires 2 * m <= |s|
    ensures CountAbove(s[..2 * m], cut) == CountAbove(Evens(s)[..m], cut) + CountAbove(Odds(s)[..m], cut)
  {
    if m > 0 {
      var k := m - 1;
      CountAboveSplit(s, k, cut);
      StepTwo(s, 2 * k, cut);
      HalvesStep(s, k, cut);
      assert 2 * k + 2 == 2 * m;
    }
  }

  /** The smaller seed of every pair is at most h, and the smaller seeds are
      exactly 1..h. */
  lemma EvensPermutation(s: seq<int>, h: nat)
    requires Seeding.PairedSeeds(s, h)
    requires IsPermutation(s, 2 * h)
    ensures IsPermutation(Evens(s), h)
  {
    var e := Evens(s);
    forall i | 0 <= i < h
      ensures 1 <= e[i] <= h
    {
      assert s[2 * i] + s[2 * i + 1] == 2 * h + 1;
    }
    forall v | 1 <= v <= h
      ensures v in e
    {
      assert v in s;
      var p := IndexOf(s, v);
      var i := p / 2;
      assert s[2 * i] + s[2 * i + 1] == 2 * h + 1 && s[2 * i] < s[2 * i + 1];
      assert p == 2 * i;
      assert e[i] == v;
    }
  }

  /** A round-2 match that lost a seed to the preliminary round. */
  lemma CutHoles(u: nat, cut: int, top: nat, order: seq<int>, h: nat)
    requires Seeding.PairedSeeds(order, h) && u < h
    ensures var m := SingleElim.CutMatch(u, cut, top, order);
      && ((m.one.None? || m.two.None?) <==> order[2 * u + 1] > cut)
      && ((m.one.None? && m.two.None?) <==> order[2 * u] > cut)
  {
  }

  /** Round 2 after the preliminary assignment, as far as its first m
      matches. */
  ghost predicate CutRound(round: Round, cut: int, top: nat, order: seq<int>, h: nat)
  {
    && Seeding.PairedSeeds(order, h)
    && |round| <= h
    && forall u :: 0 <= u < |round| ==> round[u] == SingleElim.CutMatch(u, cut, top, order)
  }

  lemma CutRoundPrefix(round: Round, cut: int, top: nat, order: seq<int>, h: nat)
    requires CutRound(round, cut, top, order, h) && round != []
    ensures CutRound(round[..|round| - 1], cut, top, order, h)
  {
  }

  /** `less` has one entry per round-2 match whose odd-position seed is above
      the cut, each entry a match number of the next round. */
  lemma {:induction false} LessCount(round: Round, cut: int, top: nat, order: seq<int>, h: nat)
    requires CutRound(round, cut, top, order, h)
    ensures |Less(round)| == CountAbove(Odds(order)[..|round|], cut)
    ensures forall i :: 0 <= i < |Less(round)| ==> 1 <= Less(round)[i] <= Half(|round|)
  {
    if round != [] {
      var m := |round| - 1;
      CutRoundPrefix(round, cut, top, order, h);
      LessCount(round[..m], cut, top, order, h);
      CutHoles(m, cut, top, order, h);
      CountAboveStep(Odds(order), m, cut);
    }
  }

  /** `great` has one entry per round-2 match whose even-position seed is
      above the cut. */
  lemma {:induction false} GreatCount(round: Round, cut: int, top: nat, order: seq<int>, h: nat)
    requires CutRound(round, cut, top, order, h)
    ensures |Great(round)| == CountAbove(Evens(order)[..|round|], cut)
  {
    if round != [] {
      var m := |round| - 1;
      CutRoundPrefix(round, cut, top, order, h);
      GreatCount(round[..m], cut, top, order, h);
      CutHoles(m, cut, top, order, h);
      CountAboveStep(Evens(order), m, cut);
    }
  }

  /** `great` holds exactly the numbers of the round-2 matches whose
      even-position seed is above the cut. */
  lemma {:induction false} GreatMembers(round: Round, cut: int, top: nat, order: seq<int>, h: nat, v: int)
    requires CutRound(round, cut, top, order, h)
    ensures v in Great(round) <==> 1 <= v <= |round| && order[2 * (v - 1)] > cut
  {
    if round != [] {
      var m := |round| - 1;
      CutRoundPrefix(round, cut, top, order, h);
      GreatMembers(round[..m], cut, top, order, h, v);
      CutHoles(m, cut, top, order, h);
    }
  }
}
