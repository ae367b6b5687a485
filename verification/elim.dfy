/** Single-elimination bracket generation, `elim(players, thirdPlace)`
    (lib/Algorithms.js:52-99). Players are the seed indices 0..n-1. */
module SingleElim {
  import opened Base
  import opened Arena
  import opened Skeleton
  import Seeding

  // ---------------------------------------------------------------------------
  // The construction

  /** `matches.find(m => (m.playerOne !== null && m.playerOne.id === p) ||
      (m.playerTwo !== null && m.playerTwo.id === p))` from index t on. */
  function FindHolder(round: Round, p: int, t: nat): (j: Option<nat>)
    ensures j.Some? ==> t <= j.value < |round| && (round[j.value].one == Some(p) || round[j.value].two == Some(p))
    ensures j.Some? ==> forall u :: t <= u < j.value ==> round[u].one != Some(p) && round[u].two != Some(p)
    ensures j.None? ==> forall u :: t <= u < |round| ==> round[u].one != Some(p) && round[u].two != Some(p)
    decreases |round| - t
  {
    if t >= |round| then None
    else if round[t].one == Some(p) || round[t].two == Some(p) then Some(t)
    else FindHolder(round, p, t + 1)
  }

  /** Lines 83-84: clear the slot of the match that holds p. Reading `.id` of
      a null slot raises a TypeError. */
  function Detach(x: Match, p: int): (r: Result<Match>)
    ensures r.Ok? ==> r.value.id == x.id
  {
    if x.one.None? then Err(TypeError(83))
    else if x.one.value == p then Ok(x.(one := None))
    else if x.two.None? then Err(TypeError(84))
    else if x.two.value == p then Ok(x.(two := None))
    else Ok(x)
  }

  /** One turn of the `forEach` at lines 79-89 for preliminary match i: its
      first player is seed index t + i, its second the seed index t - i - 1
      (t = 2^k), whose slot in round 2 is cleared; that round-2 match becomes
      the winner's destination and goes inactive. */
  function PrelimStep(rs: Rounds, i: nat, t: nat): Result<Rounds>
    requires |rs| >= 2 && i < |rs[0]|
  {
    var target := t - i - 1;
    match FindHolder(rs[1], target, 0)
    case None => Err(TypeError(83))
    case Some(j) =>
      match Detach(rs[1][j], target)
      case Err(e) => Err(e)
      case Ok(x) =>
        var m := rs[0][i].(one := Some(t + i), two := Some(target), win := Some(x.id), active := true);
        Ok(rs[0 := rs[0][i := m]][1 := rs[1][j := x.(active := false)]])
  }

  /** The preliminary `forEach`, from match i on. */
  function PrelimLoop(rs: Rounds, i: nat, t: nat): Result<Rounds>
    requires |rs| >= 2
    decreases |rs[0]| - i
  {
    if i >= |rs[0]| then Ok(rs)
    else
      match PrelimStep(rs, i, t)
      case Err(e) => Err(e)
      case Ok(rs') => if |rs'| >= 2 && |rs'[0]| == |rs[0]| then PrelimLoop(rs', i + 1, t) else Ok(rs')
  }

  /** Lines 92-97: a fresh match appended to the final round, numbered one past
      its last match, taking the losers of both semifinals. */
  function ThirdPlace(rs: Rounds): (rs': Rounds)
    requires |rs| >= 2
    ensures |rs'| == |rs|
  {
    var last := |rs| - 1;
    var extra := NewMatch(|rs|, |rs[last]| + 1);
    var semis := rs[last - 1];
    rs[last := rs[last] + [extra]][last - 1 := seq(|semis|, i requires 0 <= i < |semis| => semis[i].(loss := Some(extra.id)))]
  }

  /** `elim(players, thirdPlace)` for n >= 4 players. */
  function Elim(n: nat, thirdPlace: bool): Result<Rounds>
    requires n >= 4
  {
    var rs := Seeded(n);
    SeededShape(n);
    var pre := if Rem(n) != 0 then PrelimLoop(rs, 0, Pow2(Power(n))) else Ok(rs);
    match pre
    case Err(e) => Err(e)
    case Ok(rs2) => if thirdPlace && |rs2| >= 2 then Ok(ThirdPlace(rs2)) else Ok(rs2)
  }

  // ---------------------------------------------------------------------------
  // The state of the preliminary loop

  /** The slot of seed s (1-based) once the seeds above `cut` have been moved
      out: empty, or the seed's 0-based player index. */
  function SeedSlot(s: int, cut: int): Option<int>
  {
    if s > cut then None else Some(s - 1)
  }

  /** Round-2 match j once the seeds above `cut` have been moved out of it. */
  function CutMatch(j: nat, cut: int, top: nat, order: seq<int>): Match
    requires 2 * j + 1 < |order|
  {
    var a, b := order[2 * j], order[2 * j + 1];
    FullMatch(2, j + 1, top).(
      one := if a > cut then None else Some(a - 1),
      two := if b > cut then None else Some(b - 1),
      active := !(a > cut || b > cut))
  }

  /** Preliminary match i once played into: seed index t + i against seed
      index t - i - 1, winner to the round-2 match that held the latter. */
  function PrelimMatch(i: nat, t: nat, order: seq<int>): Match
    requires t - i in order
  {
    Match(MatchId(1, i + 1), true, Some(t + i), Some(t - i - 1), Some(MatchId(2, IndexOf(order, t - i) / 2 + 1)), None)
  }

  /** After i turns of the preliminary loop, for a bracket whose first full
      round has h matches (t = 2h seeds), whose seed order is `order` and whose
      rounds after round 2 are `tail`. */
  ghost predicate PrelimInv(rs: Rounds, i: nat, rem: nat, h: nat, top: nat, order: seq<int>, tail: Rounds)
  {
    && 0 < rem < 2 * h
    && i <= rem
    && |order| == 2 * h
    && Seeding.PairedSeeds(order, h)
    && IsPermutation(order, 2 * h)
    && |rs| == top >= 2
    && |rs[0]| == rem
    && |rs[1]| == h
    && rs[2..] == tail
    && (forall u :: 0 <= u < i ==> 2 * h - u in order && rs[0][u] == PrelimMatch(u, 2 * h, order))
    && (forall u :: i <= u < rem ==> rs[0][u] == NewMatch(1, u + 1))
    && (forall j :: 0 <= j < h ==> rs[1][j] == CutMatch(j, 2 * h - i, top, order))
  }

  lemma PrelimStart(rs: Rounds, n: nat)
    requires n >= 4 && Rem(n) != 0
    requires IsSeeded(rs, n)
    ensures var k := Power(n);
      k >= 2 && |rs| == Top(n) >= 3 && PrelimInv(rs, 0, Rem(n), Pow2(k - 1), Top(n), Order(n), rs[2..])
  {
    var k := Power(n);
    Seeding.BracketShape(k);
    Seeding.BracketIsPermutation(k);
    var order, t := Order(n), Pow2(k);
    forall j | 0 <= j < |rs[1]|
      ensures rs[1][j] == CutMatch(j, t, Top(n), order)
    {
      assert order[2 * j] <= t && order[2 * j + 1] <= t;
    }
  }

  /** Slot facts of a cut match: it holds seed index s - 1 exactly when the
      seed order put s at one of its positions and s is not above the cut. */
  lemma CutMatchHolds(j: nat, cut: int, top: nat, order: seq<int>, s: int)
    requires 2 * j + 1 < |order|
    ensures CutMatch(j, cut, top, order).one == Some(s - 1) <==> order[2 * j] == s && s <= cut
    ensures CutMatch(j, cut, top, order).two == Some(s - 1) <==> order[2 * j + 1] == s && s <= cut
  {
  }

  /** The holder of seed index 2h - i - 1 is the round-2 match that the seed
      order placed it in, and nothing else holds it. */
  lemma HolderIsSeedMatch(rs: Rounds, i: nat, rem: nat, h: nat, top: nat, order: seq<int>, tail: Rounds)
    requires PrelimInv(rs, i, rem, h, top, order, tail) && i < rem
    ensures 2 * h - i in order
    ensures FindHolder(rs[1], 2 * h - i - 1, 0) == Some(IndexOf(order, 2 * h - i) / 2)
  {
    var s := 2 * h - i;
    assert s in order;
    var p := IndexOf(order, s);
    var j := p / 2;
    assert p == 2 * j || p == 2 * j + 1;
    CutMatchHolds(j, s, top, order, s);
    assert rs[1][j].one == Some(s - 1) || rs[1][j].two == Some(s - 1);
    forall u | 0 <= u < j
      ensures rs[1][u].one != Some(s - 1) && rs[1][u].two != Some(s - 1)
    {
      CutMatchHolds(u, s, top, order, s);
      assert order[2 * u] != order[p] && order[2 * u + 1] != order[p];
    }
    var found := FindHolder(rs[1], s - 1, 0);
    assert found.Some? && found.value <= j;
    if found.value < j {
      assert false;
    }
  }

  /** Clearing seed s from its round-2 match gives the match as cut below s. */
  lemma DetachCut(j: nat, s: int, top: nat, order: seq<int>)
    requires 2 * j + 1 < |order|
    requires (order[2 * j] == s < order[2 * j + 1]) || (order[2 * j] < s == order[2 * j + 1])
    ensures Detach(CutMatch(j, s, top, order), s - 1).Ok?
    ensures Detach(CutMatch(j, s, top, order), s - 1).value.(active := false) == CutMatch(j, s - 1, top, order)
  {
  }

  /** A round-2 match not holding seed s is the same cut at s and below s. */
  lemma CutSame(u: nat, s: int, top: nat, order: seq<int>)
    requires 2 * u + 1 < |order|
    requires order[2 * u] != s && order[2 * u + 1] != s
    ensures CutMatch(u, s - 1, top, order) == CutMatch(u, s, top, order)
  {
  }

  /** The state one turn later, written out. */
  function NextState(rs: Rounds, i: nat, h: nat, top: nat, order: seq<int>): Rounds
    requires |rs| >= 2 && i < |rs[0]|
    requires 2 * h - i in order
    requires IndexOf(order, 2 * h - i) / 2 < |rs[1]|
    requires 2 * (IndexOf(order, 2 * h - i) / 2) + 1 < |order|
  {
    var j := IndexOf(order, 2 * h - i) / 2;
    rs[0 := rs[0][i := PrelimMatch(i, 2 * h, order)]][1 := rs[1][j := CutMatch(j, 2 * h - i - 1, top, order)]]
  }

  lemma PrelimStepIs(rs: Rounds, i: nat, rem: nat, h: nat, top: nat, order: seq<int>, tail: Rounds)
    requires PrelimInv(rs, i, rem, h, top, order, tail) && i < rem
    ensures 2 * h - i in order
    ensures IndexOf(order, 2 * h - i) / 2 < h
    ensures PrelimStep(rs, i, 2 * h) == Ok(NextState(rs, i, h, top, order))
  {
    var s := 2 * h - i;
    HolderIsSeedMatch(rs, i, rem, h, top, order, tail);
    var p := IndexOf(order, s);
    var j := p / 2;
    assert rs[1][j] == CutMatch(j, s, top, order);
    assert p == 2 * j || p == 2 * j + 1;
    assert order[2 * j] < order[2 * j + 1];
    DetachCut(j, s, top, order);
  }

  /** Round 2 after one turn: every match is the cut below seed s. */
  lemma NextCuts(r: Round, c: Round, j: nat, s: int, t: int, top: nat, order: seq<int>)
    requires 2 * |r| == |order| && j < |r| && Distinct(order) && t == s - 1
    requires order[2 * j] == s || order[2 * j + 1] == s
    requires forall u :: 0 <= u < |r| ==> r[u] == CutMatch(u, s, top, order)
    requires c == r[j := CutMatch(j, t, top, order)]
    ensures forall u :: 0 <= u < |c| ==> c[u] == CutMatch(u, t, top, order)
  {
    forall u | 0 <= u < |r| && u != j
      ensures CutMatch(u, s - 1, top, order) == r[u]
    {
      assert order[2 * u] != s && order[2 * u + 1] != s;
      CutSame(u, s, top, order);
    }
  }

  /** The preliminary round after one turn: match i is played. */
  lemma NextPrelims(r: Round, c: Round, i: nat, rem: nat, h: nat, order: seq<int>)
    requires i < rem == |r| && 2 * h - i in order
    requires forall u :: 0 <= u < i ==> 2 * h - u in order && r[u] == PrelimMatch(u, 2 * h, order)
    requires forall u :: i <= u < rem ==> r[u] == NewMatch(1, u + 1)
    requires c == r[i := PrelimMatch(i, 2 * h, order)]
    ensures forall u :: 0 <= u < i + 1 ==> 2 * h - u in order && c[u] == PrelimMatch(u, 2 * h, order)
    ensures forall u :: i + 1 <= u < rem ==> c[u] == NewMatch(1, u + 1)
  {
    forall u | 0 <= u < i + 1
      ensures 2 * h - u in order && c[u] == PrelimMatch(u, 2 * h, order)
    {
      if u < i {
        assert c[u] == r[u];
      }
    }
  }

  /** The state one turn later keeps the invariant, one seed further on. */
  lemma KeepsAfter(rs: Rounds, i: nat, rem: nat, h: nat, top: nat, order: seq<int>, tail: Rounds)
    requires PrelimInv(rs, i, rem, h, top, order, tail) && i < rem
    requires 2 * h - i in order && IndexOf(order, 2 * h - i) / 2 < h
    ensures PrelimInv(NextState(rs, i, h, top, order), i + 1, rem, h, top, order, tail)
  {
    var s := 2 * h - i;
    var j := IndexOf(order, s) / 2;
    var c0 := rs[0][i := PrelimMatch(i, 2 * h, order)];
    var c1 := rs[1][j := CutMatch(j, 2 * h - (i + 1), top, order)];
    NextCuts(rs[1], c1, j, s, 2 * h - (i + 1), top, order);
    NextPrelims(rs[0], c0, i, rem, h, order);
    var rs' := rs[0 := c0][1 := c1];
    assert NextState(rs, i, h, top, order) == rs';
    assert rs'[2..] == rs[2..];
  }

  lemma PrelimStepKeeps(rs: Rounds, i: nat, rem: nat, h: nat, top: nat, order: seq<int>, tail: Rounds)
    requires PrelimInv(rs, i, rem, h, top, order, tail) && i < rem
    ensures PrelimStep(rs, i, 2 * h).Ok?
    ensures PrelimInv(PrelimStep(rs, i, 2 * h).value, i + 1, rem, h, top, order, tail)
  {
    PrelimStepIs(rs, i, rem, h, top, order, tail);
    KeepsAfter(rs, i, rem, h, top, order, tail);
  }

  lemma {:induction false} PrelimLoopEnds(rs: Rounds, i: nat, rem: nat, h: nat, top: nat, order: seq<int>, tail: Rounds)
    requires PrelimInv(rs, i, rem, h, top, order, tail)
    ensures PrelimLoop(rs, i, 2 * h).Ok?
    ensures PrelimInv(PrelimLoop(rs, i, 2 * h).value, rem, rem, h, top, order, tail)
    decreases rem - i
  {
    if i < rem {
      PrelimStepKeeps(rs, i, rem, h, top, order, tail);
      PrelimLoopEnds(PrelimStep(rs, i, 2 * h).value, i + 1, rem, h, top, order, tail);
    }
  }

  // ---------------------------------------------------------------------------
  // The finished bracket

  /** Round sizes of the power-of-two rounds: 2^(k-1), ..., 2, 1. */
  function FullSizes(k: nat): (s: seq<nat>)
    ensures |s| == k
  {
    if k == 0 then [] else [Pow2(k - 1)] + FullSizes(k - 1)
  }

  lemma {:induction false} FullSizesAt(k: nat)
    ensures forall j :: 0 <= j < k ==> FullSizes(k)[j] == Pow2(k - 1 - j)
    ensures Sum(FullSizes(k)) == Pow2(k) - 1
  {
    if k > 0 {
      FullSizesAt(k - 1);
      assert FullSizes(k)[1..] == FullSizes(k - 1);
      forall j | 1 <= j < k
        ensures FullSizes(k)[j] == Pow2(k - 1 - j)
      {
        assert FullSizes(k)[j] == FullSizes(k - 1)[j - 1];
      }
    }
  }

  /** The bracket before the third-place option, written out match by match
      for exponent k, rem preliminary matches, first full round f, top rounds
      and seed order `order`: preliminary match i (if any) pairs seed indices
      2^k + i and 2^k - i - 1; the first full round holds the seed order with
      the seeds above 2^k - rem removed; later rounds are empty and chained. */
  ghost predicate PlainShape(rs: Rounds, k: nat, rem: nat, f: nat, top: nat, order: seq<int>)
  {
    var t := Pow2(k);
    && k >= 2
    && t == 2 * Pow2(k - 1)
    && rem < t
    && f == FirstFull(rem)
    && |order| == t
    && Seeding.PairedSeeds(order, Pow2(k - 1))
    && IsPermutation(order, t)
    && top == f + k - 1
    && |rs| == top
    && (forall j :: f - 1 <= j < top ==> |rs[j]| == Pow2(k + f - 2 - j))
    && (forall j, i :: f <= j < top && 0 <= i < |rs[j]| ==> rs[j][i] == FullMatch(j + 1, i + 1, top))
    && (rem != 0 ==> |rs[0]| == rem)
    && (rem != 0 ==> forall i :: 0 <= i < rem ==> t - i in order && rs[0][i] == PrelimMatch(i, t, order))
    && (rem != 0 ==> forall j :: 0 <= j < |rs[1]| ==> rs[1][j] == CutMatch(j, t - rem, top, order))
    && (rem == 0 ==> forall j :: 0 <= j < |rs[0]| ==> rs[0][j] == SeededMatch(1, j, top, order))
  }

  ghost predicate ElimPlain(rs: Rounds, n: nat)
    requires n >= 4
  {
    PlainShape(rs, Power(n), Rem(n), FirstFull(Rem(n)), Top(n), Order(n))
  }

  lemma ElimFalseUnfold(n: nat)
    requires n >= 4
    ensures |Seeded(n)| >= 2
    ensures Elim(n, false) == if Rem(n) != 0 then PrelimLoop(Seeded(n), 0, Pow2(Power(n))) else Ok(Seeded(n))
  {
    SeededShape(n);
  }

  /** The end state of the preliminary loop is the written-out bracket. */
  lemma PrelimPlain(rs: Rounds, rs0: Rounds, k: nat, rem: nat, top: nat, order: seq<int>)
    requires k >= 2 && rem != 0 && top == k + 1 && |rs0| == top
    requires Pow2(k) == 2 * Pow2(k - 1)
    requires forall j :: 1 <= j < top ==> |rs0[j]| == Pow2(k - j)
    requires forall j, i :: 2 <= j < top && 0 <= i < |rs0[j]| ==> rs0[j][i] == FullMatch(j + 1, i + 1, top)
    requires PrelimInv(rs, rem, rem, Pow2(k - 1), top, order, rs0[2..])
    ensures PlainShape(rs, k, rem, 2, top, order)
  {
    forall j | 2 <= j < top
      ensures rs[j] == rs0[j]
    {
      assert rs[j] == rs[2..][j - 2] == rs0[2..][j - 2];
    }
  }

  /** A bracket without preliminary round is the seeded skeleton itself. */
  lemma SeededPlain(n: nat)
    requires n >= 4 && Rem(n) == 0
    ensures ElimPlain(Seeded(n), n)
  {
    var k := Power(n);
    SeededShape(n);
    Seeding.BracketShape(k);
    Seeding.BracketIsPermutation(k);
  }

  /** Where the preliminary loop starts for exponent k and rem preliminary
      matches: the rounds the construction built, nothing visited yet. */
  ghost predicate PrelimStarts(rs0: Rounds, k: nat, rem: nat, top: nat, order: seq<int>)
  {
    && rem != 0 && LaterRounds(rs0, k, top)
    && PrelimInv(rs0, 0, rem, Pow2(k - 1), top, order, rs0[2..])
  }

  /** The loop, run from the seeded state, ends in the written-out bracket. */
  lemma PrelimLoopShape(rs0: Rounds, k: nat, rem: nat, f: nat, top: nat, order: seq<int>)
    requires f == 2 && PrelimStarts(rs0, k, rem, top, order)
    ensures PrelimLoop(rs0, 0, Pow2(k)).Ok?
    ensures PlainShape(PrelimLoop(rs0, 0, Pow2(k)).value, k, rem, f, top, order)
  {
    PrelimLoopEnds(rs0, 0, rem, Pow2(k - 1), top, order, rs0[2..]);
    PrelimPlain(PrelimLoop(rs0, 0, Pow2(k)).value, rs0, k, rem, top, order);
  }

  lemma PrelimFromSeeded(rs0: Rounds, n: nat)
    requires n >= 4 && Rem(n) != 0
    requires FirstFull(Rem(n)) == 2 && PrelimStarts(rs0, Power(n), Rem(n), Top(n), Order(n))
    ensures PrelimLoop(rs0, 0, Pow2(Power(n))).Ok?
    ensures ElimPlain(PrelimLoop(rs0, 0, Pow2(Power(n))).value, n)
  {
    PrelimLoopShape(rs0, Power(n), Rem(n), FirstFull(Rem(n)), Top(n), Order(n));
  }

  lemma PrelimLoopPlain(n: nat)
    requires n >= 4 && Rem(n) != 0
    ensures |Seeded(n)| >= 2
    ensures PrelimLoop(Seeded(n), 0, Pow2(Power(n))).Ok?
    ensures ElimPlain(PrelimLoop(Seeded(n), 0, Pow2(Power(n))).value, n)
  {
    SeededShape(n);
    SeededLater(Seeded(n), n);
    PrelimStart(Seeded(n), n);
    PrelimFromSeeded(Seeded(n), n);
  }

  /** Without the third-place option the construction never raises and yields
      the bracket written out by ElimPlain. */
  lemma ElimPlainShape(n: nat)
    requires n >= 4
    ensures Elim(n, false).Ok?
    ensures ElimPlain(Elim(n, false).value, n)
  {
    ElimFalseUnfold(n);
    if Rem(n) != 0 {
      PrelimLoopPlain(n);
    } else {
      SeededPlain(n);
    }
  }

  /** The option only adds the third-place match; everything else is as
      without it. */
  lemma ElimWithThirdPlace(n: nat)
    requires n >= 4
    ensures Elim(n, false).Ok? && |Elim(n, false).value| >= 2
    ensures Elim(n, true) == Ok(ThirdPlace(Elim(n, false).value))
  {
    ElimPlainShape(n);
  }

  /** The last round of a bracket. */
  function FinalRound(rs: Rounds): Round
    requires |rs| >= 1
  {
    rs[|rs| - 1]
  }

  /** The round before the last. */
  function SemiRound(rs: Rounds): Round
    requires |rs| >= 2
  {
    rs[|rs| - 2]
  }

  /** What the third-place step does: the final round gains a fresh match
      numbered one past its last, both semifinals send their loser there, and
      every other round is untouched. */
  lemma ThirdPlaceEffect(rs: Rounds)
    requires |rs| >= 2
    ensures FinalRound(ThirdPlace(rs)) == FinalRound(rs) + [NewMatch(|rs|, |FinalRound(rs)| + 1)]
    ensures |SemiRound(ThirdPlace(rs))| == |SemiRound(rs)|
    ensures forall i :: 0 <= i < |SemiRound(rs)| ==>
              SemiRound(ThirdPlace(rs))[i] == SemiRound(rs)[i].(loss := Some(MatchId(|rs|, |FinalRound(rs)| + 1)))
    ensures forall j :: 0 <= j < |rs| - 2 ==> ThirdPlace(rs)[j] == rs[j]
  {
  }

  // ---------------------------------------------------------------------------
  // Every player is placed exactly once

  /** The slots of a round follow the seed order with the seeds above `cut`
      left out. */
  ghost predicate CutSlots(round: Round, order: seq<int>, cut: int)
  {
    && |order| == 2 * |round|
    && forall j :: 0 <= j < |round| ==>
         round[j].one == SeedSlot(order[2 * j], cut) && round[j].two == SeedSlot(order[2 * j + 1], cut)
  }

  /** A round cut from a permutation of the seeds holds exactly the players
      below the cut, each once. */
  lemma CutRoundCount(round: Round, order: seq<int>, cut: int, p: int)
    requires CutSlots(round, order, cut)
    requires IsPermutation(order, |order|)
    requires 0 <= cut <= |order|
    ensures SlotCount(round, p) == if 0 <= p < cut then 1 else 0
  {
    if 0 <= p < cut {
      assert p + 1 in order;
      var x := IndexOf(order, p + 1);
      var c := x / 2;
      assert x == 2 * c || x == 2 * c + 1;
      forall i | 0 <= i < |round| && i != c
        ensures MatchHolds(round[i], p) == 0
      {
        assert order[2 * i] != order[x] && order[2 * i + 1] != order[x];
      }
      assert order[2 * c] != order[2 * c + 1];
      SlotCountOne(round, p, c);
    } else {
      SlotCountNone(round, p);
    }
  }

  /** The preliminary round holds players t - |round| .. t + |round| - 1, each
      once. */
  lemma PrelimRoundCount(round: Round, t: int, p: int)
    requires forall i :: 0 <= i < |round| ==> round[i].one == Some(t + i) && round[i].two == Some(t - i - 1)
    ensures SlotCount(round, p) == if t - |round| <= p < t + |round| then 1 else 0
  {
    if t <= p < t + |round| {
      SlotCountOne(round, p, p - t);
    } else if t - |round| <= p < t {
      SlotCountOne(round, p, t - 1 - p);
    } else {
      SlotCountNone(round, p);
    }
  }

  /** Rounds after the first full one are empty. */
  lemma LaterRoundsEmpty(rs: Rounds, k: nat, rem: nat, f: nat, top: nat, order: seq<int>, p: int)
    requires PlainShape(rs, k, rem, f, top, order)
    ensures forall j :: f <= j < |rs| ==> SlotCount(rs[j], p) == 0
  {
    forall j | f <= j < |rs|
      ensures SlotCount(rs[j], p) == 0
    {
      SlotCountNone(rs[j], p);
    }
  }

  /** A preliminary round of rem matches around t followed by a round cut at
      t - rem, with nobody after them, places players 0 .. t + rem - 1 once. */
  lemma TwoRoundsPlaced(rs: Rounds, t: int, rem: nat, order: seq<int>, p: int)
    requires |rs| >= 2 && |rs[0]| == rem && 0 <= t - rem <= |order|
    requires forall j :: 2 <= j < |rs| ==> SlotCount(rs[j], p) == 0
    requires forall i :: 0 <= i < |rs[0]| ==> rs[0][i].one == Some(t + i) && rs[0][i].two == Some(t - i - 1)
    requires CutSlots(rs[1], order, t - rem)
    requires IsPermutation(order, |order|)
    ensures Placed(rs, p) == if 0 <= p < t + rem then 1 else 0
  {
    PlacedPrefix(rs, 2, p);
    assert rs[..2] == [rs[0], rs[1]];
    PlacedTwo(rs[0], rs[1], p);
    PrelimRoundCount(rs[0], t, p);
    CutRoundCount(rs[1], order, t - rem, p);
  }

  lemma PlainPlacedPrelim(rs: Rounds, k: nat, rem: nat, f: nat, top: nat, order: seq<int>, p: int)
    requires PlainShape(rs, k, rem, f, top, order) && rem != 0
    ensures Placed(rs, p) == if 0 <= p < Pow2(k) + rem then 1 else 0
  {
    LaterRoundsEmpty(rs, k, rem, f, top, order, p);
    PrelimSlots(rs, k, rem, f, top, order);
    PrelimCutSlots(rs, k, rem, f, top, order);
    TwoRoundsPlaced(rs, Pow2(k), rem, order, p);
  }

  lemma PrelimSlots(rs: Rounds, k: nat, rem: nat, f: nat, top: nat, order: seq<int>)
    requires PlainShape(rs, k, rem, f, top, order) && rem != 0
    ensures |rs[0]| == rem
    ensures forall i :: 0 <= i < |rs[0]| ==> rs[0][i].one == Some(Pow2(k) + i) && rs[0][i].two == Some(Pow2(k) - i - 1)
  {
    forall i | 0 <= i < |rs[0]|
      ensures rs[0][i].one == Some(Pow2(k) + i) && rs[0][i].two == Some(Pow2(k) - i - 1)
    {
      assert rs[0][i] == PrelimMatch(i, Pow2(k), order);
    }
  }

  lemma PrelimCutSlots(rs: Rounds, k: nat, rem: nat, f: nat, top: nat, order: seq<int>)
    requires PlainShape(rs, k, rem, f, top, order) && rem != 0
    ensures 0 <= Pow2(k) - rem <= |order|
    ensures CutSlots(rs[1], order, Pow2(k) - rem)
  {
    assert |rs[1]| == Pow2(k - 1);
    assert |rs[0]| == rem;
    var cut := Pow2(k) - rem;
    forall j | 0 <= j < |rs[1]|
      ensures rs[1][j].one == SeedSlot(order[2 * j], cut) && rs[1][j].two == SeedSlot(order[2 * j + 1], cut)
    {
      assert rs[1][j] == CutMatch(j, cut, top, order);
    }
  }

  lemma PlainPlacedFull(rs: Rounds, k: nat, rem: nat, f: nat, top: nat, order: seq<int>, p: int)
    requires PlainShape(rs, k, rem, f, top, order) && rem == 0
    ensures Placed(rs, p) == if 0 <= p < Pow2(k) then 1 else 0
  {
    var t := Pow2(k);
    LaterRoundsEmpty(rs, k, rem, f, top, order, p);
    PlacedPrefix(rs, 1, p);
    assert rs[..1] == [rs[0]];
    PlacedTwo(rs[0], rs[0], p);
    forall j | 0 <= j < |rs[0]|
      ensures rs[0][j].one == SeedSlot(order[2 * j], t) && rs[0][j].two == SeedSlot(order[2 * j + 1], t)
    {
      assert rs[0][j] == SeededMatch(1, j, top, order);
    }
    CutRoundCount(rs[0], order, t, p);
  }

  /** The third-place match holds nobody, so it changes no count. */
  lemma ThirdPlacePlaced(rs: Rounds, p: int)
    requires |rs| >= 2
    ensures Placed(ThirdPlace(rs), p) == Placed(rs, p)
  {
    var rs' := ThirdPlace(rs);
    ThirdPlaceEffect(rs);
    SlotCountSlots(SemiRound(rs'), SemiRound(rs), p);
    SlotCountSnoc(FinalRound(rs), NewMatch(|rs|, |FinalRound(rs)| + 1), p);
    forall j | 0 <= j < |rs|
      ensures SlotCount(rs'[j], p) == SlotCount(rs[j], p)
    {
      if j < |rs| - 2 {
        assert rs'[j] == rs[j];
      }
    }
    PlacedSame(rs', rs, p);
  }

  /** Each of the n players sits in exactly one slot of the bracket and no
      one else sits anywhere, with or without the third-place match. */
  lemma ElimPlacesEveryone(n: nat, thirdPlace: bool, p: int)
    requires n >= 4
    ensures Elim(n, thirdPlace).Ok?
    ensures Placed(Elim(n, thirdPlace).value, p) == if 0 <= p < n then 1 else 0
  {
    ElimPlainShape(n);
    ElimWithThirdPlace(n);
    var rs := Elim(n, false).value;
    if Rem(n) != 0 {
      PlainPlacedPrelim(rs, Power(n), Rem(n), FirstFull(Rem(n)), Top(n), Order(n), p);
    } else {
      PlainPlacedFull(rs, Power(n), Rem(n), FirstFull(Rem(n)), Top(n), Order(n), p);
    }
    if thirdPlace {
      ThirdPlacePlaced(rs, p);
    }
  }

  // ---------------------------------------------------------------------------
  // Round sizes

  lemma PlainSizes(rs: Rounds, k: nat, rem: nat, f: nat, top: nat, order: seq<int>)
    requires PlainShape(rs, k, rem, f, top, order)
    ensures Sizes(rs) == (if rem != 0 then [rem] else []) + FullSizes(k)
    ensures Sum(Sizes(rs)) == Pow2(k) + rem - 1
  {
    RoundSizes(rs, k, rem, f, top);
  }

  /** The round sizes from the size facts alone. */
  lemma RoundSizes(rs: Rounds, k: nat, rem: nat, f: nat, top: nat)
    requires k >= 2 && f == FirstFull(rem) && top == f + k - 1 && |rs| == top
    requires forall j :: f - 1 <= j < top ==> |rs[j]| == Pow2(k + f - 2 - j)
    requires rem != 0 ==> |rs[0]| == rem
    ensures Sizes(rs) == (if rem != 0 then [rem] else []) + FullSizes(k)
    ensures Sum(Sizes(rs)) == Pow2(k) + rem - 1
  {
    FullSizesAt(k);
    var pre: seq<nat> := if rem != 0 then [rem] else [];
    var want := pre + FullSizes(k);
    assert |want| == |rs|;
    forall j | 0 <= j < |rs|
      ensures Sizes(rs)[j] == want[j]
    {
      if j >= f - 1 {
        assert want[j] == FullSizes(k)[j - (f - 1)];
      }
    }
    SumAppend(pre, FullSizes(k));
    if rem != 0 {
      assert Sum(pre) == rem + Sum([]);
    }
  }

  /** The third-place match adds one match to the total. */
  lemma ThirdPlaceSizes(rs: Rounds)
    requires |rs| >= 2
    ensures Sum(Sizes(ThirdPlace(rs))) == Sum(Sizes(rs)) + 1
  {
    var rs' := ThirdPlace(rs);
    ThirdPlaceEffect(rs);
    var m := |rs| - 1;
    var s, s' := Sizes(rs), Sizes(rs');
    assert s == s[..m] + [s[m]];
    assert s' == s'[..m] + [s'[m]];
    assert s[..m] == s'[..m] by {
      forall j | 0 <= j < m
        ensures s[j] == s'[j]
      {
        if j < m - 1 {
          assert rs'[j] == rs[j];
        }
      }
    }
    SumAppend(s[..m], [s[m]]);
    SumAppend(s'[..m], [s'[m]]);
    assert Sum([s[m]]) == s[m] + Sum([]);
    assert Sum([s'[m]]) == s'[m] + Sum([]);
  }

  /** The bracket has k rounds, plus a preliminary round when n is not a power
      of two; round sizes are rem (if any), then 2^(k-1), ..., 2, 1; in all
      n - 1 matches, or n with the third-place match. */
  lemma ElimRoundSizes(n: nat, thirdPlace: bool)
    requires n >= 4
    ensures Elim(n, thirdPlace).Ok?
    ensures |Elim(n, thirdPlace).value| == Power(n) + (if Rem(n) != 0 then 1 else 0)
    ensures !thirdPlace ==>
              Sizes(Elim(n, thirdPlace).value) == (if Rem(n) != 0 then [Rem(n)] else []) + FullSizes(Power(n))
    ensures Sum(Sizes(Elim(n, thirdPlace).value)) == n - 1 + (if thirdPlace then 1 else 0)
  {
    ElimPlainShape(n);
    ElimWithThirdPlace(n);
    var rs := Elim(n, false).value;
    PlainSizes(rs, Power(n), Rem(n), FirstFull(Rem(n)), Top(n), Order(n));
    if thirdPlace {
      ThirdPlaceSizes(rs);
    }
  }

  // ---------------------------------------------------------------------------
  // Routing

  /** The winner of match m of every round from the first full one on, except
      the last, goes to match ceil(m/2) of the next round, which exists; the
      last round is the single final, whose winner goes nowhere; no match
      routes its loser anywhere. */
  ghost predicate WinnerPaths(rs: Rounds, f: nat)
  {
    && |rs| >= 1
    && f >= 1
    && (forall j, i :: f - 1 <= j < |rs| - 1 && 0 <= i < |rs[j]| ==>
          rs[j][i].win == Some(MatchId(j + 2, Half(i + 1))) && Has(rs, MatchId(j + 2, Half(i + 1))))
    && |FinalRound(rs)| == 1 && FinalRound(rs)[0].win == None
    && (forall j, i :: 0 <= j < |rs| && 0 <= i < |rs[j]| ==> rs[j][i].loss == None)
  }

  lemma PlainWinAt(rs: Rounds, k: nat, rem: nat, f: nat, top: nat, order: seq<int>, j: nat, i: nat)
    requires PlainShape(rs, k, rem, f, top, order)
    requires f - 1 <= j < |rs| - 1 && i < |rs[j]|
    ensures rs[j][i].win == Some(MatchId(j + 2, Half(i + 1))) && Has(rs, MatchId(j + 2, Half(i + 1)))
  {
    Pow2Small(k + f - 2 - j);
    assert |rs[j + 1]| == Pow2(k + f - 2 - (j + 1));
    if j == f - 1 && rem != 0 {
      assert rs[j][i] == CutMatch(i, Pow2(k) - rem, top, order);
    } else if j == f - 1 {
      assert rs[j][i] == SeededMatch(1, i, top, order);
    } else {
      assert rs[j][i] == FullMatch(j + 1, i + 1, top);
    }
  }

  lemma PlainLossAt(rs: Rounds, k: nat, rem: nat, f: nat, top: nat, order: seq<int>, j: nat, i: nat)
    requires PlainShape(rs, k, rem, f, top, order)
    requires j < |rs| && i < |rs[j]|
    ensures rs[j][i].loss == None
  {
    if j == 0 && rem != 0 {
      assert rs[j][i] == PrelimMatch(i, Pow2(k), order);
    } else if j == 1 && rem != 0 {
      assert rs[j][i] == CutMatch(i, Pow2(k) - rem, top, order);
    } else if j == 0 {
      assert rs[j][i] == SeededMatch(1, i, top, order);
    } else {
      assert rs[j][i] == FullMatch(j + 1, i + 1, top);
    }
  }

  /** The last round is the single final, whose winner goes nowhere. */
  lemma PlainFinalRound(rs: Rounds, k: nat, rem: nat, f: nat, top: nat, order: seq<int>)
    requires PlainShape(rs, k, rem, f, top, order)
    ensures |FinalRound(rs)| == 1 && FinalRound(rs)[0].win == None
  {
    var last := |rs| - 1;
    assert k + f - 2 - last == 0;
    assert |rs[last]| == Pow2(0) == 1;
    assert rs[last][0] == FullMatch(last + 1, 1, top);
    assert FinalRound(rs) == rs[last];
  }

  lemma PlainWinnerPaths(rs: Rounds, k: nat, rem: nat, f: nat, top: nat, order: seq<int>)
    requires PlainShape(rs, k, rem, f, top, order)
    ensures WinnerPaths(rs, f)
  {
    forall j, i | f - 1 <= j < |rs| - 1 && 0 <= i < |rs[j]|
      ensures rs[j][i].win == Some(MatchId(j + 2, Half(i + 1))) && Has(rs, MatchId(j + 2, Half(i + 1)))
    {
      PlainWinAt(rs, k, rem, f, top, order, j, i);
    }
    PlainFinalRound(rs, k, rem, f, top, order);
    forall j, i | 0 <= j < |rs| && 0 <= i < |rs[j]|
      ensures rs[j][i].loss == None
    {
      PlainLossAt(rs, k, rem, f, top, order, j, i);
    }
  }

  /** Without the third-place option the rounds are chained by winner paths
      alone, ending in a single final. */
  lemma ElimWinnerPaths(n: nat)
    requires n >= 4
    ensures Elim(n, false).Ok?
    ensures WinnerPaths(Elim(n, false).value, FirstFull(Rem(n)))
  {
    ElimPlainShape(n);
    PlainWinnerPaths(Elim(n, false).value, Power(n), Rem(n), FirstFull(Rem(n)), Top(n), Order(n));
  }

  /** Preliminary match i after the loop: active, seed index t + i against
      seed index t - i - 1 (seeds t + i + 1 and t - i, which add up to 2t + 1),
      and its winner goes to the round-2 match that the seed order gave seed
      t - i, where that seed's slot is now empty and the match is inactive. */
  ghost predicate PrelimPlayed(rs: Rounds, i: nat, t: int, order: seq<int>)
  {
    && |rs| >= 2
    && i < |rs[0]|
    && rs[0][i].active
    && rs[0][i].one == Some(t + i)
    && rs[0][i].two == Some(t - i - 1)
    && rs[0][i].win.Some?
    && rs[0][i].win.value.round == 2
    && Has(rs, rs[0][i].win.value)
    && var c := rs[0][i].win.value.number - 1;
       && 2 * c + 1 < |order|
       && !rs[1][c].active
       && ((order[2 * c] == t - i && rs[1][c].one == None) || (order[2 * c + 1] == t - i && rs[1][c].two == None))
  }

  lemma PrelimPlayedAt(rs: Rounds, i: nat, rem: nat, t: nat, top: nat, order: seq<int>)
    requires |rs| >= 2 && i < rem == |rs[0]| && rem < t == |order| == 2 * |rs[1]|
    requires IsPermutation(order, t)
    requires t - i in order && rs[0][i] == PrelimMatch(i, t, order)
    requires forall j :: 0 <= j < |rs[1]| ==> rs[1][j] == CutMatch(j, t - rem, top, order)
    ensures PrelimPlayed(rs, i, t, order)
  {
    var x := IndexOf(order, t - i);
    var c := x / 2;
    assert x == 2 * c || x == 2 * c + 1;
    assert rs[0][i].win == Some(MatchId(2, c + 1));
    assert t - i > t - rem;
    var w := CutMatch(c, t - rem, top, order);
    assert !w.active;
    assert (order[2 * c] == t - i && w.one == None) || (order[2 * c + 1] == t - i && w.two == None);
    assert rs[1][c] == w;
  }

  lemma PlainPrelimPlayed(rs: Rounds, k: nat, rem: nat, f: nat, top: nat, order: seq<int>, i: nat)
    requires PlainShape(rs, k, rem, f, top, order) && rem != 0 && i < rem
    ensures PrelimPlayed(rs, i, Pow2(k), order)
  {
    var t := Pow2(k);
    assert rs[0][i] == PrelimMatch(i, t, order);
    assert |rs[1]| == Pow2(k - 1);
    PrelimPlayedAt(rs, i, rem, t, top, order);
  }

  lemma ElimPrelimMatches(n: nat, i: nat)
    requires n >= 4 && i < Rem(n)
    ensures Elim(n, false).Ok?
    ensures PrelimPlayed(Elim(n, false).value, i, Pow2(Power(n)), Order(n))
  {
    ElimPlainShape(n);
    PlainPrelimPlayed(Elim(n, false).value, Power(n), Rem(n), FirstFull(Rem(n)), Top(n), Order(n), i);
  }

  /** The first full round (round 1 or 2). */
  function FirstFullRound(rs: Rounds, f: nat): Round
    requires 1 <= f <= |rs|
  {
    rs[f - 1]
  }

  /** A first-full-round match is active exactly when both slots are filled,
      and then pairs the better seed first with the seed that completes the sum
      t + 1. */
  ghost predicate SeedPair(m: Match, t: int)
  {
    && (m.active <==> m.one.Some? && m.two.Some?)
    && (m.one.Some? && m.two.Some? ==> m.one.value < m.two.value && m.one.value + m.two.value == t - 1)
  }

  lemma PlainFirstPairs(rs: Rounds, k: nat, rem: nat, f: nat, top: nat, order: seq<int>)
    requires PlainShape(rs, k, rem, f, top, order)
    ensures 1 <= f <= |rs|
    ensures forall i :: 0 <= i < |FirstFullRound(rs, f)| ==> SeedPair(FirstFullRound(rs, f)[i], Pow2(k))
  {
    var h := Pow2(k - 1);
    forall i | 0 <= i < |FirstFullRound(rs, f)|
      ensures SeedPair(FirstFullRound(rs, f)[i], Pow2(k))
    {
      assert |rs[f - 1]| == h;
      assert order[2 * i] + order[2 * i + 1] == 2 * h + 1 && order[2 * i] < order[2 * i + 1];
      if rem != 0 {
        assert rs[1][i] == CutMatch(i, Pow2(k) - rem, top, order);
      } else {
        assert rs[0][i] == SeededMatch(1, i, top, order);
      }
    }
  }

  /** Seeds s and 2^k + 1 - s meet in the first full round (as far as both are
      still there), the better seed in the first slot, and exactly the matches
      with both slots filled are active. */
  lemma ElimFirstRoundPairs(n: nat)
    requires n >= 4
    ensures Elim(n, false).Ok?
    ensures 1 <= FirstFull(Rem(n)) <= |Elim(n, false).value|
    ensures forall i :: 0 <= i < |FirstFullRound(Elim(n, false).value, FirstFull(Rem(n)))| ==>
              SeedPair(FirstFullRound(Elim(n, false).value, FirstFull(Rem(n)))[i], Pow2(Power(n)))
  {
    ElimPlainShape(n);
    PlainFirstPairs(Elim(n, false).value, Power(n), Rem(n), FirstFull(Rem(n)), Top(n), Order(n));
  }

  // ---------------------------------------------------------------------------
  // No cycles

  /** Rank of a round: its number. */
  function Ident(r: nat): nat
  {
    r
  }

  lemma PlainRanked(rs: Rounds, k: nat, rem: nat, f: nat, top: nat, order: seq<int>)
    requires PlainShape(rs, k, rem, f, top, order)
    ensures RankedEdges(rs, Ident)
  {
    PlainWinnerPaths(rs, k, rem, f, top, order);
    forall r: nat, i: nat, to: MatchId | r < |rs| && i < |rs[r]| && EdgeFrom(rs, r, i, to)
      ensures Has(rs, to) && Ident(r + 1) < Ident(to.round)
    {
      if r < f - 1 {
        PlainPrelimPlayed(rs, k, rem, f, top, order, i);
      }
    }
  }

  lemma ThirdPlaceRanked(rs: Rounds)
    requires |rs| >= 2
    requires RankedEdges(rs, Ident)
    requires forall j, i :: 0 <= j < |rs| && 0 <= i < |rs[j]| ==> rs[j][i].loss == None
    ensures RankedEdges(ThirdPlace(rs), Ident)
  {
    var rs': Rounds := ThirdPlace(rs);
    ThirdPlaceEffect(rs);
    forall j: nat | j < |rs|
      ensures |rs'[j]| >= |rs[j]|
      ensures forall i :: 0 <= i < |rs[j]| ==> rs'[j][i].win == rs[j][i].win
    {
      if j < |rs| - 2 {
        assert rs'[j] == rs[j];
      }
    }
    forall r: nat, i: nat, to: MatchId | r < |rs'| && i < |rs'[r]| && EdgeFrom(rs', r, i, to)
      ensures Has(rs', to) && Ident(r + 1) < Ident(to.round)
    {
      if r < |rs| - 2 {
        assert rs'[r] == rs[r];
        assert EdgeFrom(rs, r, i, to);
      } else if r == |rs| - 2 {
        if rs'[r][i].win == Some(to) {
          assert EdgeFrom(rs, r, i, to);
        }
      } else if i < |rs[r]| {
        assert rs'[r][i] == rs[r][i];
        assert EdgeFrom(rs, r, i, to);
      }
    }
  }

  /** Every routing edge leads to an existing match of a later round, so no
      walk along winner and loser paths returns to its start. */
  lemma ElimAcyclic(n: nat, thirdPlace: bool)
    requires n >= 4
    ensures Elim(n, thirdPlace).Ok?
    ensures RankedEdges(Elim(n, thirdPlace).value, Ident)
  {
    ElimPlainShape(n);
    ElimWithThirdPlace(n);
    var rs := Elim(n, false).value;
    PlainRanked(rs, Power(n), Rem(n), FirstFull(Rem(n)), Top(n), Order(n));
    if thirdPlace {
      PlainWinnerPaths(rs, Power(n), Rem(n), FirstFull(Rem(n)), Top(n), Order(n));
      ThirdPlaceRanked(rs);
    }
  }
}
