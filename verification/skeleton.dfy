/** The part of bracket construction that single and double elimination share
    (lib/Algorithms.js:53-75 and 106-128): the bracket size, the optional
    preliminary round, the power-of-two rounds chained by winner paths, and
    the seeding of the first full round. */
module Skeleton {
  import opened Base
  import opened Arena
  import Seeding

  /** k = floor(log2 n): the first full round has 2^(k-1) matches. */
  function Power(n: nat): (k: nat)
    requires n >= 1
    ensures Pow2(k) <= n < 2 * Pow2(k)
  {
    Log2(n)
  }

  /** The excess of n over the largest power of two not above it; the number
      of preliminary matches. */
  function Rem(n: nat): (rem: nat)
    requires n >= 1
    ensures rem < Pow2(Power(n))
    ensures Pow2(Power(n)) + rem == n
  {
    n - Pow2(Power(n))
  }

  /** Number of the first full (power-of-two) round: 2 after a preliminary
      round, else 1. */
  function FirstFull(rem: nat): nat
  {
    if rem != 0 then 2 else 1
  }

  /** Round r's matches with every winner sent to match ceil(m/2) of round
      next, as far as that match exists. */
  function WireRound(round: Round, rs: Rounds, next: nat): (w: Round)
    ensures |w| == |round|
    ensures forall i :: 0 <= i < |round| ==> w[i] == round[i].(win := Find(rs, next, Half(round[i].id.number)))
  {
    seq(|round|, i requires 0 <= i < |round| => round[i].(win := Find(rs, next, Half(round[i].id.number))))
  }

  /** `forEach` over round r: every match's winner goes to match ceil(m/2) of
      round r + 1 (lib/Algorithms.js:67). */
  function WireToNext(rs: Rounds, r: nat): (rs': Rounds)
    requires 1 <= r <= |rs|
    ensures |rs'| == |rs|
    ensures forall j :: 0 <= j < |rs| && j != r - 1 ==> rs'[j] == rs[j]
    ensures rs'[r - 1] == WireRound(rs[r - 1], rs, r + 1)
  {
    rs[r - 1 := WireRound(rs[r - 1], rs, r + 1)]
  }

  /** The do-while of lib/Algorithms.js:65-69: push a round of 2^pc matches
      numbered r, wire the previous full round into it (not for the first full
      round, whose pc is k - 1), and continue while r <= top. */
  function FullRounds(rs: Rounds, r: nat, pc: nat, k: nat, top: nat): Rounds
    requires r + pc == top
    requires |rs| == r - 1 >= 0
    requires r >= 2 || pc == k - 1
    decreases pc
  {
    var rs1 := rs + [NewRound(r, Pow2(pc))];
    var rs2 := if pc != k - 1 then WireToNext(rs1, r - 1) else rs1;
    if r + 1 <= top then FullRounds(rs2, r + 1, pc - 1, k, top) else rs2
  }

  /** The round skeleton before any player is placed: a preliminary round of
      rem matches when n is not a power of two, then rounds of 2^(k-1), ...,
      2, 1 matches (lib/Algorithms.js:57-69). */
  function Build(n: nat): Rounds
    requires n >= 4
  {
    var k, rem := Power(n), Rem(n);
    var pre := if rem != 0 then [NewRound(1, rem)] else [];
    var first := FirstFull(rem);
    FullRounds(pre, first, k - 1, k, first + k - 1)
  }

  /** Match m of full round R once the rounds up to `upto` exist. */
  function FullMatch(round: nat, number: nat, upto: nat): Match
  {
    NewMatch(round, number).(win := if round < upto then Some(MatchId(round + 1, Half(number))) else None)
  }

  /** Shape of the full rounds first..upto (stored at indices first-1..upto-1)
      after the loop reached round upto: full round R has 2^(k-1-(R-first))
      fresh matches and, except the last one built so far, routes match m's
      winner to match ceil(m/2) of round R+1. */
  ghost predicate FullShape(rs: Rounds, first: nat, k: nat, upto: nat)
  {
    && first >= 1
    && first <= upto + 1
    && upto < first + k
    && |rs| == upto
    && (forall j :: first - 1 <= j < upto ==> |rs[j]| == Pow2(k + first - 2 - j))
    && (forall j, i :: first - 1 <= j < upto && 0 <= i < |rs[j]| ==> rs[j][i] == FullMatch(j + 1, i + 1, upto))
  }

  /** One turn of the do-while keeps the shape and leaves earlier rounds alone. */
  lemma FullRoundsStep(rs: Rounds, r: nat, pc: nat, k: nat, first: nat)
    requires |rs| == r - 1 >= 0
    requires k >= 1 && pc <= k - 1
    requires first >= 1 && r + pc == first + k - 1
    requires FullShape(rs, first, k, r - 1)
    requires r == first <==> pc == k - 1
    ensures r >= 2 || pc == k - 1
    ensures var rs1 := rs + [NewRound(r, Pow2(pc))];
      var rs2 := if pc != k - 1 then WireToNext(rs1, r - 1) else rs1;
      && FullShape(rs2, first, k, r)
      && forall j :: 0 <= j < first - 1 ==> rs2[j] == rs[j]
  {
    var rs1 := rs + [NewRound(r, Pow2(pc))];
    var rs2 := if pc != k - 1 then WireToNext(rs1, r - 1) else rs1;
    assert k + first - 2 - (r - 1) == pc;
    forall j, i | first - 1 <= j < r && 0 <= i < |rs2[j]|
      ensures rs2[j][i] == FullMatch(j + 1, i + 1, r)
    {
      if j == r - 2 {
        assert rs1[j][i] == FullMatch(j + 1, i + 1, r - 1);
        assert Pow2(k + first - 2 - j) == 2 * Pow2(pc);
        assert Find(rs1, r, Half(i + 1)) == Some(MatchId(r, Half(i + 1)));
      } else if j < r - 2 {
        assert rs2[j] == rs[j];
      }
    }
  }

  lemma {:induction false} FullRoundsShape(rs: Rounds, r: nat, pc: nat, k: nat, top: nat, first: nat)
    requires r + pc == top
    requires |rs| == r - 1 >= 0
    requires k >= 1 && pc <= k - 1
    requires first >= 1 && first + k - 1 == top
    requires FullShape(rs, first, k, r - 1)
    requires r == first <==> pc == k - 1
    ensures r >= 2 || pc == k - 1
    ensures FullShape(FullRounds(rs, r, pc, k, top), first, k, top)
    ensures forall j :: 0 <= j < first - 1 ==> FullRounds(rs, r, pc, k, top)[j] == rs[j]
    decreases pc
  {
    FullRoundsStep(rs, r, pc, k, first);
    var rs1 := rs + [NewRound(r, Pow2(pc))];
    var rs2 := if pc != k - 1 then WireToNext(rs1, r - 1) else rs1;
    if r + 1 <= top {
      FullRoundsShape(rs2, r + 1, pc - 1, k, top, first);
    }
  }

  /** The skeleton has k + (rem != 0) rounds: rem fresh preliminary matches
      when rem != 0, then full rounds of 2^(k-1), ..., 1 matches in which
      every match m of a non-final round sends its winner to match ceil(m/2)
      of the next round and nothing else is set yet. */
  lemma BuildShape(n: nat)
    requires n >= 4
    ensures Power(n) >= 2
    ensures FullShape(Build(n), FirstFull(Rem(n)), Power(n), FirstFull(Rem(n)) + Power(n) - 1)
    ensures Rem(n) != 0 ==> Build(n)[0] == NewRound(1, Rem(n))
  {
    var k, rem := Power(n), Rem(n);
    Pow2Small(k);
    var pre: Rounds := if rem != 0 then [NewRound(1, rem)] else [];
    var first := FirstFull(rem);
    FullRoundsShape(pre, first, k - 1, k, first + k - 1, first);
  }

  /** lib/Algorithms.js:71-75 for one round: match i gets the seeds at
      positions 2i and 2i+1 of the seed order (as 0-based player indices) and
      becomes active. */
  function SeedRound(round: Round, order: seq<int>): (s: Round)
    requires |order| >= 2 * |round|
    ensures |s| == |round|
    ensures forall i :: 0 <= i < |round| ==>
              s[i] == round[i].(one := Some(order[2 * i] - 1), two := Some(order[2 * i + 1] - 1), active := true)
  {
    seq(|round|, i requires 0 <= i < |round| =>
          round[i].(one := Some(order[2 * i] - 1), two := Some(order[2 * i + 1] - 1), active := true))
  }

  function SeedFirstFull(rs: Rounds, f: nat, order: seq<int>): (rs': Rounds)
    requires 1 <= f <= |rs|
    requires |order| >= 2 * |rs[f - 1]|
    ensures |rs'| == |rs|
    ensures forall j :: 0 <= j < |rs| && j != f - 1 ==> rs'[j] == rs[j]
    ensures rs'[f - 1] == SeedRound(rs[f - 1], order)
  {
    rs[f - 1 := SeedRound(rs[f - 1], order)]
  }

  /** Number of winner's-bracket rounds built by the loop: k + (rem != 0). */
  function Top(n: nat): nat
    requires n >= 4
  {
    FirstFull(Rem(n)) + Power(n) - 1
  }

  /** `bracket(k)` for the bracket size of n players. */
  function Order(n: nat): seq<int>
    requires n >= 4
  {
    Seeding.Bracket(Power(n))
  }

  /** The skeleton with the first full round seeded from `bracket(k)`
      (lib/Algorithms.js:53-75). */
  function Seeded(n: nat): Rounds
    requires n >= 4
  {
    var k, rem := Power(n), Rem(n);
    BuildShape(n);
    Seeding.BracketShape(k);
    assert Pow2(k) == 2 * Pow2(k - 1);
    SeedFirstFull(Build(n), FirstFull(rem), Order(n))
  }

  /** Match i of the first full round after seeding. */
  function SeededMatch(f: nat, i: nat, top: nat, order: seq<int>): Match
    requires 2 * i + 1 < |order|
  {
    FullMatch(f, i + 1, top).(one := Some(order[2 * i] - 1), two := Some(order[2 * i + 1] - 1), active := true)
  }

  /** The state after seeding: the rounds the loop built, the preliminary
      round still empty, the first full round filled from the seed order. */
  ghost predicate IsSeeded(rs: Rounds, n: nat)
    requires n >= 4
  {
    var k, rem, f, top, order := Power(n), Rem(n), FirstFull(Rem(n)), Top(n), Order(n);
    && k >= 2
    && |rs| == top
    && |order| == Pow2(k) == 2 * Pow2(k - 1)
    && (rem != 0 ==> rs[0] == NewRound(1, rem))
    && (forall j :: f - 1 <= j < top ==> |rs[j]| == Pow2(k + f - 2 - j))
    && (forall j, i :: f <= j < top && 0 <= i < |rs[j]| ==> rs[j][i] == FullMatch(j + 1, i + 1, top))
    && (forall i :: 0 <= i < |rs[f - 1]| ==> 2 * i + 1 < |order| && rs[f - 1][i] == SeededMatch(f, i, top, order))
  }

  /** The rounds the construction loop built for exponent k when the first
      full round is round 2: round j holds 2^(k-j) matches, and rounds 3 on
      are empty and chained. */
  ghost predicate LaterRounds(rs0: Rounds, k: nat, top: nat)
  {
    && k >= 2 && top == k + 1 && |rs0| == top
    && Pow2(k) == 2 * Pow2(k - 1)
    && (forall j :: 1 <= j < top ==> |rs0[j]| == Pow2(k - j))
    && (forall j, i :: 2 <= j < top && 0 <= i < |rs0[j]| ==> rs0[j][i] == FullMatch(j + 1, i + 1, top))
  }

  /** With a preliminary round the seeded rounds are the later rounds for
      exponent Power(n). */
  lemma SeededLater(rs: Rounds, n: nat)
    requires n >= 4 && Rem(n) != 0
    requires IsSeeded(rs, n)
    ensures FirstFull(Rem(n)) == 2 && LaterRounds(rs, Power(n), Top(n))
  {
  }

  lemma SeededShape(n: nat)
    requires n >= 4
    ensures IsSeeded(Seeded(n), n)
  {
    var k, rem, f, top, order := Power(n), Rem(n), FirstFull(Rem(n)), Top(n), Order(n);
    BuildShape(n);
    Seeding.BracketShape(k);
    assert Pow2(k) == 2 * Pow2(k - 1);
    var rs0 := Build(n);
    var rs := Seeded(n);
    assert rs == SeedFirstFull(rs0, f, order);
    assert |rs0[f - 1]| == Pow2(k - 1);
    forall j | f - 1 <= j < top
      ensures |rs[j]| == Pow2(k + f - 2 - j)
    {
    }
    forall j, i | f <= j < top && 0 <= i < |rs[j]|
      ensures rs[j][i] == FullMatch(j + 1, i + 1, top)
    {
      assert rs[j] == rs0[j];
    }
    forall i | 0 <= i < |rs[f - 1]|
      ensures 2 * i + 1 < |order| && rs[f - 1][i] == SeededMatch(f, i, top, order)
    {
      assert rs0[f - 1][i] == FullMatch(f, i + 1, top);
    }
    if rem != 0 {
      assert rs[0] == rs0[0];
    }
  }
}
