/** The match records the bracket builders create and link, kept in an arena
    addressed by (round, match number) keys. Round r's match m lives at
    index [r-1][m-1]; the routing fields `win`/`loss` hold keys rather than
    references (src/interfaces/MatchValues.ts:19-22 stores ids the same way).
    Players are 0-based seed indices into the caller's player list. */
module Arena {
  import opened Base

  datatype MatchId = MatchId(round: nat, number: nat)

  /** A match: its key, whether it is playable, its two player slots (None is
      JavaScript's null) and where its winner and loser go (None is null or
      undefined). */
  datatype Match = Match(
    id: MatchId,
    active: bool,
    one: Option<int>,
    two: Option<int>,
    win: Option<MatchId>,
    loss: Option<MatchId>)

  type Round = seq<Match>
  type Rounds = seq<Round>

  /** A fresh match: inactive, empty, unrouted. */
  function NewMatch(round: nat, number: nat): Match
  {
    Match(MatchId(round, number), false, None, None, None, None)
  }

  /** `new Pairings(round, format, count)`: count fresh matches numbered 1..count. */
  function NewRound(round: nat, count: nat): (p: Round)
    ensures |p| == count
    ensures forall i :: 0 <= i < count ==> p[i] == NewMatch(round, i + 1)
  {
    seq(count, (i: nat) => NewMatch(round, i + 1))
  }

  /** Every match carries the key of the position it is stored at: round
      numbers follow the order of the rounds and match numbers within a round
      run 1, 2, ... without gaps. */
  ghost predicate Numbered(rs: Rounds)
  {
    forall r, i :: 0 <= r < |rs| && 0 <= i < |rs[r]| ==> rs[r][i].id == MatchId(r + 1, i + 1)
  }

  predicate Has(rs: Rounds, id: MatchId)
  {
    1 <= id.round <= |rs| && 1 <= id.number <= |rs[id.round - 1]|
  }

  function Get(rs: Rounds, id: MatchId): Match
    requires Has(rs, id)
  {
    rs[id.round - 1][id.number - 1]
  }

  /** `round.matches.find(m => m.matchNumber === number)`: the key, or None
      (undefined) when the round has no such match. */
  function Find(rs: Rounds, round: nat, number: int): (r: Option<MatchId>)
    ensures r.Some? <==> 1 <= round <= |rs| && 1 <= number <= |rs[round - 1]|
    ensures r.Some? ==> r.value == MatchId(round, number) && Has(rs, r.value)
  {
    if 1 <= round <= |rs| && 1 <= number <= |rs[round - 1]| then Some(MatchId(round, number)) else None
  }

  /** Replaces one match and leaves every other one as it was. */
  function Put(rs: Rounds, id: MatchId, m: Match): (rs': Rounds)
    requires Has(rs, id)
    ensures |rs'| == |rs|
    ensures forall r :: 0 <= r < |rs| ==> |rs'[r]| == |rs[r]|
    ensures Get(rs', id) == m
    ensures forall r, i {:trigger rs'[r][i]} :: 0 <= r < |rs| && 0 <= i < |rs[r]| && (r != id.round - 1 || i != id.number - 1) ==>
              rs'[r][i] == rs[r][i]
  {
    rs[id.round - 1 := rs[id.round - 1][id.number - 1 := m]]
  }

  /** Ceiling of m / 2 for a positive match number, as `Math.ceil(m / 2)`. */
  function Half(m: nat): (h: nat)
    ensures 2 * h - 1 <= m <= 2 * h
  {
    (m + 1) / 2
  }

  /** Sizes of the rounds, in round order. */
  function Sizes(rs: Rounds): (s: seq<nat>)
    ensures |s| == |rs|
    ensures forall r :: 0 <= r < |rs| ==> s[r] == |rs[r]|
  {
    seq(|rs|, r requires 0 <= r < |rs| => |rs[r]|)
  }

  function Sum(s: seq<nat>): nat
  {
    if s == [] then 0 else s[0] + Sum(s[1..])
  }

  lemma {:induction false} SumAppend(a: seq<nat>, b: seq<nat>)
    ensures Sum(a + b) == Sum(a) + Sum(b)
  {
    if a != [] {
      assert (a + b)[0] == a[0];
      assert (a + b)[1..] == a[1..] + b;
      SumAppend(a[1..], b);
    } else {
      assert a + b == b;
    }
  }

  // ---------------------------------------------------------------------------
  // Where players sit

  /** Number of slots of one match holding player p. */
  function MatchHolds(m: Match, p: int): (c: nat)
    ensures c <= 2
    ensures c == 0 <==> m.one != Some(p) && m.two != Some(p)
  {
    (if m.one == Some(p) then 1 else 0) + (if m.two == Some(p) then 1 else 0)
  }

  /** Number of slots of a round holding player p. */
  function SlotCount(round: Round, p: int): nat
  {
    if round == [] then 0 else SlotCount(round[..|round| - 1], p) + MatchHolds(round[|round| - 1], p)
  }

  /** Number of slots of the whole bracket holding player p. */
  function Placed(rs: Rounds, p: int): nat
  {
    if rs == [] then 0 else Placed(rs[..|rs| - 1], p) + SlotCount(rs[|rs| - 1], p)
  }

  lemma {:induction false} SlotCountNone(round: Round, p: int)
    requires forall i :: 0 <= i < |round| ==> MatchHolds(round[i], p) == 0
    ensures SlotCount(round, p) == 0
  {
    if round != [] {
      var front := round[..|round| - 1];
      assert forall i :: 0 <= i < |front| ==> front[i] == round[i];
      SlotCountNone(front, p);
    }
  }

  /** A round in which exactly one slot, of match c, holds p counts it once. */
  lemma {:induction false} SlotCountOne(round: Round, p: int, c: nat)
    requires c < |round|
    requires MatchHolds(round[c], p) == 1
    requires forall i :: 0 <= i < |round| && i != c ==> MatchHolds(round[i], p) == 0
    ensures SlotCount(round, p) == 1
  {
    var front := round[..|round| - 1];
    assert forall i :: 0 <= i < |front| ==> front[i] == round[i];
    if c == |round| - 1 {
      SlotCountNone(front, p);
    } else {
      SlotCountOne(front, p, c);
    }
  }

  /** Slot counts only look at the slots. */
  lemma {:induction false} SlotCountSlots(a: Round, b: Round, p: int)
    requires |a| == |b|
    requires forall i :: 0 <= i < |a| ==> a[i].one == b[i].one && a[i].two == b[i].two
    ensures SlotCount(a, p) == SlotCount(b, p)
  {
    if a != [] {
      var fa, fb := a[..|a| - 1], b[..|b| - 1];
      assert forall i :: 0 <= i < |fa| ==> fa[i] == a[i] && fb[i] == b[i];
      SlotCountSlots(fa, fb, p);
    }
  }

  lemma SlotCountSnoc(a: Round, m: Match, p: int)
    ensures SlotCount(a + [m], p) == SlotCount(a, p) + MatchHolds(m, p)
  {
    assert (a + [m])[..|a|] == a;
  }

  /** Bracket-wide counts agree when every round's count does. */
  lemma {:induction false} PlacedSame(a: Rounds, b: Rounds, p: int)
    requires |a| == |b|
    requires forall j :: 0 <= j < |a| ==> SlotCount(a[j], p) == SlotCount(b[j], p)
    ensures Placed(a, p) == Placed(b, p)
  {
    if a != [] {
      var fa, fb := a[..|a| - 1], b[..|b| - 1];
      assert forall j :: 0 <= j < |fa| ==> fa[j] == a[j] && fb[j] == b[j];
      PlacedSame(fa, fb, p);
    }
  }

  /** Rounds from index m on that hold nobody named p add nothing. */
  lemma {:induction false} PlacedPrefix(rs: Rounds, m: nat, p: int)
    requires m <= |rs|
    requires forall j :: m <= j < |rs| ==> SlotCount(rs[j], p) == 0
    ensures Placed(rs, p) == Placed(rs[..m], p)
  {
    if m < |rs| {
      var front := rs[..|rs| - 1];
      assert forall j :: m <= j < |front| ==> front[j] == rs[j];
      PlacedPrefix(front, m, p);
      assert front[..m] == rs[..m];
    } else {
      assert rs[..m] == rs;
    }
  }

  lemma PlacedTwo(a: Round, b: Round, p: int)
    ensures Placed([a], p) == SlotCount(a, p)
    ensures Placed([a, b], p) == SlotCount(a, p) + SlotCount(b, p)
  {
    assert [a, b][..1] == [a];
    assert [a][..0] == [];
  }

  // ---------------------------------------------------------------------------
  // The routing graph

  /** Outgoing routing edges of the match stored at [r][i]. */
  predicate EdgeFrom(rs: Rounds, r: nat, i: nat, to: MatchId)
    requires r < |rs| && i < |rs[r]|
  {
    rs[r][i].win == Some(to) || rs[r][i].loss == Some(to)
  }

  /** Every routing edge points at an existing match whose rank is strictly
      higher than the rank of its source round. */
  ghost predicate RankedEdges(rs: Rounds, rank: nat -> nat)
  {
    forall r, i, to :: 0 <= r < |rs| && 0 <= i < |rs[r]| && EdgeFrom(rs, r, i, to) ==>
      Has(rs, to) && rank(r + 1) < rank(to.round)
  }

  /** A walk of routing edges: consecutive keys are joined by an edge. */
  ghost predicate IsWalk(rs: Rounds, w: seq<MatchId>)
  {
    && (forall j :: 0 <= j < |w| ==> Has(rs, w[j]))
    && (forall j :: 0 <= j < |w| - 1 ==>
          EdgeFrom(rs, w[j].round - 1, w[j].number - 1, w[j + 1]))
  }

  /** Along a walk of a graph with ranked edges the rank strictly rises; in
      particular no walk of one or more edges returns to where it started, so
      the routing graph is acyclic. */
  lemma {:induction false} RankedWalkRises(rs: Rounds, rank: nat -> nat, w: seq<MatchId>)
    requires RankedEdges(rs, rank)
    requires IsWalk(rs, w)
    requires |w| >= 2
    ensures rank(w[0].round) < rank(w[|w| - 1].round)
    ensures w[0] != w[|w| - 1]
  {
    var r, i := w[0].round - 1, w[0].number - 1;
    assert Has(rs, w[0]) && EdgeFrom(rs, r, i, w[1]);
    assert rank(r + 1) < rank(w[1].round);
    if |w| > 2 {
      var rest := w[1..];
      assert forall j :: 0 <= j < |rest| ==> rest[j] == w[j + 1];
      assert IsWalk(rs, rest);
      RankedWalkRises(rs, rank, rest);
    }
  }
}
