/** The retry loop of lib/Algorithms.js:383-385 around `pairAttempt`. The
    source never empties `hold` between attempts (it is declared once, at
    line 311), so an attempt that returns `false` with players held hands
    them to the next attempt, which finds them again in their own score
    group and may pair them with themselves. StaleSwiss is the loop as
    written, FreshSwiss the loop with `hold` emptied before each attempt.
    The shuffles the attempts draw are the sequence `decks`. */
module SwissRetry {
  import opened Base
  import opened Swiss
  import opened SwissFacts
  import opened SwissRuns

  /** Lines 383-385 as written: attempts repeat while one returns `false`,
      each with a fresh shuffle from `decks`, and each starting from the
      `hold` the previous attempt left. None when the shuffles run out. */
  function StaleSwiss(decks: seq<seq<Player>>, round: int, maxPoints: int, hold: seq<Player>): (r: Option<Attempt>)
    decreases |decks|
  {
    if decks == [] then None
    else
      var a := PairAttempt(decks[0], round, maxPoints, hold);
      if a.outcome == Failed then StaleSwiss(decks[1..], round, maxPoints, a.hold) else Some(a)
  }

  /** The retry loop as intended: every attempt starts with nobody held. */
  function FreshSwiss(decks: seq<seq<Player>>, round: int, maxPoints: int): (r: Option<Attempt>)
    decreases |decks|
  {
    if decks == [] then None
    else
      var a := PairAttempt(decks[0], round, maxPoints, []);
      if a.outcome == Failed then FreshSwiss(decks[1..], round, maxPoints) else Some(a)
  }

  /** No player appears twice. */
  predicate Distinct(s: seq<Player>)
  {
    forall i, j :: 0 <= i < j < |s| ==> s[i] != s[j]
  }

  lemma {:induction false} DistinctOnce(s: seq<Player>, x: Player)
    requires Distinct(s)
    ensures multiset(s)[x] <= 1
  {
    if s != [] {
      var u := s[..|s| - 1];
      assert s == u + [s[|s| - 1]];
      assert Distinct(u);
      DistinctOnce(u, x);
      if x == s[|s| - 1] {
        assert x !in u;
      }
    }
  }

  /** Every match's seats are among the seats of all matches. */
  lemma {:induction false} SeatsIn(gs: seq<Game>, i: nat)
    requires i < |gs|
    ensures Seats(gs[i]) <= Seated(gs)
  {
    if i < |gs| - 1 {
      SeatsIn(gs[..|gs| - 1], i);
    }
  }

  /** The corrected retry ends exactly when an attempt does not return
      `false`, and then its matches are sound and seat only players drawn,
      none more often than the players list holds them. */
  lemma {:induction false} FreshSwissOk(decks: seq<seq<Player>>, players: seq<Player>, round: int, maxPoints: int)
    requires forall k :: 0 <= k < |decks| ==> multiset(decks[k]) == multiset(players)
    ensures var r := FreshSwiss(decks, round, maxPoints);
            r.Some? ==> r.value.outcome != Failed && Sound(r.value, round) && Seated(r.value.games) <= multiset(players)
    ensures FreshSwiss(decks, round, maxPoints).None? <==>
              forall k :: 0 <= k < |decks| ==> PairAttempt(decks[k], round, maxPoints, []).outcome == Failed
    decreases |decks|
  {
    if decks != [] {
      var a := PairAttempt(decks[0], round, maxPoints, []);
      PairAttemptOk(decks[0], round, maxPoints, []);
      var none: seq<Player> := [];
      assert multiset(none) + multiset(decks[0]) == multiset(players);
      var rest := decks[1..];
      forall k | 0 <= k < |rest|
        ensures multiset(rest[k]) == multiset(players)
      {
        assert rest[k] == decks[k + 1];
      }
      FreshSwissOk(rest, players, round, maxPoints);
      if a.outcome == Failed {
        assert (forall k :: 0 <= k < |decks| ==> PairAttempt(decks[k], round, maxPoints, []).outcome == Failed)
            <==> (forall k :: 0 <= k < |rest| ==> PairAttempt(rest[k], round, maxPoints, []).outcome == Failed);
      }
    }
  }

  /** When the players are distinct, the corrected retry seats each of them
      at most once, so nobody is paired with themselves. */
  lemma FreshOnce(decks: seq<seq<Player>>, players: seq<Player>, round: int, maxPoints: int)
    requires Distinct(players)
    requires forall k :: 0 <= k < |decks| ==> multiset(decks[k]) == multiset(players)
    ensures var r := FreshSwiss(decks, round, maxPoints);
            r.Some? ==> forall x :: Seated(r.value.games)[x] <= 1
    ensures var r := FreshSwiss(decks, round, maxPoints);
            r.Some? ==> forall i :: 0 <= i < |r.value.games| && r.value.games[i].second.Opponent? ==>
                          r.value.games[i].first != r.value.games[i].second.who
  {
    FreshSwissOk(decks, players, round, maxPoints);
    var r := FreshSwiss(decks, round, maxPoints);
    if r.Some? {
      var gs := r.value.games;
      forall x
        ensures Seated(gs)[x] <= 1
      {
        DistinctOnce(players, x);
      }
      forall i | 0 <= i < |gs| && gs[i].second.Opponent?
        ensures gs[i].first != gs[i].second.who
      {
        SeatsIn(gs, i);
        DistinctOnce(players, gs[i].first);
      }
    }
  }

  /** Going into round 4, R1 has played R2, R3 and R4, and all four have one
      match point. */
  const R1 := Player(1, 1, [2, 3, 4])
  const R2 := Player(2, 1, [1])
  const R3 := Player(3, 1, [1])
  const R4 := Player(4, 1, [1])
  const RetryDeck := [R1, R2, R3, R4]
  const Kept := Table([R1, R2], [Game(4, 1, R3, Opponent(R4), true)], 2)
  const Selfish := Table([], [Game(4, 1, R1, Opponent(R1), true), Game(4, 2, R2, Opponent(R2), true),
                              Game(4, 3, R3, Opponent(R4), true)], 4)

  lemma RetryGroups()
    ensures Group(RetryDeck, 1) == RetryDeck && Group(RetryDeck, 0) == []
  {
    GroupCons(R4, [], 1);
    GroupCons(R4, [], 0);
    GroupCons(R3, [R4], 1);
    GroupCons(R3, [R4], 0);
    GroupCons(R2, [R3, R4], 1);
    GroupCons(R2, [R3, R4], 0);
    GroupCons(R1, [R2, R3, R4], 1);
    GroupCons(R1, [R2, R3, R4], 0);
  }

  /** At p = 1 the first attempt finds nobody R1 has not played, holds R1
      and R2, and pairs R3 with R4. */
  lemma FirstTop()
    ensures Body(RetryDeck, 4, 1, Table([], [], 1)) == Next(Kept)
  {
    RetryGroups();
    var t0 := Table([], [], 1);
    var g := [R1, R2, R3, R4];
    assert !Unplayed(R1, R2) && !Unplayed(R1, R3) && !Unplayed(R1, R4);
    assert Scan(4, 1, g, 3, t0) == Held(4, 1, g, t0);
    assert Scan(4, 1, g, 2, t0) == Held(4, 1, g, t0);
    assert Scan(4, 1, g, 1, t0) == Held(4, 1, g, t0);
    var h := Table([R1, R2], [], 1);
    assert g[2..] == [R3, R4] && g[..2] == [R1, R2] && t0.hold + g[..2] == [R1, R2];
    assert Held(4, 1, g, t0) == PairLoop(4, 1, [R3, R4], h);
    assert [R3, R4][1..1] + [R3, R4][2..] == [] && Pair(h, 4, R3, Opponent(R4)) == Kept;
    assert Matched(4, 1, [R3, R4], 1, h) == PairLoop(4, 1, [], Kept);
    assert PairLoop(4, 1, [R3, R4], h) == Go([], Kept);
    assert PairLoop(4, 1, g, t0) == Go([], Kept);
  }

  /** The first attempt then returns `false` at p = 0 with R1 and R2 still
      held. */
  lemma FirstFails()
    ensures PairAttempt(RetryDeck, 4, 1, []) == Attempt(Failed, Kept.games, [R1, R2], 0)
  {
    RetryGroups();
    FirstTop();
    var pass := (q: int, u: Table) => Body(RetryDeck, 4, q, u);
    assert pass(1, Table([], [], 1)) == Next(Kept);
    assert pass(0, Kept) == Stop(Failed, Kept);
  }

  /** Still holding R1 and R2, the second attempt pairs each of them with
      themselves, for nobody lists their own id among their opponents. */
  lemma HeldSelfPairs()
    ensures HoldLoop(4, 1, RetryDeck, 0, Table([R1, R2], [], 1))
            == Go([R3, R4], Table([], Selfish.games[..2], 3))
  {
    var t0 := Table([R1, R2], [], 1);
    var g := RetryDeck;
    var t1 := Table([R2], [Game(4, 1, R1, Opponent(R1), true)], 2);
    var t2 := Table([], Selfish.games[..2], 3);
    assert g[..0] + g[1..] == [R2, R3, R4] && t0.hold[1..] == [R2];
    assert Pair(t0.(hold := [R2]), 4, R1, Opponent(R1)) == t1;
    assert HoldTry(4, g, 0, t0) == ([R2, R3, R4], 0, t1);
    assert [R2, R3, R4][..0] + [R2, R3, R4][1..] == [R3, R4] && t1.hold[1..] == [];
    assert Pair(t1.(hold := []), 4, R2, Opponent(R2)) == t2;
    assert HoldTry(4, [R2, R3, R4], 0, t1) == ([R3, R4], 0, t2);
    assert HoldLoop(4, 1, [R2, R3, R4], 0, t1) == Go([R3, R4], t2);
  }

  lemma SecondTop()
    ensures Body(RetryDeck, 4, 1, Table([R1, R2], [], 1)) == Next(Selfish)
  {
    RetryGroups();
    HeldSelfPairs();
    var t2 := Table([], Selfish.games[..2], 3);
    assert [R3, R4][1..1] + [R3, R4][2..] == [] && Pair(t2, 4, R3, Opponent(R4)) == Selfish;
    assert Matched(4, 1, [R3, R4], 1, t2) == PairLoop(4, 1, [], Selfish);
    assert PairLoop(4, 1, [R3, R4], t2) == Go([], Selfish);
  }

  /** The second attempt then pairs R3 with R4 and runs out below p = 0. */
  lemma SecondSelfPairs()
    ensures PairAttempt(RetryDeck, 4, 1, [R1, R2]) == Attempt(FellThrough, Selfish.games, [], -1)
  {
    RetryGroups();
    SecondTop();
    var pass := (q: int, u: Table) => Body(RetryDeck, 4, q, u);
    assert pass(1, Table([R1, R2], [], 1)) == Next(Selfish);
    assert pass(0, Selfish) == Next(Selfish);
  }

  /** As written, the retry returns matches that seat R1 against R1 and R2
      against R2, for the `undefined` of the second attempt ends the loop. */
  lemma StaleSelfMatch()
    ensures StaleSwiss([RetryDeck, RetryDeck], 4, 1, [])
            == Some(Attempt(FellThrough, [Game(4, 1, R1, Opponent(R1), true), Game(4, 2, R2, Opponent(R2), true),
                                          Game(4, 3, R3, Opponent(R4), true)], [], -1))
  {
    FirstFails();
    SecondSelfPairs();
    assert [RetryDeck, RetryDeck][1..] == [RetryDeck];
  }
}
