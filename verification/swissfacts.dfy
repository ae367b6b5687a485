/** What one Swiss attempt guarantees, proved by following its loops: every
    match it pushes is a fair two-seat match numbered in sequence, except a
    final bye at p = 0, and nobody is seated who was not held or drawn from a
    visited group. */
module SwissFacts {
  import opened Swiss

  /** A loop's result seats nobody from outside the pool it started from, and
      a loop that ends leaves exactly that pool behind. */
  predicate Keeps(r: Step, t: Table, tp: seq<Player>)
  {
    match r
    case Go(g, t1) => Pool(t1, g) == Pool(t, tp)
    case Done(_, t1) => Seated(t1.games) <= Pool(t, tp)
  }

  lemma DropAt(s: seq<Player>, l: nat)
    requires l < |s|
    ensures multiset(s) == multiset{s[l]} + multiset(s[..l] + s[l + 1..])
  {
    assert s == s[..l] + [s[l]] + s[l + 1..];
  }

  lemma SplitAt(s: seq<Player>, c: nat)
    requires c <= |s|
    ensures multiset(s) == multiset(s[..c]) + multiset(s[c..])
  {
    assert s == s[..c] + s[c..];
  }

  /** Pairing the first player with the one at index i takes both out of the
      group. */
  lemma TakeTwo(s: seq<Player>, i: nat)
    requires 1 <= i < |s|
    ensures multiset(s) == multiset{s[0], s[i]} + multiset(s[1..i] + s[i + 1..])
  {
    DropAt(s, i);
    DropAt(s[..i] + s[i + 1..], 0);
    assert (s[..i] + s[i + 1..])[1..] == s[1..i] + s[i + 1..];
  }

  lemma HoldTryOk(round: int, tp: seq<Player>, l: nat, t: Table)
    requires |t.hold| > 0 && (l < |tp| || |t.hold[0].opponents| == 0)
    ensures Inv(t, round) ==> Inv(HoldTry(round, tp, l, t).2, round)
  {
    var h := t.hold[0];
    if l < |tp| && Unplayed(h, tp[l]) {
      PairKeeps(t.(hold := t.hold[1..]), round, h, Opponent(tp[l]));
    } else if l >= |tp| {
      PairKeeps(t.(hold := t.hold[1..]), round, h, Undefined);
    }
  }

  /** Pairing the first held player with group member l moves both from
      the pool's waiting part into its seated part. */
  lemma HeldPaired(round: int, tp: seq<Player>, l: nat, t: Table)
    requires |t.hold| > 0 && l < |tp|
    ensures Pool(Pair(t.(hold := t.hold[1..]), round, t.hold[0], Opponent(tp[l])), tp[..l] + tp[l + 1..])
            == Pool(t, tp)
  {
    var h := t.hold[0];
    DropAt(t.hold, 0);
    DropAt(tp, l);
    assert Seats(Game(round, t.next, h, Opponent(tp[l]), true)) == multiset{h} + multiset{tp[l]};
  }

  lemma HeldAlone(round: int, tp: seq<Player>, t: Table)
    requires |t.hold| > 0
    ensures Pool(Pair(t.(hold := t.hold[1..]), round, t.hold[0], Undefined), tp) == Pool(t, tp)
  {
    DropAt(t.hold, 0);
    assert Seats(Game(round, t.next, t.hold[0], Undefined, true)) == multiset{t.hold[0]};
  }

  lemma HoldTryKeeps(round: int, tp: seq<Player>, l: nat, t: Table)
    requires |t.hold| > 0 && (l < |tp| || |t.hold[0].opponents| == 0)
    ensures Pool(HoldTry(round, tp, l, t).2, HoldTry(round, tp, l, t).0) == Pool(t, tp)
  {
    if l < |tp| && Unplayed(t.hold[0], tp[l]) {
      HeldPaired(round, tp, l, t);
    } else if l >= |tp| {
      HeldAlone(round, tp, t);
    }
  }

  lemma {:induction false} HoldLoopOk(round: int, p: int, tp: seq<Player>, l: nat, t: Table)
    requires Inv(t, round)
    ensures StepOk(HoldLoop(round, p, tp, l, t), round, p)
    decreases |t.hold|, |tp| - l
  {
    if |t.hold| == 0 {
    } else if |tp| == 0 && p == 0 {
      if |t.hold| <= 1 {
        ByeEnds(t, round, t.hold[0]);
      }
    } else if l >= |tp| && |t.hold[0].opponents| > 0 {
    } else {
      var r := HoldTry(round, tp, l, t);
      HoldTryOk(round, tp, l, t);
      if !(r.1 == |r.0| && r.1 != 0) {
        HoldLoopOk(round, p, r.0, r.1, r.2);
      }
    }
  }

  lemma {:induction false} HoldLoopKeeps(round: int, p: int, tp: seq<Player>, l: nat, t: Table)
    ensures Keeps(HoldLoop(round, p, tp, l, t), t, tp)
    decreases |t.hold|, |tp| - l
  {
    if |t.hold| == 0 {
    } else if |tp| == 0 && p == 0 {
      assert t.hold == [t.hold[0]] + t.hold[1..];
    } else if l >= |tp| && |t.hold[0].opponents| > 0 {
    } else {
      var r := HoldTry(round, tp, l, t);
      HoldTryKeeps(round, tp, l, t);
      if !(r.1 == |r.0| && r.1 != 0) {
        HoldLoopKeeps(round, p, r.0, r.1, r.2);
      }
    }
  }

  /** The held-player loop gives up only at p = 0 and with two or more
      players still held (line 333), and never ends in the `undefined` of
      the do-while running below p = 0. */
  lemma {:induction false} HoldLoopFails(round: int, p: int, tp: seq<Player>, l: nat, t: Table)
    ensures var r := HoldLoop(round, p, tp, l, t);
            && (r.Done? && r.outcome == Failed ==> p == 0 && |r.table.hold| > 1)
            && (r.Done? ==> r.outcome != FellThrough)
    decreases |t.hold|, |tp| - l
  {
    if |t.hold| == 0 {
    } else if |tp| == 0 && p == 0 {
    } else if l >= |tp| && |t.hold[0].opponents| > 0 {
    } else {
      var r := HoldTry(round, tp, l, t);
      if !(r.1 == |r.0| && r.1 != 0) {
        HoldLoopFails(round, p, r.0, r.1, r.2);
      }
    }
  }

  /** What the pairing loop of lines 350-363 leaves: fair matches, at most
      one player, and `false` only at p = 0. */
  ghost predicate LoopOk(r: Step, round: int, p: int)
  {
    && Inv(r.table, round)
    && (r.Go? ==> |r.group| <= 1)
    && (r.Done? ==> r.outcome == Failed && p == 0)
  }

  lemma {:induction false} PairLoopOk(round: int, p: int, tp: seq<Player>, t: Table)
    requires Inv(t, round)
    ensures LoopOk(PairLoop(round, p, tp, t), round, p)
    decreases |tp|, |tp|
  {
    if |tp| > 1 {
      ScanOk(round, p, tp, 1, t);
    }
  }

  lemma {:induction false} ScanOk(round: int, p: int, tp: seq<Player>, i: nat, t: Table)
    requires Inv(t, round) && 1 <= i < |tp|
    ensures LoopOk(Scan(round, p, tp, i, t), round, p)
    decreases |tp|, |tp| - i
  {
    if Unplayed(tp[0], tp[i]) {
      MatchedOk(round, p, tp, i, t);
    } else if i + 1 < |tp| {
      ScanOk(round, p, tp, i + 1, t);
    } else if p != 0 {
      HeldOk(round, p, tp, t);
    }
  }

  lemma {:induction false} MatchedOk(round: int, p: int, tp: seq<Player>, i: nat, t: Table)
    requires Inv(t, round) && 1 <= i < |tp| && Unplayed(tp[0], tp[i])
    ensures LoopOk(Matched(round, p, tp, i, t), round, p)
    decreases |tp|, 0
  {
    PairKeeps(t, round, tp[0], Opponent(tp[i]));
    PairLoopOk(round, p, tp[1..i] + tp[i + 1..], Pair(t, round, tp[0], Opponent(tp[i])));
  }

  lemma {:induction false} HeldOk(round: int, p: int, tp: seq<Player>, t: Table)
    requires Inv(t, round) && |tp| >= 2
    ensures LoopOk(Held(round, p, tp, t), round, p)
    decreases |tp|, 0
  {
    var c := (|tp| + 1) / 2;
    PairLoopOk(round, p, tp[c..], t.(hold := t.hold + tp[..c]));
  }

  lemma {:induction false} PairLoopKeeps(round: int, p: int, tp: seq<Player>, t: Table)
    ensures Keeps(PairLoop(round, p, tp, t), t, tp)
    decreases |tp|, |tp|
  {
    if |tp| > 1 {
      ScanKeeps(round, p, tp, 1, t);
    }
  }

  /** Keeps carries over between two states with the same pool. */
  lemma KeepsMove(r: Step, t1: Table, tp1: seq<Player>, t: Table, tp: seq<Player>)
    requires Keeps(r, t1, tp1) && Pool(t1, tp1) == Pool(t, tp)
    ensures Keeps(r, t, tp)
  {
  }

  lemma {:induction false} ScanKeeps(round: int, p: int, tp: seq<Player>, i: nat, t: Table)
    requires 1 <= i < |tp|
    ensures Keeps(Scan(round, p, tp, i, t), t, tp)
    decreases |tp|, |tp| - i
  {
    if Unplayed(tp[0], tp[i]) {
      MatchedKeeps(round, p, tp, i, t);
    } else if i + 1 < |tp| {
      ScanKeeps(round, p, tp, i + 1, t);
    } else if p != 0 {
      HeldKeeps(round, p, tp, t);
    }
  }

  lemma {:induction false} MatchedKeeps(round: int, p: int, tp: seq<Player>, i: nat, t: Table)
    requires 1 <= i < |tp|
    ensures Keeps(Matched(round, p, tp, i, t), t, tp)
    decreases |tp|, 0
  {
    var rest := tp[1..i] + tp[i + 1..];
    var t1 := Pair(t, round, tp[0], Opponent(tp[i]));
    assert Pool(t1, rest) == Pool(t, tp) by {
      TakeTwo(tp, i);
    }
    PairLoopKeeps(round, p, rest, t1);
    KeepsMove(PairLoop(round, p, rest, t1), t1, rest, t, tp);
  }

  lemma {:induction false} HeldKeeps(round: int, p: int, tp: seq<Player>, t: Table)
    requires |tp| >= 2
    ensures Keeps(Held(round, p, tp, t), t, tp)
    decreases |tp|, 0
  {
    var c := (|tp| + 1) / 2;
    var t1 := t.(hold := t.hold + tp[..c]);
    assert Pool(t1, tp[c..]) == Pool(t, tp) by {
      SplitAt(tp, c);
    }
    PairLoopKeeps(round, p, tp[c..], t1);
    KeepsMove(PairLoop(round, p, tp[c..], t1), t1, tp[c..], t, tp);
  }

  // ---------------------------------------------------------------------------
  // One pass of the body, and the attempt

  /** One pass keeps the matches fair; only a `true` at p = 0 may end on a
      bye, and `false` comes only at p = 0. */
  ghost predicate TurnOk(r: Turn, round: int, p: int)
  {
    match r
    case Next(t) => Inv(t, round)
    case Stop(o, t) =>
      && o != FellThrough
      && (o == Failed ==> p == 0)
      && (Inv(t, round) || (o == Paired && p == 0 && ByeLast(t, round)))
  }

  lemma LastOk(round: int, p: int, tp: seq<Player>, t: Table)
    requires Inv(t, round) && |tp| <= 1
    ensures TurnOk(Last(round, p, tp, t), round, p)
  {
    if |tp| == 1 && p == 0 {
      ByeEnds(t, round, tp[0]);
    }
  }

  /** With at most one player left by the pairing loop, the `return false`
      of line 379 is never taken. */
  lemma LastKeeps(round: int, p: int, tp: seq<Player>, t: Table)
    requires |tp| <= 1
    ensures TurnKeeps(Last(round, p, tp, t), t, tp)
    ensures Last(round, p, tp, t).Stop? ==> Last(round, p, tp, t).outcome == Paired
  {
    if |tp| == 1 {
      assert tp == [tp[0]];
    }
  }

  lemma PassOk(round: int, p: int, tp: seq<Player>, t: Table)
    requires Inv(t, round)
    ensures TurnOk(Pass(round, p, tp, t), round, p)
  {
    HoldLoopOk(round, p, tp, 0, t);
    HoldLoopFails(round, p, tp, 0, t);
    match HoldLoop(round, p, tp, 0, t)
    case Done(o, t1) =>
    case Go(tp1, t1) =>
      PairLoopOk(round, p, tp1, t1);
      match PairLoop(round, p, tp1, t1)
      case Done(o, t2) =>
      case Go(tp2, t2) => LastOk(round, p, tp2, t2);
  }

  lemma PassKeeps(round: int, p: int, tp: seq<Player>, t: Table)
    requires Inv(t, round)
    ensures TurnKeeps(Pass(round, p, tp, t), t, tp)
  {
    HoldLoopKeeps(round, p, tp, 0, t);
    HoldLoopOk(round, p, tp, 0, t);
    match HoldLoop(round, p, tp, 0, t)
    case Done(o, t1) =>
    case Go(tp1, t1) =>
      PairLoopKeeps(round, p, tp1, t1);
      PairLoopOk(round, p, tp1, t1);
      match PairLoop(round, p, tp1, t1)
      case Done(o, t2) =>
      case Go(tp2, t2) =>
        LastKeeps(round, p, tp2, t2);
        assert Pool(t2, tp2) == Pool(t, tp);
  }

  lemma BodyOk(deck: seq<Player>, round: int, p: int, t: Table)
    requires Inv(t, round)
    ensures TurnOk(Body(deck, round, p, t), round, p)
  {
    var tp := Group(deck, p);
    if |tp| == 0 {
      if p == 0 && |t.hold| == 1 {
        ByeEnds(t, round, t.hold[0]);
      }
    } else {
      PassOk(round, p, tp, t);
    }
  }

  /** After one pass for group p, nobody is seated who was not seated, held
      or in group p before it; a pass that moves on leaves exactly those
      players seated or held. */
  ghost predicate TurnKeeps(r: Turn, t: Table, g: seq<Player>)
  {
    match r
    case Next(t1) => Seated(t1.games) + multiset(t1.hold) == Pool(t, g)
    case Stop(_, t1) => Seated(t1.games) <= Pool(t, g)
  }

  lemma BodyKeeps(deck: seq<Player>, round: int, p: int, t: Table)
    requires Inv(t, round)
    ensures TurnKeeps(Body(deck, round, p, t), t, Group(deck, p))
  {
    var tp := Group(deck, p);
    if |tp| == 0 {
      if p == 0 && |t.hold| == 1 {
        DropAt(t.hold, 0);
      }
    } else {
      PassKeeps(round, p, tp, t);
    }
  }

  lemma BodyFacts(deck: seq<Player>, round: int, p: int, t: Table)
    requires Inv(t, round)
    ensures TurnOk(Body(deck, round, p, t), round, p)
    ensures TurnKeeps(Body(deck, round, p, t), t, Group(deck, p))
  {
    BodyOk(deck, round, p, t);
    BodyKeeps(deck, round, p, t);
  }

  /** The attempt's result from a table whose matches are fair. */
  lemma InvSound(t: Table, round: int, o: Outcome, at: int)
    requires Inv(t, round)
    ensures Sound(Attempt(o, t.games, t.hold, at), round)
  {
  }

  lemma ByeSound(t: Table, round: int)
    requires ByeLast(t, round)
    ensures Sound(Attempt(Paired, t.games, t.hold, 0), round)
  {
  }

  /** What every pass of the body guarantees, for any table whose matches
      are fair. */
  ghost predicate Passes(pass: (int, Table) -> Turn, deck: seq<Player>, round: int)
  {
    forall q, u :: Inv(u, round) ==> TurnOk(pass(q, u), round, q) && TurnKeeps(pass(q, u), u, Group(deck, q))
  }

  lemma BodyPasses(deck: seq<Player>, round: int)
    ensures Passes((q: int, u: Table) => Body(deck, round, q, u), deck, round)
  {
    forall q, u | Inv(u, round)
      ensures TurnOk(Body(deck, round, q, u), round, q) && TurnKeeps(Body(deck, round, q, u), u, Group(deck, q))
    {
      BodyFacts(deck, round, q, u);
    }
  }

  /** The do-while from group p down keeps its matches sound. */
  lemma {:induction false} LoopSound(pass: (int, Table) -> Turn, deck: seq<Player>, round: int, p: int, t: Table)
    requires Passes(pass, deck, round) && Inv(t, round)
    ensures Sound(Loop(pass, p, t), round)
    decreases p
  {
    match pass(p, t)
    case Stop(o, t1) =>
      if Inv(t1, round) {
        InvSound(t1, round, o, p);
      } else {
        ByeSound(t1, round);
      }
    case Next(t1) =>
      if p - 1 >= 0 {
        LoopSound(pass, deck, round, p - 1, t1);
      } else {
        InvSound(t1, round, FellThrough, p - 1);
      }
  }

  /** It returns `false` only at p = 0, and runs out only past p = 0,
      which it always does when it starts at p >= 0 and stops below 0. */
  lemma {:induction false} LoopEnd(pass: (int, Table) -> Turn, deck: seq<Player>, round: int, p: int, t: Table)
    requires Passes(pass, deck, round) && Inv(t, round)
    ensures Loop(pass, p, t).outcome == Failed ==> Loop(pass, p, t).at == 0
    ensures Loop(pass, p, t).outcome == FellThrough ==> Loop(pass, p, t).at < 0
    ensures p >= 0 && Loop(pass, p, t).at < 0 ==> Loop(pass, p, t).outcome == FellThrough
    decreases p
  {
    match pass(p, t)
    case Stop(o, t1) =>
    case Next(t1) =>
      if p - 1 >= 0 {
        LoopEnd(pass, deck, round, p - 1, t1);
      }
  }

  /** Below p is group p and, from p = 1 on, everything below it. */
  lemma BelowAt(deck: seq<Player>, p: int, x: Player)
    ensures Below(deck, p)[x] == multiset(Group(deck, p))[x] + if p - 1 >= 0 then Below(deck, p - 1)[x] else 0
  {
    var g := multiset(Group(deck, p));
    if p - 1 >= 0 {
      assert Below(deck, p) == g + Below(deck, p - 1);
    } else {
      assert Below(deck, p) == g + multiset{};
    }
  }

  /** Nobody is seated more often than they were seated or held at the
      start plus their copies in the groups visited. */
  lemma {:induction false} LoopSeatedAt(pass: (int, Table) -> Turn, deck: seq<Player>, round: int, p: int, t: Table, x: Player)
    requires Passes(pass, deck, round) && Inv(t, round)
    ensures Seated(Loop(pass, p, t).games)[x] <= Pool(t, [])[x] + Below(deck, p)[x]
    decreases p, 1
  {
    BelowAt(deck, p, x);
    var g := Group(deck, p);
    var r := pass(p, t);
    assert TurnKeeps(r, t, g) && TurnOk(r, round, p);
    assert Pool(t, g)[x] == Pool(t, [])[x] + multiset(g)[x];
    if r.Stop? {
      assert Seated(r.table.games) <= Pool(t, g);
      assert Seated(r.table.games)[x] <= Pool(t, g)[x];
    } else {
      assert Pool(r.table, [])[x] == Pool(t, g)[x];
      NextSeatedAt(pass, deck, round, p, r.table, x);
    }
  }

  lemma {:induction false} NextSeatedAt(pass: (int, Table) -> Turn, deck: seq<Player>, round: int, p: int, t1: Table, x: Player)
    requires Passes(pass, deck, round) && Inv(t1, round)
    ensures Seated(Then(pass, p, t1).games)[x] <= Pool(t1, [])[x] + if p - 1 >= 0 then Below(deck, p - 1)[x] else 0
    decreases p, 0
  {
    if p - 1 >= 0 {
      LoopSeatedAt(pass, deck, round, p - 1, t1, x);
    } else {
      assert Pool(t1, []) == Seated(t1.games) + multiset(t1.hold);
    }
  }

  /** An attempt that runs out seats or holds each player exactly as often
      as they were seated or held at the start plus their copies in the
      groups visited. */
  lemma {:induction false} LoopFellAt(pass: (int, Table) -> Turn, deck: seq<Player>, round: int, p: int, t: Table, x: Player)
    requires Passes(pass, deck, round) && Inv(t, round)
    ensures var a := Loop(pass, p, t);
            a.outcome == FellThrough ==> Seated(a.games)[x] + multiset(a.hold)[x] == Pool(t, [])[x] + Below(deck, p)[x]
    decreases p, 1
  {
    BelowAt(deck, p, x);
    var g := Group(deck, p);
    var r := pass(p, t);
    assert TurnKeeps(r, t, g) && TurnOk(r, round, p);
    if r.Next? {
      assert Pool(r.table, [])[x] == Pool(t, g)[x] == Pool(t, [])[x] + multiset(g)[x];
      NextFellAt(pass, deck, round, p, r.table, x);
    }
  }

  lemma {:induction false} NextFellAt(pass: (int, Table) -> Turn, deck: seq<Player>, round: int, p: int, t1: Table, x: Player)
    requires Passes(pass, deck, round) && Inv(t1, round)
    ensures var a := Then(pass, p, t1);
            a.outcome == FellThrough ==>
              Seated(a.games)[x] + multiset(a.hold)[x] == Pool(t1, [])[x] + if p - 1 >= 0 then Below(deck, p - 1)[x] else 0
    decreases p, 0
  {
    if p - 1 >= 0 {
      LoopFellAt(pass, deck, round, p - 1, t1, x);
    } else {
      assert Pool(t1, []) == Seated(t1.games) + multiset(t1.hold);
    }
  }

  /** Group p holds each of the deck's players with p match points, as
      often as the deck does, and nobody else. */
  lemma {:induction false} GroupIs(deck: seq<Player>, p: int, x: Player)
    ensures multiset(Group(deck, p))[x] == if x.points == p then multiset(deck)[x] else 0
  {
    if deck != [] {
      assert deck == [deck[0]] + deck[1..];
      GroupIs(deck[1..], p, x);
    }
  }

  /** The players of the groups p, p - 1, ..., 0 are exactly the deck's
      players with between 0 and p match points (only group p when p < 0). */
  lemma {:induction false} BelowIs(deck: seq<Player>, p: int, x: Player)
    ensures Below(deck, p)[x] == if x.points == p || 0 <= x.points < p then multiset(deck)[x] else 0
    decreases p
  {
    GroupIs(deck, p, x);
    BelowAt(deck, p, x);
    if p - 1 >= 0 {
      BelowIs(deck, p - 1, x);
    }
  }

  /** One attempt from a given hold: its matches are numbered 1, 2, ...,
      active exactly when not a bye, never a rematch from the first seat's
      side, with at most one bye, last, and only when it returns `true` at
      p = 0. It returns `false` only at p = 0. Nobody is seated who was
      not held or in the deck, and when it runs out every such player is
      seated or held. */
  lemma PairAttemptOk(deck: seq<Player>, round: int, maxPoints: int, hold: seq<Player>)
    ensures Sound(PairAttempt(deck, round, maxPoints, hold), round)
    ensures PairAttempt(deck, round, maxPoints, hold).outcome == Failed ==>
              PairAttempt(deck, round, maxPoints, hold).at == 0
    ensures Seated(PairAttempt(deck, round, maxPoints, hold).games) <= multiset(hold) + multiset(deck)
    ensures var a := PairAttempt(deck, round, maxPoints, hold);
            a.outcome == FellThrough ==> Seated(a.games) + multiset(a.hold) == multiset(hold) + Below(deck, maxPoints)
  {
    var t := Table(hold, [], 1);
    var pass := (q: int, u: Table) => Body(deck, round, q, u);
    var a := Loop(pass, maxPoints, t);
    assert Pool(t, []) == multiset(hold);
    BodyPasses(deck, round);
    LoopSound(pass, deck, round, maxPoints, t);
    LoopEnd(pass, deck, round, maxPoints, t);
    forall x
      ensures Seated(a.games)[x] <= multiset(hold)[x] + multiset(deck)[x]
      ensures a.outcome == FellThrough ==>
                (Seated(a.games) + multiset(a.hold))[x] == (multiset(hold) + Below(deck, maxPoints))[x]
    {
      LoopSeatedAt(pass, deck, round, maxPoints, t, x);
      LoopFellAt(pass, deck, round, maxPoints, t, x);
      BelowIs(deck, maxPoints, x);
    }
  }

  /** At most one bye: a bye can only be the last match. */
  lemma OneBye(a: Attempt, round: int, i: nat, j: nat)
    requires Sound(a, round) && i < |a.games| && j < |a.games|
    requires a.games[i].second.Bye? && a.games[j].second.Bye?
    ensures i == j
  {
  }

  /** The bottom of the attempt (lines 320-323): with group 0 empty and two
      or more players held, the attempt returns `false`; with one held, it
      gives that player a bye and returns `true`. */
  lemma BottomHeld(deck: seq<Player>, round: int, t: Table)
    requires Group(deck, 0) == [] && |t.hold| > 0
    ensures Groups(deck, round, 0, t).outcome == (if |t.hold| > 1 then Failed else Paired)
    ensures |t.hold| == 1 ==> Groups(deck, round, 0, t).games == t.games + [Game(round, t.next, t.hold[0], Bye, false)]
  {
  }
}

