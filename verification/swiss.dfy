/** One attempt of the Swiss pairing (lib/Algorithms.js:310-382): the inner
    `pairAttempt(p)` run once from `p = maxPoints` down to 0 over the score
    groups, carrying unpaired players down in `hold`.

    The shuffle at line 329 is supplied as `deck`: the players in shuffled
    order, so that group p is `deck` filtered to the players with p match
    points. Every ordering of every group a shuffle can produce is the
    filter of some such deck. `hold` is a parameter because the source
    declares it once per `swiss` call (line 311) and never resets it between
    attempts. */
module Swiss {
  import opened Base

  /** A player as the pairing sees it: its id, its match points and the ids
      of its past opponents. */
  datatype Player = Player(id: int, points: int, opponents: seq<int>)

  /** The second seat of a match: a player, `null` (a bye), or `undefined`
      when line 337 read past the end of an emptied group without raising. */
  datatype Seat = Opponent(who: Player) | Bye | Undefined

  datatype Game = Game(round: int, number: int, first: Player, second: Seat, active: bool)

  /** `false`, `true`, `undefined` when the loop runs out (line 380), or the
      TypeError line 337 raises. */
  datatype Outcome = Failed | Paired | FellThrough | Threw(line: nat)

  /** What the attempt mutates: `hold`, the `matches` pushed so far and the
      next `matchNumber`. */
  datatype Table = Table(hold: seq<Player>, games: seq<Game>, next: int)

  /** A loop that returned from the attempt, or one that ended and left the
      group's remaining players. */
  datatype Step = Done(outcome: Outcome, table: Table) | Go(group: seq<Player>, table: Table)

  /** One pass of the do-while body: the attempt returned, or it moves on to
      the next lower group. */
  datatype Turn = Stop(outcome: Outcome, table: Table) | Next(table: Table)

  /** The attempt's result, the `matches` and `hold` it leaves behind, and
      the value of p when it stopped. */
  datatype Attempt = Attempt(outcome: Outcome, games: seq<Game>, hold: seq<Player>, at: int)

  /** The test of lines 337 and 356: b is not among a's past opponents (only
      a's list is consulted). */
  predicate Unplayed(a: Player, b: Player)
  {
    b.id !in a.opponents
  }

  // ---------------------------------------------------------------------------
  // Bookkeeping

  /** Line 319: the players with p match points, in deck order. */
  function Group(deck: seq<Player>, p: int): seq<Player>
  {
    if deck == [] then []
    else if deck[0].points == p then [deck[0]] + Group(deck[1..], p)
    else Group(deck[1..], p)
  }

  /** The players a match seats: the first, and the second when it is one. */
  function Seats(g: Game): multiset<Player>
  {
    multiset{g.first} + if g.second.Opponent? then multiset{g.second.who} else multiset{}
  }

  function Seated(gs: seq<Game>): multiset<Player>
  {
    if gs == [] then multiset{} else Seated(gs[..|gs| - 1]) + Seats(gs[|gs| - 1])
  }

  /** Everyone accounted for at a point of the attempt: seated, held, or
      still in the group being paired. */
  function Pool(t: Table, tp: seq<Player>): multiset<Player>
  {
    Seated(t.games) + multiset(t.hold) + multiset(tp)
  }

  /** The players of the groups the attempt visits from p down: p, p - 1,
      ..., 0 (only p itself when p < 0). */
  function Below(deck: seq<Player>, p: int): multiset<Player>
    decreases p
  {
    multiset(Group(deck, p)) + if p - 1 >= 0 then Below(deck, p - 1) else multiset{}
  }

  /** Lines 337-341 and 356-360: an active two-seat match numbered
      `matchNumber`, which then moves on by one. */
  function Pair(t: Table, round: int, a: Player, b: Seat): (r: Table)
    ensures r.hold == t.hold && r.next == t.next + 1
    ensures r.games == t.games + [Game(round, t.next, a, b, true)]
    ensures Seated(r.games) == Seated(t.games) + Seats(Game(round, t.next, a, b, true))
  {
    var gs := t.games + [Game(round, t.next, a, b, true)];
    assert gs[..|gs| - 1] == t.games;
    t.(games := gs, next := t.next + 1)
  }

  /** Lines 322, 333 and 366: a bye match, left inactive, for x. */
  function WithBye(t: Table, round: int, x: Player): (r: Table)
    ensures r.hold == t.hold && r.next == t.next
    ensures r.games == t.games + [Game(round, t.next, x, Bye, false)]
    ensures Seated(r.games) == Seated(t.games) + multiset{x}
  {
    var gs := t.games + [Game(round, t.next, x, Bye, false)];
    assert gs[..|gs| - 1] == t.games;
    t.(games := gs)
  }

  // ---------------------------------------------------------------------------
  // What every match pushed satisfies

  /** A two-seat match of this round, numbered num, active, and not a
      rematch from its first player's point of view. */
  ghost predicate Fair(g: Game, round: int, num: int)
  {
    && g.round == round && g.number == num && g.active && !g.second.Bye?
    && (g.second.Opponent? ==> Unplayed(g.first, g.second.who))
  }

  /** The matches so far are fair and numbered 1, 2, ..., and matchNumber is
      the next number. */
  ghost predicate Inv(t: Table, round: int)
  {
    && t.next == |t.games| + 1
    && forall i :: 0 <= i < |t.games| ==> Fair(t.games[i], round, i + 1)
  }

  /** As Inv, except that the last match is an inactive bye taking the next
      number. */
  ghost predicate ByeLast(t: Table, round: int)
  {
    var n := |t.games|;
    && n > 0 && t.next == n
    && (forall i :: 0 <= i < n - 1 ==> Fair(t.games[i], round, i + 1))
    && t.games[n - 1].round == round && t.games[n - 1].number == n
    && t.games[n - 1].second.Bye? && !t.games[n - 1].active
  }

  /** A loop's result: a returned attempt keeps the invariant, or ends with
      a bye only when it returns true at p = 0; a loop that ends keeps it. */
  ghost predicate StepOk(r: Step, round: int, p: int)
  {
    match r
    case Go(_, t) => Inv(t, round)
    case Done(o, t) => Inv(t, round) || (o == Paired && p == 0 && ByeLast(t, round))
  }

  /** Pushing a fair match keeps the numbering and fairness invariant. */
  lemma PairKeeps(t: Table, round: int, a: Player, b: Seat)
    requires !b.Bye? && (b.Opponent? ==> Unplayed(a, b.who))
    ensures Inv(t, round) ==> Inv(Pair(t, round, a, b), round)
  {
    var r := Pair(t, round, a, b);
    if Inv(t, round) {
      forall i | 0 <= i < |r.games|
        ensures Fair(r.games[i], round, i + 1)
      {
        if i < |t.games| {
          assert r.games[i] == t.games[i];
        }
      }
    }
  }

  /** A bye pushed onto fair matches ends them as ByeLast describes. */
  lemma ByeEnds(t: Table, round: int, x: Player)
    requires Inv(t, round)
    ensures ByeLast(WithBye(t, round, x), round)
  {
    var r := WithBye(t, round, x);
    forall i | 0 <= i < |r.games| - 1
      ensures Fair(r.games[i], round, i + 1)
    {
      assert r.games[i] == t.games[i];
    }
  }

  // ---------------------------------------------------------------------------
  // The loops

  /** Lines 337-344 once: the first held player h is paired with the player
      at index l when h has not played that player, and with `undefined`
      when l is past the end of the group (reached only when h has no past
      opponents, for otherwise line 337 raises); otherwise l moves on. */
  function HoldTry(round: int, tp: seq<Player>, l: nat, t: Table): (r: (seq<Player>, nat, Table))
    requires |t.hold| > 0 && (l < |tp| || |t.hold[0].opponents| == 0)
    ensures |r.2.hold| < |t.hold| || (r.2 == t && r.0 == tp && r.1 == l + 1 && l < |tp|)
  {
    var h := t.hold[0];
    if l < |tp| && Unplayed(h, tp[l]) then
      (tp[..l] + tp[l + 1..], l, Pair(t.(hold := t.hold[1..]), round, h, Opponent(tp[l])))
    else if l < |tp| then (tp, l + 1, t)
    else (tp, l, Pair(t.(hold := t.hold[1..]), round, h, Undefined))
  }

  /** Lines 331-349: the held players, first to last, are each paired with
      the first player from index l on whom they have not played. At p = 0
      an emptied group ends the attempt with a bye or, with two or more
      held, with `false`; past the end of the group at p > 0, line 337
      raises unless the held player has no past opponents, in which case
      the player is paired with `undefined`. Once l reaches the end of a
      non-empty group the loop breaks, or at p = 0 returns `true`. */
  function HoldLoop(round: int, p: int, tp: seq<Player>, l: nat, t: Table): (r: Step)
    decreases |t.hold|, |tp| - l
  {
    if |t.hold| == 0 then Go(tp, t)
    else if |tp| == 0 && p == 0 then
      if |t.hold| > 1 then Done(Failed, t) else Done(Paired, WithBye(t, round, t.hold[0]))
    else if l >= |tp| && |t.hold[0].opponents| > 0 then Done(Threw(337), t)
    else
      var (tp', l', t') := HoldTry(round, tp, l, t);
      if l' == |tp'| && l' != 0 then (if p == 0 then Done(Paired, t') else Go(tp', t'))
      else HoldLoop(round, p, tp', l', t')
  }

  /** Lines 350-363: while two or more players remain, the first is paired
      with the first later player it has not played. */
  function PairLoop(round: int, p: int, tp: seq<Player>, t: Table): (r: Step)
    decreases |tp|, |tp|
  {
    if |tp| <= 1 then Go(tp, t) else Scan(round, p, tp, 1, t)
  }

  /** The inner loop from index i. When nobody is left for the first player
      at p = 0 the attempt returns `false`; at p > 0 the `forEach` over a
      group that `shift` shortens as it goes moves only the first
      ceil(L/2) of its L players into `hold` (line 364). */
  function Scan(round: int, p: int, tp: seq<Player>, i: nat, t: Table): (r: Step)
    requires 1 <= i < |tp|
    decreases |tp|, |tp| - i
  {
    if Unplayed(tp[0], tp[i]) then Matched(round, p, tp, i, t)
    else if i + 1 < |tp| then Scan(round, p, tp, i + 1, t)
    else if p == 0 then Done(Failed, t)
    else Held(round, p, tp, t)
  }

  /** Lines 356-359: the first player meets player i; both leave the group
      and the loop starts over. */
  function Matched(round: int, p: int, tp: seq<Player>, i: nat, t: Table): (r: Step)
    requires 1 <= i < |tp|
    decreases |tp|, 0
  {
    PairLoop(round, p, tp[1..i] + tp[i + 1..], Pair(t, round, tp[0], Opponent(tp[i])))
  }

  /** Lines 362-365: nobody fits the first player at p > 0, so the first
      ceil(L/2) players of the group are held and the rest go on. */
  function Held(round: int, p: int, tp: seq<Player>, t: Table): (r: Step)
    requires |tp| >= 2
    decreases |tp|, 0
  {
    var c := (|tp| + 1) / 2;
    PairLoop(round, p, tp[c..], t.(hold := t.hold + tp[..c]))
  }

  /** Lines 368-379, after the loops: a last player gets a bye at p = 0 and
      is held otherwise; an emptied group returns `true` at p = 0 and moves
      on otherwise; anything else returns `false` (line 379). */
  function Last(round: int, p: int, tp: seq<Player>, t: Table): Turn
  {
    if |tp| == 1 then
      if p == 0 then Stop(Paired, WithBye(t, round, tp[0])) else Next(t.(hold := t.hold + [tp[0]]))
    else if |tp| == 0 then
      if p == 0 then Stop(Paired, t) else Next(t)
    else Stop(Failed, t)
  }

  /** Lines 330-379 for a non-empty group tp. */
  function Pass(round: int, p: int, tp: seq<Player>, t: Table): Turn
  {
    match HoldLoop(round, p, tp, 0, t)
    case Done(o, t1) => Stop(o, t1)
    case Go(tp1, t1) =>
      match PairLoop(round, p, tp1, t1)
      case Done(o, t2) => Stop(o, t2)
      case Go(tp2, t2) => Last(round, p, tp2, t2)
  }

  /** One pass of the do-while body (lines 318-379) for group p. An empty
      group at p = 0 gives the single held player a bye, or returns `false`
      when more are held (lines 320-323); an empty group above 0 is
      skipped. */
  function Body(deck: seq<Player>, round: int, p: int, t: Table): Turn
  {
    var tp := Group(deck, p);
    if |tp| == 0 then
      if p == 0 && |t.hold| > 0 then
        if |t.hold| > 1 then Stop(Failed, t) else Stop(Paired, WithBye(t, round, t.hold[0]))
      else Next(t)
    else Pass(round, p, tp, t)
  }

  /** The do-while of lines 317-380 from group p down, `pass` being one
      pass of its body: a pass that returns ends the attempt; one that moves
      on continues with p - 1 while that is still >= 0, and otherwise the
      attempt runs out and returns `undefined`. */
  function Loop(pass: (int, Table) -> Turn, p: int, t: Table): Attempt
    decreases p, 1
  {
    match pass(p, t)
    case Stop(o, t1) => Attempt(o, t1.games, t1.hold, p)
    case Next(t1) => Then(pass, p, t1)
  }

  /** After a pass for group p moves on. */
  function Then(pass: (int, Table) -> Turn, p: int, t1: Table): Attempt
    decreases p, 0
  {
    if p - 1 >= 0 then Loop(pass, p - 1, t1) else Attempt(FellThrough, t1.games, t1.hold, p - 1)
  }

  function Groups(deck: seq<Player>, round: int, p: int, t: Table): Attempt
  {
    Loop((q: int, u: Table) => Body(deck, round, q, u), p, t)
  }

  /** The matches of an attempt are numbered 1, 2, ... and belong to its
      round; no two-seat match pairs its first player with a past opponent;
      a match is active exactly when it is not a bye; and a bye can only be
      the last match, of an attempt that returned `true` at p = 0. */
  ghost predicate Sound(a: Attempt, round: int)
  {
    var n := |a.games|;
    && (forall i :: 0 <= i < n ==> a.games[i].round == round && a.games[i].number == i + 1)
    && (forall i :: 0 <= i < n && a.games[i].second.Opponent? ==>
          Unplayed(a.games[i].first, a.games[i].second.who))
    && (forall i :: 0 <= i < n ==> (a.games[i].active <==> !a.games[i].second.Bye?))
    && (forall i :: 0 <= i < n && a.games[i].second.Bye? ==>
          i == n - 1 && a.outcome == Paired && a.at == 0)
  }

  /** `pairAttempt(maxPoints)` with `hold` as it stands when the attempt
      starts. */
  function PairAttempt(deck: seq<Player>, round: int, maxPoints: int, hold: seq<Player>): Attempt
  {
    Groups(deck, round, maxPoints, Table(hold, [], 1))
  }
}
