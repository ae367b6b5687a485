/** Two single attempts traced by hand, each showing a behaviour of the
    source the general lemmas allow but do not single out: the ceil(L/2)
    hold of line 364 together with a `true` that leaves players unpaired
    (lines 345-347), and the TypeError of line 337. */
module SwissRuns {
  import opened Swiss

  /** A has played B, C, D and E; E and F sit one point lower. */
  const A := Player(1, 1, [2, 3, 4, 5])
  const B := Player(2, 1, [1])
  const C := Player(3, 1, [1])
  const D := Player(4, 1, [1])
  const E := Player(5, 0, [1])
  const F := Player(6, 0, [])

  const HalfDeck := [A, B, C, D, E, F]
  const HalfTable := Table([A, B], [Game(3, 1, C, Opponent(D), true)], 2)
  const HalfEnd := Table([B], [Game(3, 1, C, Opponent(D), true), Game(3, 2, A, Opponent(F), true)], 3)

  /** Group p of a deck that starts with x. */
  lemma GroupCons(x: Player, rest: seq<Player>, p: int)
    ensures Group([x] + rest, p) == if x.points == p then [x] + Group(rest, p) else Group(rest, p)
  {
    assert ([x] + rest)[1..] == rest;
  }

  lemma HalfGroups()
    ensures Group(HalfDeck, 1) == [A, B, C, D] && Group(HalfDeck, 0) == [E, F]
  {
    GroupCons(F, [], 1);
    GroupCons(F, [], 0);
    GroupCons(E, [F], 1);
    GroupCons(E, [F], 0);
    GroupCons(D, [E, F], 1);
    GroupCons(D, [E, F], 0);
    GroupCons(C, [D, E, F], 1);
    GroupCons(C, [D, E, F], 0);
    GroupCons(B, [C, D, E, F], 1);
    GroupCons(B, [C, D, E, F], 0);
    GroupCons(A, [B, C, D, E, F], 1);
    GroupCons(A, [B, C, D, E, F], 0);
  }

  lemma HalfTop()
    ensures Body(HalfDeck, 3, 1, Table([], [], 1)) == Next(HalfTable)
  {
    HalfGroups();
    var t0 := Table([], [], 1);
    var g1 := [A, B, C, D];
    assert !Unplayed(A, B) && !Unplayed(A, C) && !Unplayed(A, D);
    assert Scan(3, 1, g1, 3, t0) == Held(3, 1, g1, t0);
    assert Scan(3, 1, g1, 2, t0) == Held(3, 1, g1, t0);
    assert Scan(3, 1, g1, 1, t0) == Held(3, 1, g1, t0);
    var h := Table([A, B], [], 1);
    assert g1[2..] == [C, D] && g1[..2] == [A, B] && t0.hold + g1[..2] == [A, B];
    assert Held(3, 1, g1, t0) == PairLoop(3, 1, [C, D], h);
    assert [C, D][1..1] + [C, D][2..] == [] && Pair(h, 3, C, Opponent(D)) == HalfTable;
    assert Matched(3, 1, [C, D], 1, h) == PairLoop(3, 1, [], HalfTable);
    assert PairLoop(3, 1, [C, D], h) == Go([], HalfTable);
    assert PairLoop(3, 1, g1, t0) == Go([], HalfTable);
  }

  lemma HalfBottom()
    ensures Body(HalfDeck, 3, 0, HalfTable) == Stop(Paired, HalfEnd)
  {
    HalfGroups();
    var t1 := HalfTable;
    assert HoldTry(3, [E, F], 0, t1) == ([E, F], 1, t1);
    assert [E, F][..1] + [E, F][2..] == [E];
    assert t1.hold[1..] == [B];
    assert Pair(t1.(hold := [B]), 3, A, Opponent(F)) == HalfEnd;
    assert HoldTry(3, [E, F], 1, t1) == ([E], 1, HalfEnd);
    assert HoldLoop(3, 0, [E, F], 0, t1) == Done(Paired, HalfEnd);
  }

  /** Nobody in group 1 suits A, and the `forEach` of line 364 holds only
      A and B, the first half of the four, so C and D are still paired with
      each other. At p = 0, A takes F, which leaves l at the end of the
      shortened group: the attempt returns `true` with B still held and E
      never paired. */
  lemma HalfHeld()
    ensures PairAttempt(HalfDeck, 3, 1, [])
            == Attempt(Paired, [Game(3, 1, C, Opponent(D), true), Game(3, 2, A, Opponent(F), true)], [B], 0)
  {
    var pass := (q: int, u: Table) => Body(HalfDeck, 3, q, u);
    HalfTop();
    HalfBottom();
    assert pass(1, Table([], [], 1)) == Next(HalfTable);
    assert pass(0, HalfTable) == Stop(Paired, HalfEnd);
  }

  /** U1 has played U2, U3 and U4; U5 sits one point lower. */
  const U1 := Player(1, 2, [2, 3, 4])
  const U2 := Player(2, 2, [1])
  const U3 := Player(3, 2, [1])
  const U4 := Player(4, 2, [1])
  const U5 := Player(5, 1, [])

  const ThrowDeck := [U1, U2, U3, U4, U5]
  const ThrowTable := Table([U1, U2], [Game(2, 1, U3, Opponent(U4), true)], 2)
  const ThrowEnd := Table([U2], [Game(2, 1, U3, Opponent(U4), true), Game(2, 2, U1, Opponent(U5), true)], 3)

  lemma ThrowGroups()
    ensures Group(ThrowDeck, 2) == [U1, U2, U3, U4] && Group(ThrowDeck, 1) == [U5]
  {
    GroupCons(U5, [], 2);
    GroupCons(U5, [], 1);
    GroupCons(U4, [U5], 2);
    GroupCons(U4, [U5], 1);
    GroupCons(U3, [U4, U5], 2);
    GroupCons(U3, [U4, U5], 1);
    GroupCons(U2, [U3, U4, U5], 2);
    GroupCons(U2, [U3, U4, U5], 1);
    GroupCons(U1, [U2, U3, U4, U5], 2);
    GroupCons(U1, [U2, U3, U4, U5], 1);
  }

  lemma ThrowTop()
    ensures Body(ThrowDeck, 2, 2, Table([], [], 1)) == Next(ThrowTable)
  {
    ThrowGroups();
    var t0 := Table([], [], 1);
    var g := [U1, U2, U3, U4];
    assert !Unplayed(U1, U2) && !Unplayed(U1, U3) && !Unplayed(U1, U4);
    assert Scan(2, 2, g, 3, t0) == Held(2, 2, g, t0);
    assert Scan(2, 2, g, 2, t0) == Held(2, 2, g, t0);
    assert Scan(2, 2, g, 1, t0) == Held(2, 2, g, t0);
    var h := Table([U1, U2], [], 1);
    assert g[2..] == [U3, U4] && g[..2] == [U1, U2] && t0.hold + g[..2] == [U1, U2];
    assert Held(2, 2, g, t0) == PairLoop(2, 2, [U3, U4], h);
    assert [U3, U4][1..1] + [U3, U4][2..] == [] && Pair(h, 2, U3, Opponent(U4)) == ThrowTable;
    assert Matched(2, 2, [U3, U4], 1, h) == PairLoop(2, 2, [], ThrowTable);
    assert PairLoop(2, 2, [U3, U4], h) == Go([], ThrowTable);
    assert PairLoop(2, 2, g, t0) == Go([], ThrowTable);
  }

  lemma ThrowBottom()
    ensures Body(ThrowDeck, 2, 1, ThrowTable) == Stop(Threw(337), ThrowEnd)
  {
    ThrowGroups();
    var t1 := ThrowTable;
    assert [U5][..0] + [U5][1..] == [];
    assert t1.hold[1..] == [U2];
    assert Pair(t1.(hold := [U2]), 2, U1, Opponent(U5)) == ThrowEnd;
    assert HoldTry(2, [U5], 0, t1) == ([], 0, ThrowEnd);
    assert HoldLoop(2, 1, [], 0, ThrowEnd) == Done(Threw(337), ThrowEnd);
    assert HoldLoop(2, 1, [U5], 0, t1) == Done(Threw(337), ThrowEnd);
  }

  /** Line 337 raises: two players are held from the top group; the first
      takes the single player of the next group, which leaves the second
      held player, who has past opponents, reading past the end of the
      emptied group. */
  lemma ThrowsAt337()
    ensures PairAttempt(ThrowDeck, 2, 2, [])
            == Attempt(Threw(337), [Game(2, 1, U3, Opponent(U4), true), Game(2, 2, U1, Opponent(U5), true)], [U2], 1)
  {
    var pass := (q: int, u: Table) => Body(ThrowDeck, 2, q, u);
    ThrowTop();
    ThrowBottom();
    assert pass(2, Table([], [], 1)) == Next(ThrowTable);
    assert pass(1, ThrowTable) == Stop(Threw(337), ThrowEnd);
  }
}
