/** Double-elimination bracket generation, `doubleElim(players)`
    (lib/Algorithms.js:105-302). The winner's bracket is built and seeded as
    for single elimination; then the preliminary matches are filled, two
    grand-final rounds and the loser's-bracket rounds are appended, and the
    routing from winner's to loser's bracket and within the loser's bracket is
    wired. Players are the seed indices 0..n-1.

    Round numbers are positions: the JavaScript counter `r` always equals
    `rounds.length + 1` when a round is pushed, so `rounds.find(p => p.round
    === q)` is the round stored at index q - 1, and a match's `matchNumber` is
    its position plus one. A lookup that finds nothing and is then
    dereferenced raises a TypeError, reported with its source line. */
module DoubleElim {
  import opened Base
  import opened Arena
  import opened Skeleton
  import Seeding

  // ---------------------------------------------------------------------------
  // Lookups

  /** `round.matches[i]` as a key, None (undefined) past the end of the
      round or for a round that does not exist. */
  function MatchAt(rs: Rounds, round: nat, i: nat): (r: Option<MatchId>)
    ensures r.Some? <==> 1 <= round <= |rs| && i < |rs[round - 1]|
    ensures r.Some? ==> r.value == MatchId(round, i + 1)
  {
    Find(rs, round, i + 1)
  }

  /** `s[i]`, with 0 standing for undefined: no match is numbered 0, so a
      `find` for it finds nothing. */
  function At(s: seq<int>, i: nat): int
  {
    if i < |s| then s[i] else 0
  }

  /** `m.loserPath = to` for `m = round.matches.find(y => y.matchNumber ===
      number)`; a missing match raises a TypeError at `line`. */
  function SetLoss(rs: Rounds, round: nat, number: int, to: Option<MatchId>, line: nat): (r: Result<Rounds>)
    ensures r.Ok? <==> Find(rs, round, number).Some?
    ensures r.Ok? ==> r.value == Put(rs, MatchId(round, number), Get(rs, MatchId(round, number)).(loss := to))
  {
    match Find(rs, round, number)
    case None => Err(TypeError(line))
    case Some(id) => Ok(Put(rs, id, Get(rs, id).(loss := to)))
  }

  // ---------------------------------------------------------------------------
  // Preliminary round (lines 130-158)

  /** Lines 137-144 (`first`) and 148-155 (`!first`): preliminary match j takes
      the player in the first or second slot of round-2 match c, that slot is
      emptied, the round-2 match goes inactive, and the preliminary match gets
      player index 2t - b as opponent and round-2 match c as its winner's
      destination. `r1.matches[j]` past the end is undefined, and setting its
      `active` raises a TypeError. */
  function Take(rs: Rounds, c: nat, j: nat, first: bool, b: int, t: int): (r: Result<Rounds>)
    requires |rs| >= 2 && c < |rs[1]|
    ensures r.Ok? ==> |r.value| == |rs| && forall q :: 0 <= q < |rs| ==> |r.value[q]| == |rs[q]|
  {
    if j >= |rs[0]| then Err(TypeError(if first then 138 else 149))
    else
      var x := rs[1][c];
      var y := rs[0][j].(active := true, one := if first then x.one else x.two, two := Some(2 * t - b),
                         win := Some(MatchId(2, c + 1)));
      var x' := if first then x.(active := false, one := None) else x.(active := false, two := None);
      Ok(rs[0 := rs[0][j := y]][1 := rs[1][c := x']])
  }

  /** One turn of the `forEach` over round 2 (lines 135-158): positions 2c and
      2c + 1 of the seed order are compared with the cut t - rem, and each seed
      above it moves into the next free preliminary match. Returns the new
      arena and the next free preliminary match. */
  function Visit(rs: Rounds, c: nat, j: nat, cut: int, t: int, order: seq<int>): (r: Result<(Rounds, nat)>)
    requires |rs| >= 2 && c < |rs[1]| && 2 * c + 1 < |order|
    ensures r.Ok? ==> |r.value.0| == |rs| && forall q :: 0 <= q < |rs| ==> |r.value.0[q]| == |rs[q]|
  {
    var hitOne := order[2 * c] > cut;
    var r1 := if hitOne then Take(rs, c, j, true, order[2 * c], t) else Ok(rs);
    match r1
    case Err(e) => Err(e)
    case Ok(rs1) =>
      var j1 := if hitOne then j + 1 else j;
      var hitTwo := order[2 * c + 1] > cut;
      var r2 := if hitTwo then Take(rs1, c, j1, false, order[2 * c + 1], t) else Ok(rs1);
      match r2
      case Err(e) => Err(e)
      case Ok(rs2) => Ok((rs2, if hitTwo then j1 + 1 else j1))
  }

  /** The `forEach` over round 2 from match c on, j preliminary matches used. */
  function Visits(rs: Rounds, c: nat, j: nat, cut: int, t: int, order: seq<int>): (r: Result<Rounds>)
    requires |rs| >= 2 && 2 * |rs[1]| <= |order|
    ensures r.Ok? ==> |r.value| == |rs| && forall q :: 0 <= q < |rs| ==> |r.value[q]| == |rs[q]|
    decreases |rs[1]| - c
  {
    if c >= |rs[1]| then Ok(rs)
    else
      match Visit(rs, c, j, cut, t, order)
      case Err(e) => Err(e)
      case Ok((rs', j')) => Visits(rs', c + 1, j', cut, t, order)
  }

  // ---------------------------------------------------------------------------
  // Redirect lists (lines 160-161)

  /** `less`: for each round-2 match with an empty slot, in order, ceil(m/2)
      of its match number m. */
  function Less(round: Round): seq<int>
  {
    if round == [] then []
    else
      var m := round[|round| - 1];
      Less(round[..|round| - 1]) + (if m.one.None? || m.two.None? then [Half(|round|)] else [])
  }

  /** `great`: the numbers of the round-2 matches with both slots empty. */
  function Great(round: Round): seq<int>
  {
    if round == [] then []
    else
      var m := round[|round| - 1];
      Great(round[..|round| - 1]) + (if m.one.None? && m.two.None? then [|round|] else [])
  }

  // ---------------------------------------------------------------------------
  // Grand finals (lines 163-171)

  /** One turn of lines 163-170: push a one-match round and send the winner
      (and, the second time, also the loser) of the previous round's first
      match to it. */
  function GrandFinal(rs: Rounds, second: bool): (r: Result<Rounds>)
    ensures r.Ok? ==> |r.value| == |rs| + 1
  {
    var rs1 := rs + [NewRound(|rs| + 1, 1)];
    var to := MatchId(|rs| + 1, 1);
    if rs == [] then Err(TypeError(166))
    else if rs[|rs| - 1] == [] then Err(TypeError(167))
    else
      var m := rs[|rs| - 1][0];
      var m' := m.(win := Some(to), loss := if second then Some(to) else m.loss);
      Ok(rs1[|rs| - 1 := rs1[|rs| - 1][0 := m']])
  }

  function GrandFinals(rs: Rounds): (r: Result<Rounds>)
    ensures r.Ok? ==> |r.value| == |rs| + 2
  {
    match GrandFinal(rs, false)
    case Err(e) => Err(e)
    case Ok(rs1) => GrandFinal(rs1, true)
  }

  // ---------------------------------------------------------------------------
  // Loser's-bracket rounds (lines 172-191)

  /** Lines 173-183: one round of rem matches when rem <= h, two rounds of
      rem - h and h matches when rem is larger, none when rem = 0. */
  function FirstLoserSizes(rem: nat, h: nat): (s: seq<nat>)
  {
    if rem == 0 then [] else if rem <= h then [rem] else [rem - h, h]
  }

  /** The do-while of lines 185-191 from p down to 0: two rounds of 2^p. */
  function PairSizes(p: nat): (s: seq<nat>)
  {
    [Pow2(p), Pow2(p)] + (if p > 0 then PairSizes(p - 1) else [])
  }

  /** Sizes of all loser's-bracket rounds, for k >= 2. */
  function LoserSizes(k: nat, rem: nat): seq<nat>
    requires k >= 2
  {
    FirstLoserSizes(rem, Pow2(k - 1)) + PairSizes(k - 2)
  }

  /** Pushes fresh rounds of the given sizes, numbered on from |rs| + 1. */
  function AppendRounds(rs: Rounds, sizes: seq<nat>): (r: Rounds)
    ensures |r| == |rs| + |sizes|
    ensures r[..|rs|] == rs
    ensures forall q :: 0 <= q < |sizes| ==> r[|rs| + q] == NewRound(|rs| + q + 1, sizes[q])
    decreases |sizes|
  {
    if sizes == [] then rs else AppendRounds(rs + [NewRound(|rs| + 1, sizes[0])], sizes[1..])
  }

  // ---------------------------------------------------------------------------
  // Winner's-to-loser's drops (lines 192-279)

  /** Lines 203-208: the losers of winner matches a and b both go to loser
      match q + 1 of round l. */
  function PairStep(rs: Rounds, w: nat, l: nat, a: int, b: int, q: nat): (r: Result<Rounds>)
    ensures r.Ok? ==> |r.value| == |rs| && forall j :: 0 <= j < |rs| ==> |r.value[j]| == |rs[j]|
  {
    var x := Some(MatchId(l, q + 1));
    match SetLoss(rs, w, a, x, 204)
    case Err(e) => Err(e)
    case Ok(rs1) => SetLoss(rs1, w, b, x, 207)
  }

  /** Lines 202-209 from loser match q on, d winner matches used so far:
      loser match q takes the losers of winner matches first[d] and
      first[d + 1]. */
  function DropPairs(rs: Rounds, w: nat, l: nat, first: seq<int>, q: nat, d: nat): (r: Result<Rounds>)
    requires 1 <= l <= |rs|
    ensures r.Ok? ==> |r.value| == |rs| && forall j :: 0 <= j < |rs| ==> |r.value[j]| == |rs[j]|
    decreases |rs[l - 1]| - q
  {
    if q >= |rs[l - 1]| then Ok(rs)
    else
      match PairStep(rs, w, l, At(first, d), At(first, d + 1), q)
      case Err(e) => Err(e)
      case Ok(rs2) => DropPairs(rs2, w, l, first, q + 1, d + 2)
  }

  /** Lines 216-219 and 274-277 from loser match q on: loser match q takes the
      loser of winner match fill[q]. */
  function DropEach(rs: Rounds, w: nat, l: nat, fill: seq<int>, q: nat, line: nat): (r: Result<Rounds>)
    requires 1 <= l <= |rs|
    ensures r.Ok? ==> |r.value| == |rs| && forall j :: 0 <= j < |rs| ==> |r.value[j]| == |rs[j]|
    decreases |rs[l - 1]| - q
  {
    if q >= |rs[l - 1]| then Ok(rs)
    else
      match SetLoss(rs, w, At(fill, q), Some(MatchId(l, q + 1)), line)
      case Err(e) => Err(e)
      case Ok(rs1) => DropEach(rs1, w, l, fill, q + 1, line)
  }

  /** `lessCopy.splice(lessCopy.indexOf(v), 1)` for a v the list holds. */
  function RemoveFirst(s: seq<int>, v: int): (r: seq<int>)
    ensures |r| == |s| - (if v in s then 1 else 0)
  {
    if s == [] then [] else if s[0] == v then s[1..] else [s[0]] + RemoveFirst(s[1..], v)
  }

  /** Lines 229-235 (lines 236-242 for the second loser): the loser of winner
      match `number` goes to loser match q + 1 of round l, unless that number
      is still in `lessCopy`; then it goes to match e of round l - 1, e moves
      on and one copy of the number leaves the list. */
  function LessStep(rs: Rounds, w: nat, l: nat, number: int, q: nat, e: nat, lessCopy: seq<int>,
                    redirect: nat, plain: nat): (r: Result<(Rounds, nat, seq<int>)>)
    requires 2 <= l <= |rs|
    ensures r.Ok? ==> |r.value.0| == |rs| && forall j :: 0 <= j < |rs| ==> |r.value.0[j]| == |rs[j]|
  {
    if q + 1 in lessCopy then
      match SetLoss(rs, w, number, MatchAt(rs, l - 1, e), redirect)
      case Err(err) => Err(err)
      case Ok(rs1) => Ok((rs1, e + 1, RemoveFirst(lessCopy, q + 1)))
    else
      match SetLoss(rs, w, number, Some(MatchId(l, q + 1)), plain)
      case Err(err) => Err(err)
      case Ok(rs1) => Ok((rs1, e, lessCopy))
  }

  /** Lines 228-243 from loser match q on, d winner matches and e redirects
      used so far. */
  function DropLess(rs: Rounds, w: nat, l: nat, second: seq<int>, q: nat, d: nat, e: nat, lessCopy: seq<int>): (r: Result<Rounds>)
    requires 2 <= l <= |rs|
    ensures r.Ok? ==> |r.value| == |rs| && forall j :: 0 <= j < |rs| ==> |r.value[j]| == |rs[j]|
    decreases |rs[l - 1]| - q
  {
    if q >= |rs[l - 1]| then Ok(rs)
    else
      match LessStep(rs, w, l, At(second, d), q, e, lessCopy, 231, 234)
      case Err(err) => Err(err)
      case Ok((rs1, e1, lc1)) =>
        match LessStep(rs1, w, l, At(second, d + 1), q, e1, lc1, 238, 241)
        case Err(err) => Err(err)
        case Ok((rs2, e2, lc2)) => DropLess(rs2, w, l, second, q + 1, d + 2, e2, lc2)
  }

  /** Lines 254-264 from loser match q of round l on (w is winner round 1, the
      preliminary round). When q + 1 is in `great`, both the loser of winner
      match first[d] and that of the next one go to match e of round l - 1;
      `d++ && e++` moves e on only when d was not 0. Otherwise the loser of
      first[d] goes to loser match q + 1. */
  function DropGreat(rs: Rounds, w: nat, l: nat, first: seq<int>, great: seq<int>, q: nat, d: nat, e: nat): (r: Result<Rounds>)
    requires 2 <= l <= |rs|
    ensures r.Ok? ==> |r.value| == |rs| && forall j :: 0 <= j < |rs| ==> |r.value[j]| == |rs[j]|
    decreases |rs[l - 1]| - q
  {
    if q >= |rs[l - 1]| then Ok(rs)
    else if q + 1 in great then
      var o := MatchAt(rs, l - 1, e);
      match SetLoss(rs, w, At(first, d), o, 258)
      case Err(err) => Err(err)
      case Ok(rs1) =>
        var e1 := if d != 0 then e + 1 else e;
        match SetLoss(rs1, w, At(first, d + 1), o, 261)
        case Err(err) => Err(err)
        case Ok(rs2) => DropGreat(rs2, w, l, first, great, q + 1, d + 2, e1)
    else
      match SetLoss(rs, w, At(first, d), Some(MatchId(l, q + 1)), 262)
      case Err(err) => Err(err)
      case Ok(rs1) => DropGreat(rs1, w, l, first, great, q + 1, d + 1, e)
  }

  /** Where the drop loop of lines 268-279 starts: the next winner round, the
      loser round it feeds and the fill count. */
  datatype DropState = DropState(rs: Rounds, winnerRound: nat, loserRound: nat, fillCount: nat)

  /** Lines 192-266, the drops of the first one or two winner rounds, by the
      three cases of rem. diff is the round number of the second grand final. */
  function FirstDrops(rs: Rounds, diff: nat, rem: nat, h: nat, less: seq<int>, great: seq<int>): (r: Result<DropState>)
    ensures r.Ok? ==> |r.value.rs| == |rs| && forall j :: 0 <= j < |rs| ==> |r.value.rs[j]| == |rs[j]|
  {
    if rs == [] then Err(TypeError(if rem == 0 then 199 else if rem <= h then 214 else 250))
    else if rem == 0 then
      // lines 196-210
      if |rs| < diff + 1 then Err(TypeError(202))
      else
        match DropPairs(rs, 1, diff + 1, Seeding.LoserFill(|rs[0]|, 0), 0, 0)
        case Err(e) => Err(e)
        case Ok(rs1) => Ok(DropState(rs1, 2, diff + 2, 1))
    else if rem <= h then
      // lines 211-244
      if |rs| < diff + 1 then Err(TypeError(216))
      else
        match DropEach(rs, 1, diff + 1, Seeding.LoserFill(|rs[0]|, 0), 0, 218)
        case Err(e) => Err(e)
        case Ok(rs1) =>
          if |rs1| < 2 then Err(TypeError(223))
          else if |rs1| < diff + 2 then Err(TypeError(228))
          else
            match DropLess(rs1, 2, diff + 2, Seeding.LoserFill(|rs1[1]|, 1), 0, 0, 0, less)
            case Err(e) => Err(e)
            case Ok(rs2) => Ok(DropState(rs2, 3, diff + 3, 2))
    else
      // lines 245-266
      if |rs| < diff + 2 then Err(TypeError(254))
      else
        match DropGreat(rs, 1, diff + 2, Seeding.LoserFill(|rs[0]|, 0), great, 0, 0, 0)
        case Err(e) => Err(e)
        case Ok(rs1) => Ok(DropState(rs1, 2, diff + 2, 1))
  }

  /** The loop of lines 268-279 from winner round i on: the losers of winner
      round i go to loser round lr + z, loser match q taking the loser of
      winner match fill[q] with fill = loserFill(|round i|, fillCount).
      `loserRound++ && z++` always increments both (loserRound is positive),
      so the loser round moves on by two per winner round. */
  function DropRest(rs: Rounds, i: nat, diff: nat, lr: nat, z: nat, fc: nat): (r: Result<Rounds>)
    ensures r.Ok? ==> |r.value| == |rs| && forall j :: 0 <= j < |rs| ==> |r.value[j]| == |rs[j]|
    decreases diff - i
  {
    if i + 1 >= diff then Ok(rs)
    else if !(1 <= i <= |rs|) then Err(TypeError(272))
    else if !(1 <= lr + z <= |rs|) then Err(TypeError(274))
    else
      match DropEach(rs, i, lr + z, Seeding.LoserFill(|rs[i - 1]|, fc), 0, 276)
      case Err(e) => Err(e)
      case Ok(rs1) => DropRest(rs1, i + 1, diff, lr + 1, z + 1, fc + 1)
  }

  // ---------------------------------------------------------------------------
  // Loser's-bracket winners (lines 280-300)

  /** Lines 282-289: match i of round `from` sends its winner to match sel[i]
      of the next round (undefined when sel is too short). */
  function SelectWins(rs: Rounds, from: nat, sel: seq<int>): (r: Rounds)
    requires 1 <= from <= |rs|
    ensures |r| == |rs| && forall j :: 0 <= j < |rs| ==> |r[j]| == |rs[j]|
  {
    var round := rs[from - 1];
    rs[from - 1 := seq(|round|, i requires 0 <= i < |round| => round[i].(win := Find(rs, from + 1, At(sel, i))))]
  }

  /** Lines 293-296 for round i: one-to-one into round i + 1 when both have
      the same number of matches, else match q to match floor(q/2). */
  function RouteRound(rs: Rounds, i: nat): (r: Rounds)
    requires 1 <= i < |rs|
    ensures |r| == |rs| && forall j :: 0 <= j < |rs| ==> |r[j]| == |rs[j]|
  {
    var n, l := rs[i - 1], rs[i];
    var same := |n| == |l|;
    rs[i - 1 := seq(|n|, q requires 0 <= q < |n| => n[q].(win := MatchAt(rs, i + 1, if same then q else q / 2)))]
  }

  /** The loop of lines 292-297 from round i to the second-to-last. */
  function RouteLosers(rs: Rounds, i: nat): (r: Rounds)
    requires i >= 1
    ensures |r| == |rs| && forall j :: 0 <= j < |rs| ==> |r[j]| == |rs[j]|
    decreases |rs| - i
  {
    if i >= |rs| then rs else RouteLosers(RouteRound(rs, i), i + 1)
  }

  /** Lines 299-300: the first match of the last round sends its winner to
      the first match of round diff - 1, the first grand final. */
  function Connect(rs: Rounds, diff: nat): (r: Result<Rounds>)
    ensures r.Ok? ==> |r.value| == |rs| && forall j :: 0 <= j < |rs| ==> |r.value[j]| == |rs[j]|
  {
    if rs == [] then Err(TypeError(299))
    else if rs[|rs| - 1] == [] || !(1 <= diff - 1 <= |rs|) then Err(TypeError(300))
    else
      var last := |rs| - 1;
      Ok(rs[last := rs[last][0 := rs[last][0].(win := MatchAt(rs, diff - 1, 0))]])
  }

  // ---------------------------------------------------------------------------
  // The whole construction

  /** Lines 130-158: the preliminary round filled from round 2 when rem != 0. */
  function Prelims(n: nat): Result<Rounds>
    requires n >= 4
  {
    var rs := Seeded(n);
    SeededShape(n);
    var t := Pow2(Power(n));
    if Rem(n) == 0 then Ok(rs) else Visits(rs, 0, 0, t - Rem(n), t, Order(n))
  }

  /** Lines 160-171 and 172-191: the redirect lists, the grand finals and the
      fresh loser's-bracket rounds. */
  function Rounded(n: nat): Result<(Rounds, seq<int>, seq<int>)>
    requires n >= 4
  {
    match Prelims(n)
    case Err(e) => Err(e)
    case Ok(rs) =>
      if |rs| < 2 then Err(TypeError(160))
      else
        var less, great := Less(rs[1]), Great(rs[1]);
        match GrandFinals(rs)
        case Err(e) => Err(e)
        case Ok(rs1) => Ok((AppendRounds(rs1, LoserSizes(Power(n), Rem(n))), less, great))
  }

  /** Lines 192-279: the drops from the winner's into the loser's bracket,
      with the two redirect lists. */
  function Dropped(n: nat): Result<(Rounds, seq<int>, seq<int>)>
    requires n >= 4
  {
    var k, rem := Power(n), Rem(n);
    match Rounded(n)
    case Err(e) => Err(e)
    case Ok((rs, less, great)) =>
      var diff := Top(n) + 2;
      match FirstDrops(rs, diff, rem, Pow2(k - 1), less, great)
      case Err(e) => Err(e)
      case Ok(st) =>
        match DropRest(st.rs, st.winnerRound, diff, st.loserRound, 0, st.fillCount)
        case Err(e) => Err(e)
        case Ok(rs1) => Ok((rs1, less, great))
  }

  /** Lines 280-300: the winner paths of the loser's bracket. With
      preliminary matches, round diff + 1 routes by the redirect list of its
      case (a missing round raises at line 283, 284 or 288); the rounds after
      it are compacted; the last match goes to the first grand final. */
  function LoserWins(rs1: Rounds, diff: nat, rem: nat, h: nat, less: seq<int>, great: seq<int>): Result<Rounds>
  {
    var rs2 :=
      if rem == 0 then Ok(rs1)
      else if !(1 <= diff + 1 <= |rs1|) then Err(TypeError(if rem <= h then 283 else 288))
      else if |rs1[diff]| > 0 && diff + 2 > |rs1| then Err(TypeError(if rem <= h then 284 else 288))
      else Ok(SelectWins(rs1, diff + 1, if rem <= h then less else great));
    match rs2
    case Err(e) => Err(e)
    case Ok(rs3) =>
      var start := diff + 1 + (if rem != 0 then 1 else 0);
      Connect(RouteLosers(rs3, start), diff)
  }

  /** `doubleElim(players)` for n >= 4 players. */
  function DoubleElim(n: nat): Result<Rounds>
    requires n >= 4
  {
    match Dropped(n)
    case Err(e) => Err(e)
    case Ok((rs1, less, great)) => LoserWins(rs1, Top(n) + 2, Rem(n), Pow2(Power(n) - 1), less, great)
  }
}
