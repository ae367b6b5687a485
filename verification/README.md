# Tournament pairing engine, modelled in Dafny

This project models the pairing engine of a tournament organizer, `lib/Algorithms.js`. The engine has four parts:

- **Seed placement.** `bracket` gives the seed order of an elimination bracket. `loserFill` gives the order in which a winner's-bracket round drops into the loser's bracket.
- **Single elimination.** `elim` builds the rounds, matches, seeds and winner paths, with optional preliminary matches and an optional third-place match.
- **Double elimination.** `doubleElim` builds the winner's bracket, the two grand finals and the loser's bracket, and wires every winner path and loser path between them.
- **Swiss pairing.** One attempt of `swiss` walks the score groups from `maxPoints` down to 0. It pairs players who have not met and carries unpaired players down in `hold`. The retry loop around the attempts is modelled too.

How the source's objects become Dafny values:

- A bracket is a `seq<seq<Match>>`. Round r, match m sits at index `[r - 1][m - 1]`.
- A match holds two optional player slots, an `active` flag, and an optional winner path and loser path. A path is the `MatchId` (round, number) it points to.
- A player in an elimination bracket is its 0-based index in the seeded player list.
- Where the source dereferences an `undefined` result of `find`, or otherwise raises a TypeError, the model returns `Err` with the source line. Every theorem proves that this never happens for n >= 4.
- Where the source only stores an `undefined` value as a path, from a `find` that matched nothing or an index past the end of a round (lines 284, 288, 296 and 300), the model stores the path as `None`.
- `Math.log(n) / Math.log(2)` is modelled as the exact integer k = floor(log2 n) (`Skeleton.Power`). The preliminary-match count `rem` is n - 2^k (`Skeleton.Rem`).

Swiss pairing works on `Player(id, points, opponents)` values.

- The shuffle of a score group (line 329) is an input: a `deck` of all players in shuffled order. Group p is that deck filtered to the players with p match points.
- The hold that an attempt starts from is a parameter, because the source declares `hold` once per `swiss` call and never resets it.
- An attempt ends in one of four ways: `false`, `true`, `undefined` (the do-while runs below p = 0 without returning), or the TypeError that line 337 raises when it reads past the end of an emptied group.

Two behaviours of the code to note:

- The last loser round sends its winner back to the first grand final (line 300), an earlier round. So paths do not always point to a later round. `DoubleTheorems.DoubleForward` names that one exception, and `DoubleTheorems.DoubleAcyclic` shows the graph is still acyclic.
- The brackets need at least four players. `bracket` always returns at least four seeds, so for two or three players the code reads past the end of the player list. Every elimination lemma therefore requires n >= 4.

Modules:

- `Base`: `Result`/`Option`, powers of two, sums, permutations.
- `Arena`: matches, lookup and update, walks along paths.
- `Seeding`: `bracket` and `loserFill`.
- `Skeleton`: the round-building do-while and seeding.
- `SingleElim`: `elim`.
- The double-elimination modules:
  - `DoubleElim`: the construction, stage by stage;
  - `DoublePrelim`, `LoserSizing`, `DoubleStages`, `DoubleDrops`, `DoubleFirst`, `DoubleWins` and `DoubleBuilt`: its proofs;
  - `DoubleTheorems`: the statements about `doubleElim(n)`.
- `Swiss` and `SwissFacts`: one attempt and its properties.
- `SwissRuns`: traced attempts.
- `SwissRetry`: the retry loop.

## Model

| member | source | states |
|---|---|---|
| Seeding.LoserFill | lib/Algorithms.js:30-45 | for every count, the fill order is a permutation of the match numbers 1..num |
| Seeding.FillPattern | lib/Algorithms.js:31-44 | each of the four orders, element by element: identity, reversal, each half reversed, and the halves swapped, with a first half of floor(num/2) matches as `slice` truncates; each order visits 1..num once |
| Seeding.LoserFillPermutation | lib/Algorithms.js:36-43 | any sequence that follows one of the four element-wise patterns is a permutation of 1..num |
| Seeding.LoserFillSlices | lib/Algorithms.js:32-44 | the element-wise fill order equals the slice-and-reverse construction of the `switch` for case count % 4 |
| Seeding.LoserFillPeriodic | lib/Algorithms.js:32 | the fill order depends on the fill count only modulo 4, so it cycles with period four |
| Seeding.LoserFillFour | lib/Algorithms.js:30-45 | the four orders for four matches: 1234, 4321, 2143 and 3412 |
| Seeding.BracketShape | lib/Algorithms.js:17-23 | for power >= 2 the order has 2^power seeds, and each match slot pair (2i, 2i+1) holds two seeds summing to 2^power + 1, the better seed first |
| Seeding.BracketEvenPositions | lib/Algorithms.js:19-21 | one more power keeps the previous order at the even positions and places each seed's complement 2^(k+1) + 1 - s right after it |
| Seeding.BracketIsPermutation | lib/Algorithms.js:17-23 | the seed order for power >= 2 is a permutation of 1..2^power |
| Seeding.TopSeedsApart | lib/Algorithms.js:17-23 | seed 1 opens the order and seed 2 opens its second half, so the two best seeds can meet only in the final |
| Seeding.BracketFour | lib/Algorithms.js:17-23 | the orders for 4 and 8 players are 1,4,2,3 and 1,8,4,5,2,7,3,6 |
| Skeleton.BuildShape | lib/Algorithms.js:57-69 | the round-building loop makes an optional preliminary round of rem fresh matches, then k full rounds of 2^(k-1), ..., 1 matches. Each full round but the last sends the winner of match m to match ceil(m/2) of the next round |
| Skeleton.SeededShape | lib/Algorithms.js:71-75 | after seeding, match i of the first full round holds the players at seed positions 2i and 2i+1 of `bracket(k)`, is active, and the preliminary round is still empty |
| SingleElim.ElimPlainShape | lib/Algorithms.js:52-90 | without a third-place match, `elim` succeeds and yields the bracket written out match by match. Preliminary match i pairs seed indices 2^k + i and 2^k - i - 1. The first full round holds the seed order with the seeds above 2^k - rem removed. Later rounds are empty and chained |
| SingleElim.ElimWithThirdPlace | lib/Algorithms.js:92-97 | with the option set, the result is the plain bracket with the third-place match added |
| SingleElim.ThirdPlaceEffect | lib/Algorithms.js:93-96 | the final round gains one match numbered one past its last, both semifinals send their loser to it, and every earlier round is unchanged |
| SingleElim.ElimPlacesEveryone | lib/Algorithms.js:71-89 | each of the n players sits in exactly one slot of the bracket, and no other player index appears |
| SingleElim.ElimRoundSizes | lib/Algorithms.js:57-69 | the bracket has k rounds, plus one with preliminary matches. Their sizes are rem, then 2^(k-1), ..., 1, which is n - 1 matches in all, one more with the third-place match |
| SingleElim.ElimWinnerPaths | lib/Algorithms.js:65-69 | from the first full round on, the winner of match m goes to match ceil(m/2) of the next round, which exists; the final's winner goes nowhere; no loser path is set |
| SingleElim.ElimPrelimMatches | lib/Algorithms.js:77-89 | preliminary match i is active and pairs seed index 2^k + i with 2^k - i - 1. Its winner goes to the round-2 match that the seed order gave seed 2^k - i; that match has lost that seed and is inactive |
| SingleElim.ElimFirstRoundPairs | lib/Algorithms.js:71-89 | a match of the first full round is active exactly when both slots are filled, and then it pairs the better seed first with the seed completing the sum 2^k + 1 |
| SingleElim.ElimAcyclic | lib/Algorithms.js:52-98 | every winner and loser path leads to an existing match of a later round, so the routing graph is acyclic |
| LoserSizing.LoserSizesSum | lib/Algorithms.js:172-191 | the loser's bracket has 2(k-1) rounds plus 0, 1 or 2 extra rounds for preliminary matches, and holds 2^k + rem - 2 matches |
| DoublePrelim.DoublePrelimMatches | lib/Algorithms.js:130-159 | every preliminary match is active and pairs a seed b above 2^k - rem with seed 2^(k+1) + 1 - b. Its winner goes to the round-2 match whose slot the seed order gave b; it has no loser path yet |
| DoubleTheorems.DoubleElimShape | lib/Algorithms.js:105-191 | `doubleElim` succeeds for n >= 4, with W winner rounds sized rem, 2^(k-1), ..., 1, two single-match grand finals, and loser rounds holding n - 2 matches |
| DoubleTheorems.DoubleLoserSizes | lib/Algorithms.js:172-191 | loser round q is sized rem (rem <= 2^(k-1)), or rem - 2^(k-1) then 2^(k-1) (rem larger), and then 2^(k-2), 2^(k-2), ..., 1, 1 |
| DoubleTheorems.DoubleGrandFinals | lib/Algorithms.js:162-300 | the winner's final sends its winner to GF1 and its loser to the last loser round; GF1 sends winner and loser to GF2, which sends nobody on; the loser's-bracket final sends its winner to GF1 |
| DoubleTheorems.DoubleLoserRoutes | lib/Algorithms.js:291-297 | from the first full loser round on, a loser round is as large as the next or twice as large, and match q sends its winner to match q, or to match ceil(q/2), of the next round |
| DoubleTheorems.DoubleFirstLoserRound | lib/Algorithms.js:280-290 | with preliminary matches, match i of the first loser round sends its winner to match sel[i] of the next round, where sel is `less` (rem <= 2^(k-1)) or `great` of winner round 2 |
| DoubleTheorems.DoubleWinnerDrops | lib/Algorithms.js:267-279 | each remaining winner round x drops into a loser round of equal size, loser match p taking the loser of winner match loserFill(size, x - 1)[p], so the fill count rises by one per round |
| DoubleTheorems.DoubleFirstDrops | lib/Algorithms.js:196-220 | without preliminary matches, the losers of round 1 meet in pairs taken in loserFill order; with at most 2^(k-1) preliminary matches, each preliminary loser fills one match of the first loser round in loserFill order |
| DoubleTheorems.DoubleLossTargets | lib/Algorithms.js:162-279 | a winner's-bracket match sends its loser nowhere or into an existing loser's-bracket match, GF1 sends its loser to GF2, and no other match has a loser path |
| DoubleTheorems.DoubleForward | lib/Algorithms.js:105-302 | every path leads to an existing match of a later round, except the one from the loser's-bracket final back to GF1 |
| DoubleTheorems.DoubleAcyclic | lib/Algorithms.js:105-302 | ranking the grand finals above every other round makes every path climb, so the graph is acyclic despite the back edge |
| DoubleTheorems.DoubleNoCycle | lib/Algorithms.js:292-300 | no walk along winner and loser paths returns to the match it started from |
| SwissFacts.PairAttemptOk | lib/Algorithms.js:314-382 | the attempt's matches are numbered 1, 2, ... and belong to the round; none pairs a player with a listed past opponent; a match is active exactly when it is not a bye; a bye can only be the last match and only when the attempt returns `true` at p = 0; `false` comes only at p = 0; nobody is seated who was not held or in the deck; an attempt that runs out has seated or held every such player |
| SwissFacts.OneBye | lib/Algorithms.js:319-323 | an attempt hands out at most one bye |
| SwissFacts.BottomHeld | lib/Algorithms.js:319-323 | with group 0 empty, two or more held players make the attempt return `false`; a single held player gets a bye and the attempt returns `true` |
| SwissFacts.HoldLoopFails | lib/Algorithms.js:331-349 | the held-player loop returns `false` only at p = 0 with two or more players still held, and never ends in the `undefined` outcome of the do-while running below p = 0 (it can still raise the TypeError of line 337) |
| SwissFacts.PairLoopOk | lib/Algorithms.js:350-367 | the pairing loop pushes only fair matches, leaves at most one player of the group unpaired, and stops with `false` only at p = 0 |
| SwissFacts.LastKeeps | lib/Algorithms.js:368-379 | given at most one player left, which `SwissFacts.PairLoopOk` proves of the loop before it, the `return false` of line 379 is never reached; a lone player is held or given the bye, and nobody is lost |
| SwissFacts.GroupIs | lib/Algorithms.js:318 | group p holds each player of the deck with p match points as often as the deck does, and nobody else |
| SwissFacts.BelowIs | lib/Algorithms.js:317-381 | the groups visited from p down to 0 together hold exactly the deck's players with 0..p match points |
| SwissRuns.HalfHeld | lib/Algorithms.js:345-364 | a traced attempt: the loop of line 364 holds only half of a stuck group, and `true` is returned with one player still held and another never paired |
| SwissRuns.ThrowsAt337 | lib/Algorithms.js:331-337 | a traced attempt in which line 337 reads past the end of an emptied group and raises |
| SwissRetry.StaleSelfMatch | lib/Algorithms.js:311-385 | as written, the retry hands the players held by a failed attempt to the next one, which pairs each of them with themselves and returns those matches |
| SwissRetry.FreshSwissOk | lib/Algorithms.js:383-385 | with `hold` emptied before each attempt, the retry stops exactly at the first attempt that does not return `false`. It gives no result exactly when every shuffle fails. Its matches are sound and seat only players from the list |
| SwissRetry.FreshOnce | lib/Algorithms.js:383-385 | with distinct players, the corrected retry seats each player at most once, so nobody is paired with themselves |

## Left out

- Floating point: `Math.log(n) / Math.log(2)` and `Math.round(2 ** mod)` become the exact integer floor(log2 n) and n - 2^k. Rounding error in the source's logarithm, for example at large powers of two, is not modelled.
- Fewer than four players: `bracket` always yields at least four seeds, and the source then reads past the player list. The elimination lemmas require n >= 4.
- `robin` (lines 393-395) has an empty body, so there is nothing to model.
- The shuffle (`Utilities.shuffle`, line 329) is not modelled. The model takes the shuffled order as a `deck` input.
- `Match` and `Pairings` constructors and object identity are not modelled. The model uses plain values with the same fields.
- Player objects, and the `Tournament` class that calls the engine, are not part of this model.
- The `active` flags set by the double-elimination construction are modelled. The theorems state them only for the preliminary round.
- DoubleTheorems.DoubleLossTargets: states that a winner's-bracket loser path is absent or leads to an existing loser's-bracket match. It does not state that every winner's-bracket match receives one.
- DoubleTheorems.DoubleFirstDrops: states the drops of winner round 1 only without preliminary matches or with at most 2^(k-1) of them. The drops of winner round 2 (lines 221-243) and of the `great` case (lines 245-266) are covered only by DoubleTheorems.DoubleLossTargets.
- SwissFacts.PairAttemptOk: checks no-rematch from the first seat's side only, as the source does (only the first player's `opponents` list is consulted at lines 337 and 353).
- SwissFacts.PairAttemptOk: does not state that an attempt returning `true` has seated every player. The traced attempt SwissRuns.HalfHeld shows that the source does not promise this.
- SwissRetry.FreshSwissOk: the retry's unbounded do-while is modelled over a finite sequence of shuffles, and returns no result when they run out.

## Findings

| source | as written | input that shows it | evidently intended | confidence | as-written member | corrected member |
|---|---|---|---|---|---|---|
| lib/Algorithms.js:311-385 | `hold` is declared once per `swiss` call and never emptied, so a failed attempt passes its held players to the next attempt, where they also appear in their own score group | round 4 with four players on one point, where player 1 has played 2, 3 and 4, with the same shuffle drawn twice. The first attempt holds players 1 and 2 and fails. The second pairs 1 with 1 and 2 with 2, and the retry returns those matches | every attempt starts with nobody held | not executed | SwissRetry.StaleSelfMatch | SwissRetry.FreshSwissOk, SwissRetry.FreshOnce |
