# IPL scoreboard: a verified model of the scoring reducer, the analytics and the match setup

This project models, in Dafny, the logic of a realtime cricket scoreboard
written in TypeScript/React:

- **The scoring reducer** `cricketReducer` (src/context/CricketContext.tsx).
  It records one delivery or command at a time. The arms `ADD_RUNS`, `ADD_EXTRA`,
  `WICKET` and `SWITCH_STRIKE` take the batting team out of the match and update it
  in place. They credit the striker, count legal balls, complete overs, rotate or
  switch the strike, dismiss the striker and bring in the next batter, and set or
  clear the free-hit flag. `UPDATE_BOWLER` and `SET_FREE_HIT` rebuild the state;
  every other action leaves it alone.
  - `cricket_model.dfy` (module `CricketModel`) holds the value types and a pure
    function `Reduce` that says what each arm does, with lemmas about its meaning.
  - `cricket_reducer.dfy` (module `CricketReducer`) is the reducer as the source
    runs it: classes `Team`, `Match` and `CricketState` whose methods mutate fields
    with loops for the `find` scans and `forEach` strike toggles. Each method is
    proved to leave the state equal to `Reduce` of the old state.
- **The analytics page** (src/pages/Analytics.tsx), in `analytics.dfy` (module
  `Analytics`): per-batter runs per over and shot buckets, per-bowler balls, runs,
  wickets and overs, and the cumulative-runs series, as functions over the ball
  ledger.
- **The setup screen** (src/components/MatchSetup.tsx and the page
  src/pages/MatchSetup.tsx, whose two handlers are the same code), in
  `match_setup.dfy` (module `MatchSetup`). It covers editing one field of a form
  row, and building the two rosters on submit: blank names dropped, names trimmed,
  positional ids, zero tallies, team 1's openers flagged, and the toss keys.
  `match_setup_page.dfy` (module `MatchSetupPage`) gives the page its own two
  handlers, which call that code and add the route back to the scoreboard.

The source's quirks are kept as written, because the model follows the code:

- `ADD_RUNS` flips the strike on an odd score (JavaScript `%`, so a negative
  odd score does not flip) and again when the over completes. Byes, leg-byes and
  wickets complete an over without any flip.
- `extras[action.extraType] += 1` uses the singular action key (`'wide'`,
  `'noBall'`, ...), not one of the declared counters (`wides`, `noBalls`, ...).
  The four counters therefore never change. The stray key holds NaN, and the
  model keeps only the set of such keys.
- Runs and balls are counted even when no striker is found. A wicket with no
  striker still counts the ball and clears the free hit.
- `SETUP_MATCH` and `UPDATE_TEAMS` are dispatched by the setup screen but are not
  reducer actions. They reach the default arm, which returns the state unchanged.
- Only team 1's openers are flagged, whichever team won the toss.

Where standard cricket scoring would differ, the code is followed:
- the extras counters above;
- the ball ledger, which no arm ever appends;
- innings changes, which the reducer does not have;
- a "last player standing" limit on wickets, which the code does not enforce.

## Model

| member | source | states |
|---|---|---|
| CricketModel.Other | src/context/CricketContext.tsx:38-39 | the bowling key is always the key that is not batting |
| CricketModel.JsRem | src/context/CricketContext.tsx:135 | JavaScript `%` truncates: the remainder lies strictly between -b and b, agrees with the mathematical remainder for a non-negative dividend and is never positive for a negative one |
| CricketModel.JsOddOnlyPositive | src/context/CricketContext.tsx:135 | `runs % 2 === 1` holds exactly for positive odd scores |
| CricketModel.LegalBall | src/context/CricketContext.tsx:132-144 | a legal ball adds exactly one to overs*6+balls, keeps balls in 0..5, and completes the over iff it is the sixth ball, resetting balls to 0 |
| CricketModel.FirstFrom | src/context/CricketContext.tsx:122 | the scan from position i returns the first selected player at or after i, or none when no later player is selected |
| CricketModel.Find | src/context/CricketContext.tsx:122 | `players.find` returns the first player the predicate selects (striker: batting and on strike), or none when nobody is selected |
| CricketModel.FirstFromAgrees | src/context/CricketContext.tsx:181-191 | two rosters on which the predicate selects the same positions give the same `find` result |
| CricketModel.OutCount | src/context/CricketContext.tsx:184-188 | the number of players flagged out is at most the roster size |
| CricketModel.OutCountUpdate | src/context/CricketContext.tsx:184-188 | replacing one player changes the out count by exactly that player's change of `isOut` |
| CricketModel.OutCountSame | src/context/CricketContext.tsx:136-138 | rosters with the same `isOut` flags have the same out count |
| CricketModel.OutCountNone | src/context/CricketContext.tsx:70-115 | a roster with nobody out has an out count of 0 |
| CricketModel.FlipTwice | src/context/CricketContext.tsx:136-148 | toggling the strike of every batting player twice restores the roster, so an odd score in the sixth ball leaves the strike where it was |
| CricketModel.FlipSwapsPair | src/context/CricketContext.tsx:211-213 | the strike toggle changes only `isOnStrike` of batting players and swaps striker and non-striker of a batting pair |
| CricketModel.RunsCreditStriker | src/context/CricketContext.tsx:122-129 | ADD_RUNS credits the first striker with r runs and 1 ball, fours iff r = 4 and sixes iff r = 6, leaves everything else about the striker but the strike flag (id, name, type, role, dismissal) as it was, and changes no other player's stats |
| CricketModel.RunsRotation | src/context/CricketContext.tsx:134-149 | with a batting pair, ADD_RUNS swaps the strike iff (r is odd) XOR (the ball completes the over), keeping exactly one batter on strike |
| CricketModel.WicketDismissal | src/context/CricketContext.tsx:181-196 | WICKET marks the first striker out with `howOut` set and not batting; the first player neither out nor batting (a different player) comes in on strike; nobody else changes; with no striker the roster is unchanged |
| CricketModel.WicketCounts | src/context/CricketContext.tsx:183-196 | WICKET keeps "no batter is out" and raises the out count by one exactly when a striker was found |
| CricketModel.WicketStrike | src/context/CricketContext.tsx:190-196 | after a wicket the non-striker keeps their flags; the new batter forms a pair with them on strike, or the non-striker bats alone off strike |
| CricketModel.WithTeam | src/context/CricketContext.tsx:121 | writing the team under one key leaves the other team and every other match field as it was |
| CricketModel.BumpExtra | src/context/CricketContext.tsx:159 | `extras[extraType] += 1` leaves the four declared counters unchanged and adds the singular key to the keys holding NaN |
| CricketModel.Flip | src/context/CricketContext.tsx:136-138 | the `forEach` body: a batting player's strike flag is toggled, anyone else is returned as is (meaning stated by FlipTwice and FlipSwapsPair) |
| CricketModel.FlippedStrike | src/context/CricketContext.tsx:211-213 | the roster with every player passed through `Flip`, same length and order (meaning stated by FlipTwice, FlipSwapsPair and ReduceStrike) |
| CricketModel.Credit | src/context/CricketContext.tsx:125-128 | the striker with `runs += r`, `balls += 1`, and `fours`/`sixes` bumped for 4 and 6 (meaning stated by RunsCreditStriker) |
| CricketModel.CreditStriker | src/context/CricketContext.tsx:122-129 | the roster with the first striker `find` returns credited, or unchanged when there is none (meaning stated by RunsCreditStriker) |
| CricketModel.RunsOutcome | src/context/CricketContext.tsx:122-149 | the roster after ADD_RUNS: striker credited, strike toggled on an odd score and again when the over completes (meaning stated by RunsCreditStriker and RunsRotation) |
| CricketModel.WicketOutcome | src/context/CricketContext.tsx:181-196 | the roster after WICKET: first striker out, next player neither out nor batting brought in on strike (meaning stated by WicketDismissal, WicketCounts and WicketStrike) |
| CricketModel.AfterRuns | src/context/CricketContext.tsx:119-153 | the batting team after ADD_RUNS: roster from RunsOutcome, total plus the runs, one legal ball (meaning stated by ReduceRunsTotals, ReduceCountsBalls and ReduceStrike) |
| CricketModel.AfterExtra | src/context/CricketContext.tsx:155-176 | the batting team after ADD_EXTRA: NaN key added, total plus the runs, a legal ball for bye and leg-bye only (meaning stated by ReduceExtraTotals and ReduceCountsBalls) |
| CricketModel.AfterWicket | src/context/CricketContext.tsx:178-206 | the batting team after WICKET: roster from WicketOutcome, wickets plus one when a striker was found, one legal ball (meaning stated by ReduceTallies, WicketDismissal, WicketCounts and ReduceCountsBalls) |
| CricketModel.AfterSwitch | src/context/CricketContext.tsx:208-215 | the batting team after SWITCH_STRIKE: roster from FlippedStrike, nothing else changed (meaning stated by ReduceStrike, ReduceTallies and ReduceFrame) |
| CricketModel.Reduce | src/context/CricketContext.tsx:117-237 | the reducer as a function of the old state and the action, one arm per action type (meaning stated by ReduceFrame, ReduceFreeHit, ReduceCountsBalls, ReduceRunsTotals, ReduceTallies, ReduceExtraTotals, ReduceKeepsConsistency and ReduceStrike) |
| CricketModel.InitialState | src/context/CricketContext.tsx:70-115 | the demo state the provider starts from (meaning stated by InitialStateConsistent) |
| CricketModel.ReduceFrame | src/context/CricketContext.tsx:117-237 | no arm touches the fielding team, the ledger, the venue, the format, the toss or the keys; only UPDATE_BOWLER changes the bowler and changes nothing else; NEW_OVER, UPDATE_PLAYER, SETUP_MATCH and UPDATE_TEAMS return the state unchanged |
| CricketModel.ReduceFreeHit | src/context/CricketContext.tsx:151-232 | a no-ball sets the free hit; runs and wickets clear it; wide, bye, leg-bye, strike switch and bowler change keep it; SET_FREE_HIT sets exactly the given value and nothing else |
| CricketModel.ReduceCountsBalls | src/context/CricketContext.tsx:132-202 | runs, byes, leg-byes and wickets add exactly one legal ball (overs*6+balls), every other action adds none, and balls stay in 0..5 |
| CricketModel.ReduceRunsTotals | src/context/CricketContext.tsx:131 | ADD_RUNS adds exactly its runs to the batting team's total whether or not a striker is found, and leaves the wickets and the extras unchanged |
| CricketModel.ReduceExtraTotals | src/context/CricketContext.tsx:157-173 | ADD_EXTRA adds its runs to the total and leaves the players, the wickets and the four declared counters unchanged |
| CricketModel.ReduceTallies | src/context/CricketContext.tsx:119-215 | the batting team's total grows by the runs of ADD_RUNS and ADD_EXTRA and by nothing under any other action; `wickets` grows by one exactly when WICKET finds a striker and is unchanged otherwise; only ADD_EXTRA touches the extras; a WICKET with no striker leaves the roster unchanged; actions that count no ball leave overs and balls unchanged; id and name never change |
| CricketModel.ReduceKeepsConsistency | src/context/CricketContext.tsx:119-215 | every action keeps the batting team consistent: wickets equals the number of players out, no batter is out, balls in 0..5 |
| CricketModel.ReduceStrike | src/context/CricketContext.tsx:134-214 | from a batting pair, runs swap the striker iff odd XOR over completed, SWITCH_STRIKE always swaps, and an extra never changes the strike |
| CricketModel.InitialStateConsistent | src/context/CricketContext.tsx:70-115 | the demo state is consistent for both teams, team 1 bats with player 0 on strike and player 1 off strike, the keys differ, no free hit, empty ledger |
| CricketReducer.Team.FindPlayer | src/context/CricketContext.tsx:122 | the loop returns the index of the first selected player, or none when no player is selected |
| CricketReducer.Team.AddRuns | src/context/CricketContext.tsx:121-149 | the batting team after crediting the striker, the total and the ball, the odd-score toggle and the over completion is the team `Reduce` describes for ADD_RUNS |
| CricketReducer.Team.AddExtra | src/context/CricketContext.tsx:157-173 | the batting team after an extra is the team `Reduce` describes for ADD_EXTRA |
| CricketReducer.Team.Dismiss | src/context/CricketContext.tsx:180-202 | the batting team after a wicket is the team `Reduce` describes for WICKET |
| CricketReducer.Team.FlipStrike | src/context/CricketContext.tsx:136-138 | the `forEach` loop toggles `isOnStrike` of exactly the batting players |
| CricketReducer.CricketState.RecordRuns | src/context/CricketContext.tsx:119-153 | ADD_RUNS in place: the new state is `Reduce` of the old one and the fielding team is untouched |
| CricketReducer.CricketState.RecordExtra | src/context/CricketContext.tsx:155-176 | ADD_EXTRA in place: the new state is `Reduce` of the old one and the fielding team is untouched |
| CricketReducer.CricketState.RecordWicket | src/context/CricketContext.tsx:178-206 | WICKET in place: the new state is `Reduce` of the old one and the fielding team is untouched |
| CricketReducer.CricketState.SwitchStrike | src/context/CricketContext.tsx:208-215 | SWITCH_STRIKE in place: only the batting team's roster changes, as `Reduce` says |
| CricketReducer.CricketState.UpdateBowler | src/context/CricketContext.tsx:217-225 | only `currentBowler` changes, to the given name |
| CricketReducer.CricketState.SetFreeHit | src/context/CricketContext.tsx:227-232 | only `isFreeHit` changes, to the given value |
| CricketReducer.CricketState.Dispatch | src/context/CricketContext.tsx:117-237 | every action leaves the state equal to `Reduce` of the old state, and ignored actions change no object |
| Analytics.Filter | src/pages/Analytics.tsx:37-39 | `filter` keeps no more entries than the ledger has |
| Analytics.FilterMembers | src/pages/Analytics.tsx:37-39 | an entry is kept iff it is in the ledger and the predicate selects it |
| Analytics.FilterAppend | src/pages/Analytics.tsx:37 | `filter` keeps order and multiplicity: filtering a joined ledger is joining the filtered parts |
| Analytics.FilterTwice | src/pages/Analytics.tsx:37-39 | filtering a batter's balls by over is the same as filtering the ledger by both conditions |
| Analytics.SumRunsPrefixMonotone | src/pages/Analytics.tsx:92 | with non-negative runs, the sum of a longer prefix is at least the sum of a shorter one |
| Analytics.SumRuns | src/pages/Analytics.tsx:42 | `reduce((sum, ball) => sum + ball.runs, 0)` over a list of balls (meaning stated by SumRunsPrefixMonotone, RunsPerOverEntry, BowlerStatsTotals and RunRateSeries) |
| Analytics.RunsPerOver | src/pages/Analytics.tsx:38-44 | `Array.from` with one entry per over, each the sum of the batter's runs in that over (meaning stated by RunsPerOverEntry and RunsPerOverMeaning) |
| Analytics.Shots | src/pages/Analytics.tsx:46-53 | the six shot buckets counted over the batter's balls (meaning stated by ShotsBound and ShotsMeaning) |
| Analytics.StatFor | src/pages/Analytics.tsx:36-61 | one player's record: the player, runs per over and shot buckets over the balls they faced (meaning stated by PlayerStatsOrder, RunsPerOverMeaning and ShotsMeaning) |
| Analytics.PlayerStats | src/pages/Analytics.tsx:34-62 | `getPlayerStats`: StatFor mapped over team 1's then team 2's players (meaning stated by PlayerStatsOrder) |
| Analytics.BowlerStatFor | src/pages/Analytics.tsx:68-83 | one bowler's balls bowled, runs given, wickets and overs notation (meaning stated by BowlerStatsTotals) |
| Analytics.BowlerStats | src/pages/Analytics.tsx:64-84 | `getBowlerStats`: BowlerStatFor mapped over the bowlers and all-rounders of both teams (meaning stated by BowlerStatsOrder, BowlerStatsCover and BowlerStatsTotals) |
| Analytics.RunRatePrefix | src/pages/Analytics.tsx:91-101 | the `reduce` accumulator after its first n steps (meaning stated by RunRatePrefixAt) |
| Analytics.RunRateData | src/pages/Analytics.tsx:91-101 | `runRateData`: the accumulator after every ball of the ledger (meaning stated by RunRateSeries) |
| Analytics.PlayerStatsOrder | src/pages/Analytics.tsx:35-36 | one record per player of team 1 then team 2, in roster order, carrying the player's own fields |
| Analytics.RunsPerOverEntry | src/pages/Analytics.tsx:39-42 | entry i of `runsPerOver` is over i+1 with the sum of the batter's runs in that over |
| Analytics.RunsPerOverMeaning | src/pages/Analytics.tsx:38-44 | `runsPerOver` has `totalOvers` entries, none when `totalOvers` is zero or negative; every entry i is over i+1 with the sum of the batter's runs in that over |
| Analytics.ShotsBound | src/pages/Analytics.tsx:46-53 | the six buckets together count at most the balls given |
| Analytics.ShotsMeaning | src/pages/Analytics.tsx:46-53 | each bucket counts the batter's balls scoring exactly its value, and the buckets total at most the batter's balls |
| Analytics.Bowlers | src/pages/Analytics.tsx:65-67 | the bowler filter keeps no more players than it is given |
| Analytics.BowlersMembers | src/pages/Analytics.tsx:65-67 | a player is kept iff its type is `bowler` or `all-rounder` |
| Analytics.BowlersAppend | src/pages/Analytics.tsx:65-67 | filtering the joined rosters keeps team 1's bowlers first, each team in roster order |
| Analytics.OversNotation | src/pages/Analytics.tsx:72 | whole overs and remaining balls recombine to the balls bowled, with fewer than 6 remaining |
| Analytics.BowlerStatsCover | src/pages/Analytics.tsx:65-68 | the entries are exactly the players of both rosters whose type is `bowler` or `all-rounder` |
| Analytics.BowlerStatsOrder | src/pages/Analytics.tsx:65-68 | one entry per bowler, team 1's bowlers first in roster order, then team 2's in roster order |
| Analytics.BowlerStatsTotals | src/pages/Analytics.tsx:69-81 | balls bowled, runs given and wickets are counted over the bowler's ledger entries; wickets never exceed balls; the overs notation recombines to the balls bowled |
| Analytics.RunRatePrefixAt | src/pages/Analytics.tsx:91-101 | after n steps of the `reduce` the series has n points, point i being ball i+1 with the runs of the first i+1 balls |
| Analytics.RunRateSeries | src/pages/Analytics.tsx:91-101 | one point per ball, point i = (i+1, runs of balls 0..i), the last point is the ledger total, and the series never falls when no ball has negative runs |
| MatchSetup.WithField | src/components/MatchSetup.tsx:51 | `{ ...row, [field]: value }` sets the named field and keeps the other two |
| MatchSetup.HandlePlayerChange | src/components/MatchSetup.tsx:48-58 | the chosen team's rows come back the same length with only the given row's named field changed; the other team is untouched |
| MatchSetupPage.HandlePlayerChange | src/pages/MatchSetup.tsx:51-61 | the page's handler: the chosen team's rows come back the same length with only the given row's named field changed; the other team is untouched |
| MatchSetup.TrimStart | src/components/MatchSetup.tsx:65 | the name with its leading white space removed (meaning stated by TrimStartDrops) |
| MatchSetup.TrimEnd | src/components/MatchSetup.tsx:65 | the name with its trailing white space removed (meaning stated by TrimEndDrops) |
| MatchSetup.Trim | src/components/MatchSetup.tsx:62 | `String.prototype.trim`: both ends trimmed (meaning stated by TrimEmpty, TrimStartDrops and TrimEndDrops) |
| MatchSetup.TrimStartDrops | src/components/MatchSetup.tsx:65 | leading trimming drops a prefix made of white space only and stops at a non-space character |
| MatchSetup.TrimEndDrops | src/components/MatchSetup.tsx:65 | trailing trimming drops a suffix made of white space only and stops at a non-space character |
| MatchSetup.TrimEmpty | src/components/MatchSetup.tsx:62 | a name trims to empty iff it is all white space; a non-empty trimmed name neither starts nor ends with white space |
| MatchSetup.Kept | src/components/MatchSetup.tsx:61-62 | the filter keeps no more rows than it is given |
| MatchSetup.KeptMembers | src/components/MatchSetup.tsx:62 | a row is kept iff its trimmed name is not empty |
| MatchSetup.KeptAppend | src/components/MatchSetup.tsx:62 | the filter keeps the input order |
| MatchSetup.KeptNamed | src/pages/MatchSetup.tsx:65 | every kept row has a non-blank name |
| MatchSetup.NatToString | src/components/MatchSetup.tsx:64 | the index in the id template is written as a non-empty string (its characters are digits: NatToStringDigits) |
| MatchSetup.NatToStringDigits | src/components/MatchSetup.tsx:64 | the index is written with decimal digits only |
| MatchSetup.NatToStringInjective | src/components/MatchSetup.tsx:64 | different positions are written differently |
| MatchSetup.RosterId | src/components/MatchSetup.tsx:64 | the id template `team1_${index}` / `team2_${index}` (meaning stated by RosterIdsDistinct and NatToStringInjective) |
| MatchSetup.NewPlayer | src/components/MatchSetup.tsx:63-75 | the row mapped to a player: positional id, trimmed name, its type and role, zero tallies, not out, not batting (meaning stated by BuiltNamesTrimmed, SubmittedRosters and HandleSubmit) |
| MatchSetup.BuildRoster | src/components/MatchSetup.tsx:61-91 | `filter` on trimmed names then `map` to NewPlayer by position (meaning stated by BuiltNamesTrimmed, RosterIdsUnique and SubmittedRosters) |
| MatchSetup.RosterIdsDistinct | src/components/MatchSetup.tsx:63-80 | `team1_i` never equals `team2_j`, and ids of one team differ by position |
| MatchSetup.RosterIdsUnique | src/pages/MatchSetup.tsx:66-83 | ids given by position in both rosters are pairwise distinct across the joined rosters |
| MatchSetup.BuiltNamesTrimmed | src/pages/MatchSetup.tsx:64-70 | every built player's name is non-empty and neither starts nor ends with a white-space character |
| MatchSetup.OpenersFlagged | src/components/MatchSetup.tsx:94-99 | flagging rows 0 and 1 makes them the batting pair with only row 0 on strike and changes nothing else |
| MatchSetup.SubmittedRosters | src/pages/MatchSetup.tsx:63-94 | in what submit dispatches, all player ids are distinct, every name is non-empty and neither starts nor ends with white space, and each roster has one player per kept row |
| MatchSetup.HandleSubmit | src/components/MatchSetup.tsx:60-123 | SETUP_MATCH then UPDATE_TEAMS; team 1 bats iff it won the toss by name and bowling is the other key; rosters built from the kept rows; team 1's rows 0 and 1 open with row 0 on strike when there are two, nobody bats otherwise; team 2 never has a batter |
| MatchSetupPage.HandleSubmit | src/pages/MatchSetup.tsx:63-128 | the page's submit dispatches the same SETUP_MATCH and UPDATE_TEAMS (toss keys, rosters, openers) as the screen, then routes to `/` |

## Left out

- React plumbing is not modelled: the provider and `useCricket`, all JSX, `navigate` (the page's `navigate('/')` after submit is returned as the route path only), and the form's `parseInt(...) || 20` input parsing.
- Floating-point outputs are not modelled: the strike rate, economy, fractional overs, run rate and required rate, and all `toFixed` formatting. Only the integer quantities they are computed from are modelled.
- src/components/AdminDashboard.tsx, src/components/PublicScoreboard.tsx and src/pages/Index.tsx are not part of this model. They only render and forward button presses to `dispatch`.
- The old-state aliasing of the shallow `{ ...state }` copy is not captured. The reducer's methods update the current objects in place, and nothing is proved about the old state.
- JavaScript numbers are unbounded integers here: no fractional runs, and no overflow or NaN arithmetic except for the NaN extras key.
- The `updates` payload of UPDATE_PLAYER is not kept, because that arm falls to the default and never reads it.
- The analytics page first tests `!state.isSetupComplete`. The state never has that property, so the test is always true and the page as written always shows its "no match data" screen and never computes the statistics. The statistics are modelled as the code after that guard computes them from the state.
- MatchSetup.IsSpace: `trim` is modelled over the common white-space characters (ASCII white space, no-break space U+00A0, line and paragraph separators U+2028/U+2029, byte-order mark U+FEFF), not the other Unicode space separators JavaScript's `trim` also removes (U+1680, U+2000 to U+200A, U+202F, U+205F, U+3000). This affects TrimStart, TrimEnd, Trim, Named and Kept, and the lemmas about them: a name made only of those characters would be kept here but dropped by the source.
- MatchSetup.HandlePlayerChange: requires the row index to be within the team's rows. The form only passes the index of a row it shows; an index past the end would make JavaScript extend the array with holes, which is not modelled.
- MatchSetup.HandlePlayerChange: the field is one of `name`, `type`, `role`, the only names the form passes; any other name would add a new property to the row.
