/*
 * The value types of the scoreboard (src/context/CricketContext.tsx:4-68) and the
 * pure specification of what each reducer arm does to the batting team's roster.
 * The reducer itself, which updates the match in place, is in cricket_reducer.dfy;
 * its methods are proved against the functions below, and the lemmas here state
 * what those functions mean for the players.
 */
module CricketModel {

  datatype Option<+T> = None | Some(value: T)

  /** The two property names a team can be reached by: `'team1' | 'team2'`. */
  datatype TeamKey = Team1 | Team2

  /** The key of the other team. */
  function Other(k: TeamKey): (r: TeamKey)
    ensures r != k
  {
    if k == Team1 then Team2 else Team1
  }

  /** The singular keys an ADD_EXTRA action carries. */
  datatype ExtraType = Wide | NoBall | Bye | LegBye

  /**
   * A player record. `kind` and `role` are the `type` and `role` properties the
   * setup screen adds (absent in the initial demo state); an absent optional
   * `isBatting` / `isOnStrike` is falsy in every test the source makes, so it is `false` here.
   */
  datatype Player = Player(
    id: string,
    name: string,
    kind: Option<string>,
    role: Option<string>,
    runs: int,
    balls: int,
    fours: int,
    sixes: int,
    isOut: bool,
    howOut: Option<string>,
    isBatting: bool,
    isOnStrike: bool)

  /**
   * The `extras` record: the four declared counters, and the undeclared keys
   * that `extras[extraType] += 1` has created. Such a key starts as `undefined`,
   * so it holds NaN from its first increment on; only the set of those keys is kept.
   */
  datatype Extras = Extras(wides: int, noBalls: int, byes: int, legByes: int, nanKeys: set<ExtraType>)

  /** One entry of `ballByBall`; an absent `wicket` flag is `false`. */
  datatype BallRecord = BallRecord(
    over: int,
    ball: int,
    runs: int,
    extras: Option<string>,
    wicket: bool,
    batter: string,
    bowler: string)

  /** The payload of the SETUP_MATCH action the setup screen dispatches. */
  datatype MatchData = MatchData(
    stadium: string,
    tossWinner: string,
    totalOvers: int,
    battingTeam: TeamKey,
    bowlingTeam: TeamKey)

  /** One team of the UPDATE_TEAMS action the setup screen dispatches. */
  datatype TeamData = TeamData(name: string, players: seq<Player>)

  /**
   * The actions. The first eight are the reducer's declared union; the
   * `updates` payload of UPDATE_PLAYER is not kept because no arm reads it.
   * SetupMatch and UpdateTeams are dispatched by the setup screen but are not
   * in the union, so they reach the default arm.
   */
  datatype Action =
    | AddRuns(runs: int)
    | AddExtra(extraType: ExtraType, extraRuns: int)
    | Wicket(wicketType: string, fielder: Option<string>)
    | SwitchStrike
    | NewOver
    | UpdateBowler(bowler: string)
    | SetFreeHit(value: bool)
    | UpdatePlayer(teamId: TeamKey, playerId: string)
    | SetupMatch(matchData: MatchData)
    | UpdateTeams(team1: TeamData, team2: TeamData)

  /** Actions that fall through to `default: return state`. */
  predicate Ignored(a: Action)
  {
    a.NewOver? || a.UpdatePlayer? || a.SetupMatch? || a.UpdateTeams?
  }

  // ---------------------------------------------------------------------------
  // Integer helpers
  // ---------------------------------------------------------------------------

  /** JavaScript's `a % b` for b > 0: the remainder takes the sign of `a`. */
  function JsRem(a: int, b: int): (r: int)
    requires b > 0
    ensures -b < r < b
    ensures a >= 0 ==> r == a % b
    ensures a < 0 ==> r <= 0
  {
    if a >= 0 then a % b else -((-a) % b)
  }

  /** The test `runs % 2 === 1` of the ADD_RUNS arm. */
  predicate JsOdd(r: int)
  {
    JsRem(r, 2) == 1
  }

  lemma JsOddOnlyPositive(r: int)
    ensures JsOdd(r) <==> r > 0 && r % 2 == 1
  {
    if r < 0 {
      assert JsRem(r, 2) <= 0;
    }
  }

  /**
   * `balls += 1`, then if `balls === 6` the over is complete: `overs += 1` and
   * `balls = 0`. Every legal delivery advances overs*6 + balls by exactly one.
   */
  function LegalBall(overs: int, balls: int): (r: (int, int))
    ensures r.0 * 6 + r.1 == overs * 6 + balls + 1
    ensures 0 <= balls < 6 ==> 0 <= r.1 < 6
    ensures r.0 == overs + 1 <==> balls + 1 == 6
    ensures r.0 != overs ==> r.1 == 0
  {
    if balls + 1 == 6 then (overs + 1, 0) else (overs, balls + 1)
  }

  // ---------------------------------------------------------------------------
  // The `find` scans
  // ---------------------------------------------------------------------------

  /** The two predicates the reducer hands to `players.find`. */
  datatype Scan = Striker | NextBatter

  predicate Selects(scan: Scan, p: Player)
  {
    match scan
    case Striker => p.isOnStrike && p.isBatting
    case NextBatter => !p.isOut && !p.isBatting
  }

  /** The first index at or after `i` whose player the scan selects. */
  function FirstFrom(ps: seq<Player>, scan: Scan, i: nat): (r: Option<nat>)
    requires i <= |ps|
    ensures r.Some? ==> i <= r.value < |ps| && Selects(scan, ps[r.value])
    ensures r.Some? ==> forall j :: i <= j < r.value ==> !Selects(scan, ps[j])
    ensures r.None? ==> forall j :: i <= j < |ps| ==> !Selects(scan, ps[j])
    decreases |ps| - i
  {
    if i == |ps| then None
    else if Selects(scan, ps[i]) then Some(i)
    else FirstFrom(ps, scan, i + 1)
  }

  /** `players.find(...)`, as an index into the roster. */
  function Find(ps: seq<Player>, scan: Scan): (r: Option<nat>)
    ensures r.Some? ==> r.value < |ps| && Selects(scan, ps[r.value])
    ensures r.Some? ==> forall j :: 0 <= j < r.value ==> !Selects(scan, ps[j])
    ensures r.None? ==> forall j :: 0 <= j < |ps| ==> !Selects(scan, ps[j])
  {
    FirstFrom(ps, scan, 0)
  }

  /** Two rosters the scan cannot tell apart give the same answer. */
  lemma {:induction false} FirstFromAgrees(ps: seq<Player>, qs: seq<Player>, scan: Scan, i: nat)
    requires i <= |ps| == |qs|
    requires forall j :: i <= j < |ps| ==> (Selects(scan, ps[j]) <==> Selects(scan, qs[j]))
    ensures FirstFrom(ps, scan, i) == FirstFrom(qs, scan, i)
    decreases |ps| - i
  {
    if i < |ps| && !Selects(scan, ps[i]) {
      FirstFromAgrees(ps, qs, scan, i + 1);
    }
  }

  // ---------------------------------------------------------------------------
  // Roster shapes and counts
  // ---------------------------------------------------------------------------

  /**
   * Exactly two players are batting, `s` on strike and `n` off strike. The
   * strike flag of a player who is not batting is not constrained: the reducer
   * never reads it.
   */
  ghost predicate BattingPair(ps: seq<Player>, s: nat, n: nat)
  {
    && s < |ps| && n < |ps| && s != n
    && ps[s].isBatting && ps[s].isOnStrike
    && ps[n].isBatting && !ps[n].isOnStrike
    && forall j :: 0 <= j < |ps| && j != s && j != n ==> !ps[j].isBatting
  }

  /** No player is both batting and out. */
  ghost predicate BattingNotOut(ps: seq<Player>)
  {
    forall j :: 0 <= j < |ps| ==> ps[j].isBatting ==> !ps[j].isOut
  }

  /** The number of players flagged out. */
  function OutCount(ps: seq<Player>): (c: nat)
    ensures c <= |ps|
  {
    if ps == [] then 0 else OutCount(ps[..|ps| - 1]) + (if ps[|ps| - 1].isOut then 1 else 0)
  }

  /** Replacing one player changes the out count by that player's change of flag. */
  lemma {:induction false} OutCountUpdate(ps: seq<Player>, k: nat, p: Player)
    requires k < |ps|
    ensures OutCount(ps[k := p]) ==
      OutCount(ps) - (if ps[k].isOut then 1 else 0) + (if p.isOut then 1 else 0)
    decreases |ps|
  {
    var n := |ps| - 1;
    var qs := ps[k := p];
    if k == n {
      assert qs[..n] == ps[..n];
    } else {
      assert qs[..n] == ps[..n][k := p];
      OutCountUpdate(ps[..n], k, p);
    }
  }

  /** Everything about a player except the strike flag. */
  predicate SameExceptStrike(p: Player, q: Player)
  {
    p == q.(isOnStrike := p.isOnStrike)
  }

  // ---------------------------------------------------------------------------
  // Strike rotation: `players.forEach(p => { if (p.isBatting) p.isOnStrike = !p.isOnStrike })`
  // ---------------------------------------------------------------------------

  function Flip(p: Player): Player
  {
    if p.isBatting then p.(isOnStrike := !p.isOnStrike) else p
  }

  function FlippedStrike(ps: seq<Player>): seq<Player>
  {
    seq(|ps|, i requires 0 <= i < |ps| => Flip(ps[i]))
  }

  /** Toggling twice restores the roster. */
  lemma FlipTwice(ps: seq<Player>)
    ensures FlippedStrike(FlippedStrike(ps)) == ps
  {
    assert forall i :: 0 <= i < |ps| ==> Flip(Flip(ps[i])) == ps[i];
  }

  /** The toggle changes only strike flags, and swaps the striker of a batting pair. */
  lemma FlipSwapsPair(ps: seq<Player>, s: nat, n: nat)
    ensures |FlippedStrike(ps)| == |ps|
    ensures forall j :: 0 <= j < |ps| ==> SameExceptStrike(FlippedStrike(ps)[j], ps[j])
    ensures BattingPair(ps, s, n) ==> BattingPair(FlippedStrike(ps), n, s)
  {
  }

  // ---------------------------------------------------------------------------
  // ADD_RUNS
  // ---------------------------------------------------------------------------

  /** The striker's tally after a delivery worth `r` runs off the bat. */
  function Credit(p: Player, r: int): Player
  {
    p.(runs := p.runs + r,
       balls := p.balls + 1,
       fours := if r == 4 then p.fours + 1 else p.fours,
       sixes := if r == 6 then p.sixes + 1 else p.sixes)
  }

  function CreditStriker(ps: seq<Player>, r: int): seq<Player>
  {
    match Find(ps, Striker)
    case None => ps
    case Some(k) => ps[k := Credit(ps[k], r)]
  }

  /**
   * The roster after ADD_RUNS: the striker (if any) is credited, the batters'
   * strike is toggled on an odd score, and toggled again when the delivery
   * completes the over (`overDone`).
   */
  function RunsOutcome(ps: seq<Player>, r: int, overDone: bool): seq<Player>
  {
    var credited := CreditStriker(ps, r);
    var rotated := if JsOdd(r) then FlippedStrike(credited) else credited;
    if overDone then FlippedStrike(rotated) else rotated
  }

  /**
   * ADD_RUNS credits exactly the first player who is batting and on strike:
   * r more runs, one more ball, a four iff r = 4, a six iff r = 6. No other
   * player's tally, and nobody's out or batting flag, changes.
   */
  lemma RunsCreditStriker(ps: seq<Player>, r: int, overDone: bool)
    ensures |RunsOutcome(ps, r, overDone)| == |ps|
    ensures Find(ps, Striker).Some? ==>
      var k := Find(ps, Striker).value;
      var q := RunsOutcome(ps, r, overDone)[k];
      && q.runs == ps[k].runs + r && q.balls == ps[k].balls + 1
      && (q.fours == ps[k].fours + 1 <==> r == 4) && (r != 4 ==> q.fours == ps[k].fours)
      && (q.sixes == ps[k].sixes + 1 <==> r == 6) && (r != 6 ==> q.sixes == ps[k].sixes)
      && q.id == ps[k].id && q.isOut == ps[k].isOut && q.isBatting == ps[k].isBatting
      && SameExceptStrike(q, Credit(ps[k], r))
    ensures forall j :: 0 <= j < |ps| && Find(ps, Striker) != Some(j) ==>
      SameExceptStrike(RunsOutcome(ps, r, overDone)[j], ps[j])
  {
    var credited := CreditStriker(ps, r);
    var rotated := if JsOdd(r) then FlippedStrike(credited) else credited;
    FlipSwapsPair(credited, 0, 0);
    FlipSwapsPair(rotated, 0, 0);
  }

  /**
   * Strike rotation of ADD_RUNS on a batting pair: the striker changes iff the
   * score is odd XOR the delivery completes the over, and the roster keeps
   * exactly one batter on strike.
   */
  lemma RunsRotation(ps: seq<Player>, s: nat, n: nat, r: int, overDone: bool)
    requires BattingPair(ps, s, n)
    ensures JsOdd(r) != overDone ==> BattingPair(RunsOutcome(ps, r, overDone), n, s)
    ensures JsOdd(r) == overDone ==> BattingPair(RunsOutcome(ps, r, overDone), s, n)
  {
    assert Find(ps, Striker) == Some(s);
    var credited := CreditStriker(ps, r);
    assert BattingPair(credited, s, n);
    var rotated := if JsOdd(r) then FlippedStrike(credited) else credited;
    FlipSwapsPair(credited, s, n);
    if JsOdd(r) {
      assert BattingPair(rotated, n, s);
      FlipSwapsPair(rotated, n, s);
    } else {
      FlipSwapsPair(rotated, s, n);
    }
  }

  // ---------------------------------------------------------------------------
  // WICKET
  // ---------------------------------------------------------------------------

  function Dismiss(p: Player, how: string): Player
  {
    p.(isOut := true, howOut := Some(how), isBatting := false, isOnStrike := false)
  }

  function Promote(p: Player): Player
  {
    p.(isBatting := true, isOnStrike := true)
  }

  /**
   * The roster after WICKET: the first batting striker is dismissed, then the
   * first player who is neither out nor batting comes in on strike. Without a
   * striker the roster is untouched.
   */
  function WicketOutcome(ps: seq<Player>, how: string): seq<Player>
  {
    match Find(ps, Striker)
    case None => ps
    case Some(k) =>
      var dismissed := ps[k := Dismiss(ps[k], how)];
      match Find(dismissed, NextBatter)
      case None => dismissed
      case Some(m) => dismissed[m := Promote(dismissed[m])]
  }

  /**
   * WICKET with a striker: the striker is out, `howOut` is the wicket type and
   * the striker no longer bats or holds the strike; the first player of the
   * roster who was neither out nor batting, if any, now bats on strike; every
   * other player is unchanged. Without a striker nothing changes.
   */
  lemma WicketDismissal(ps: seq<Player>, how: string)
    ensures |WicketOutcome(ps, how)| == |ps|
    ensures Find(ps, Striker).None? ==> WicketOutcome(ps, how) == ps
    ensures Find(ps, Striker).Some? ==>
      var k := Find(ps, Striker).value;
      var out := WicketOutcome(ps, how);
      && out[k] == ps[k].(isOut := true, howOut := Some(how), isBatting := false, isOnStrike := false)
      && (Find(ps, NextBatter).Some? ==>
            var m := Find(ps, NextBatter).value;
            && m != k
            && out[m] == ps[m].(isBatting := true, isOnStrike := true)
            && forall j :: 0 <= j < |ps| && j != k && j != m ==> out[j] == ps[j])
      && (Find(ps, NextBatter).None? ==>
            forall j :: 0 <= j < |ps| && j != k ==> out[j] == ps[j])
  {
    if Find(ps, Striker).Some? {
      var k := Find(ps, Striker).value;
      var dismissed := ps[k := Dismiss(ps[k], how)];
      FirstFromAgrees(ps, dismissed, NextBatter, 0);
    }
  }

  /**
   * WICKET keeps "no batter is out", and raises the out count by one exactly
   * when there was a striker: so `wickets == OutCount(players)` is kept.
   */
  lemma WicketCounts(ps: seq<Player>, how: string)
    requires BattingNotOut(ps)
    ensures BattingNotOut(WicketOutcome(ps, how))
    ensures OutCount(WicketOutcome(ps, how)) ==
      OutCount(ps) + (if Find(ps, Striker).Some? then 1 else 0)
  {
    WicketDismissal(ps, how);
    if Find(ps, Striker).Some? {
      var k := Find(ps, Striker).value;
      var dismissed := ps[k := Dismiss(ps[k], how)];
      OutCountUpdate(ps, k, Dismiss(ps[k], how));
      if Find(ps, NextBatter).Some? {
        var m := Find(ps, NextBatter).value;
        OutCountUpdate(dismissed, m, Promote(dismissed[m]));
      }
    }
  }

  /**
   * WICKET on a batting pair leaves the non-striker exactly as it was (its
   * strike is not toggled). If a replacement comes in, the new batter and the
   * non-striker form the pair, with the new batter on strike; otherwise the
   * non-striker is the only batter and nobody is on strike.
   */
  lemma WicketStrike(ps: seq<Player>, s: nat, n: nat, how: string)
    requires BattingPair(ps, s, n)
    ensures WicketOutcome(ps, how)[n] == ps[n]
    ensures Find(ps, NextBatter).Some? ==>
      BattingPair(WicketOutcome(ps, how), Find(ps, NextBatter).value, n)
    ensures Find(ps, NextBatter).None? ==>
      forall j :: 0 <= j < |ps| && WicketOutcome(ps, how)[j].isBatting ==>
        j == n && !WicketOutcome(ps, how)[j].isOnStrike
  {
    assert Find(ps, Striker) == Some(s);
    WicketDismissal(ps, how);
  }

  /** Rosters with the same out flags have the same out count. */
  lemma {:induction false} OutCountSame(ps: seq<Player>, qs: seq<Player>)
    requires |ps| == |qs|
    requires forall j :: 0 <= j < |ps| ==> ps[j].isOut == qs[j].isOut
    ensures OutCount(ps) == OutCount(qs)
    decreases |ps|
  {
    if ps != [] {
      var n := |ps| - 1;
      OutCountSame(ps[..n], qs[..n]);
    }
  }

  // ---------------------------------------------------------------------------
  // Whole-state view of the reducer
  // ---------------------------------------------------------------------------

  /** The fields of a `Team` object. */
  datatype TeamRecord = TeamRecord(
    id: string,
    name: string,
    players: seq<Player>,
    totalRuns: int,
    wickets: int,
    overs: int,
    balls: int,
    extras: Extras)

  /** The fields of a `Match` object. */
  datatype MatchRecord = MatchRecord(
    id: string,
    stadium: string,
    team1: TeamRecord,
    team2: TeamRecord,
    battingTeam: TeamKey,
    bowlingTeam: TeamKey,
    tossWinner: string,
    totalOvers: int,
    currentBowler: string,
    isMatchActive: bool,
    ballByBall: seq<BallRecord>)

  /** The reducer's state: the match (`state.match`; `match` is a Dafny keyword) and the free-hit flag. */
  datatype CricketRecord = CricketRecord(game: MatchRecord, isFreeHit: bool)

  /** `match[key]`. */
  function TeamOf(m: MatchRecord, key: TeamKey): TeamRecord
  {
    if key == Team1 then m.team1 else m.team2
  }

  /** The match with the team under `key` replaced. */
  function WithTeam(m: MatchRecord, key: TeamKey, t: TeamRecord): (r: MatchRecord)
    ensures TeamOf(r, key) == t && TeamOf(r, Other(key)) == TeamOf(m, Other(key))
    ensures r.(team1 := m.team1, team2 := m.team2) == m
  {
    if key == Team1 then m.(team1 := t) else m.(team2 := t)
  }

  /** Counts that stay in step: wickets and out flags agree, no batter is out, the over's ball is 0..5. */
  ghost predicate TeamConsistent(t: TeamRecord)
  {
    t.wickets == OutCount(t.players) && BattingNotOut(t.players) && 0 <= t.balls < 6
  }

  /** The batting team after ADD_RUNS (:119-149). */
  function AfterRuns(t: TeamRecord, r: int): TeamRecord
  {
    var (overs, balls) := LegalBall(t.overs, t.balls);
    t.(players := RunsOutcome(t.players, r, t.balls + 1 == 6),
       totalRuns := t.totalRuns + r, overs := overs, balls := balls)
  }

  /** Wides and no-balls are not legal deliveries. */
  predicate IsLegal(kind: ExtraType)
  {
    kind == Bye || kind == LegBye
  }

  /** The batting team after ADD_EXTRA (:155-173). */
  function AfterExtra(t: TeamRecord, kind: ExtraType, r: int): TeamRecord
  {
    var bumped := t.(extras := BumpExtra(t.extras, kind), totalRuns := t.totalRuns + r);
    if !IsLegal(kind) then bumped
    else
      var (overs, balls) := LegalBall(t.overs, t.balls);
      bumped.(overs := overs, balls := balls)
  }

  /** The batting team after WICKET (:178-202). */
  function AfterWicket(t: TeamRecord, how: string): TeamRecord
  {
    var (overs, balls) := LegalBall(t.overs, t.balls);
    t.(players := WicketOutcome(t.players, how),
       wickets := if Find(t.players, Striker).Some? then t.wickets + 1 else t.wickets,
       overs := overs, balls := balls)
  }

  /** The batting team after SWITCH_STRIKE (:208-214). */
  function AfterSwitch(t: TeamRecord): TeamRecord
  {
    t.(players := FlippedStrike(t.players))
  }

  /**
   * `extras[extraType] += 1` (:159): the singular action key names a property
   * the record does not declare; it is created holding NaN and the four
   * declared counters keep their values.
   */
  function BumpExtra(e: Extras, kind: ExtraType): (r: Extras)
    ensures r.wides == e.wides && r.noBalls == e.noBalls
    ensures r.byes == e.byes && r.legByes == e.legByes
    ensures kind in r.nanKeys && e.nanKeys <= r.nanKeys
  {
    e.(nanKeys := e.nanKeys + {kind})
  }

  /** `cricketReducer` (:117-237) on the state as a value. */
  function Reduce(s: CricketRecord, a: Action): CricketRecord
  {
    var key := s.game.battingTeam;
    var batting := TeamOf(s.game, key);
    match a
    case AddRuns(r) =>
      CricketRecord(WithTeam(s.game, key, AfterRuns(batting, r)), false)
    case AddExtra(kind, r) =>
      CricketRecord(WithTeam(s.game, key, AfterExtra(batting, kind, r)),
                    if kind == NoBall then true else s.isFreeHit)
    case Wicket(how, _) =>
      CricketRecord(WithTeam(s.game, key, AfterWicket(batting, how)), false)
    case SwitchStrike =>
      s.(game := WithTeam(s.game, key, AfterSwitch(batting)))
    case UpdateBowler(b) =>
      s.(game := s.game.(currentBowler := b))
    case SetFreeHit(v) =>
      s.(isFreeHit := v)
    case _ => s
  }

  /** The number of legal deliveries a team has received, as overs and balls. */
  function LegalBalls(t: TeamRecord): int
  {
    t.overs * 6 + t.balls
  }

  /** Whether the action is a delivery the reducer counts as a legal ball. */
  predicate CountsBall(a: Action)
  {
    a.AddRuns? || a.Wicket? || (a.AddExtra? && IsLegal(a.extraType))
  }

  /**
   * No arm touches the team that is not batting, the ball ledger, the venue,
   * the format, the toss or the team keys; only UPDATE_BOWLER changes the
   * current bowler, and actions that reach the default arm change nothing.
   */
  lemma ReduceFrame(s: CricketRecord, a: Action)
    ensures var m, m' := s.game, Reduce(s, a).game;
      && TeamOf(m', Other(m.battingTeam)) == TeamOf(m, Other(m.battingTeam))
      && m'.ballByBall == m.ballByBall && m'.stadium == m.stadium
      && m'.totalOvers == m.totalOvers && m'.tossWinner == m.tossWinner
      && m'.battingTeam == m.battingTeam && m'.bowlingTeam == m.bowlingTeam
      && m'.id == m.id && m'.isMatchActive == m.isMatchActive
      && (m'.currentBowler != m.currentBowler ==> a.UpdateBowler?)
    ensures a.UpdateBowler? ==> Reduce(s, a) == s.(game := s.game.(currentBowler := a.bowler))
    ensures Ignored(a) ==> Reduce(s, a) == s
  {
  }

  /**
   * Free hit: a no-ball sets it, runs and wickets clear it, wides, byes,
   * leg-byes and strike switches leave it, and SET_FREE_HIT sets exactly the
   * given value and nothing else.
   */
  lemma ReduceFreeHit(s: CricketRecord, a: Action)
    ensures a.AddExtra? && a.extraType == NoBall ==> Reduce(s, a).isFreeHit
    ensures a.AddRuns? || a.Wicket? ==> !Reduce(s, a).isFreeHit
    ensures a.AddExtra? && a.extraType != NoBall ==> Reduce(s, a).isFreeHit == s.isFreeHit
    ensures a.SwitchStrike? || a.UpdateBowler? ==> Reduce(s, a).isFreeHit == s.isFreeHit
    ensures a.SetFreeHit? ==> Reduce(s, a) == s.(isFreeHit := a.value)
  {
  }

  /**
   * Ball counting: ADD_RUNS, WICKET and a bye or leg-bye add exactly one legal
   * ball, a wide or no-ball none, whether or not a striker is found; the
   * over's ball stays in 0..5 if it started there.
   */
  lemma ReduceCountsBalls(s: CricketRecord, a: Action)
    ensures var key := s.game.battingTeam;
      var t, t' := TeamOf(s.game, key), TeamOf(Reduce(s, a).game, key);
      && LegalBalls(t') == LegalBalls(t) + (if CountsBall(a) then 1 else 0)
      && (0 <= t.balls < 6 ==> 0 <= t'.balls < 6)
  {
  }

  /**
   * ADD_EXTRA adds its runs to the total and leaves every player, the
   * wickets and the four declared extras counters as they were.
   */
  lemma ReduceExtraTotals(s: CricketRecord, kind: ExtraType, r: int)
    ensures var key := s.game.battingTeam;
      var t, t' := TeamOf(s.game, key), TeamOf(Reduce(s, AddExtra(kind, r)).game, key);
      && t'.totalRuns == t.totalRuns + r && t'.players == t.players && t'.wickets == t.wickets
      && t'.extras.wides == t.extras.wides && t'.extras.noBalls == t.extras.noBalls
      && t'.extras.byes == t.extras.byes && t'.extras.legByes == t.extras.legByes
  {
  }

  /**
   * ADD_RUNS adds exactly its runs to the batting team's total, whether or not
   * a striker is found, and leaves the wickets and the extras as they were.
   */
  lemma ReduceRunsTotals(s: CricketRecord, r: int)
    ensures var key := s.game.battingTeam;
      var t, t' := TeamOf(s.game, key), TeamOf(Reduce(s, AddRuns(r)).game, key);
      && t'.totalRuns == t.totalRuns + r && t'.wickets == t.wickets && t'.extras == t.extras
  {
  }

  /**
   * The batting team's tallies under every action: the total grows by the runs
   * of ADD_RUNS and ADD_EXTRA only, `wickets` grows by one exactly when WICKET
   * finds a striker, only ADD_EXTRA touches the extras, a WICKET with no striker
   * leaves the roster alone, and actions that count no ball leave the over as is.
   */
  lemma ReduceTallies(s: CricketRecord, a: Action)
    ensures var key := s.game.battingTeam;
      var t, t' := TeamOf(s.game, key), TeamOf(Reduce(s, a).game, key);
      && t'.id == t.id && t'.name == t.name
      && t'.totalRuns == t.totalRuns + (match a case AddRuns(r) => r case AddExtra(_, r) => r case _ => 0)
      && t'.wickets == t.wickets + (if a.Wicket? && Find(t.players, Striker).Some? then 1 else 0)
      && (!a.AddExtra? ==> t'.extras == t.extras)
      && (a.Wicket? && Find(t.players, Striker).None? ==> t'.players == t.players)
      && (!CountsBall(a) ==> t'.overs == t.overs && t'.balls == t.balls)
  {
    if a.Wicket? {
      WicketDismissal(TeamOf(s.game, s.game.battingTeam).players, a.wicketType);
    }
  }

  /**
   * Every action keeps the batting team consistent: `wickets` counts the
   * players flagged out, no batter is out, and the over's ball is in 0..5.
   */
  lemma ReduceKeepsConsistency(s: CricketRecord, a: Action)
    requires TeamConsistent(TeamOf(s.game, s.game.battingTeam))
    ensures TeamConsistent(TeamOf(Reduce(s, a).game, s.game.battingTeam))
  {
    var t := TeamOf(s.game, s.game.battingTeam);
    match a
    case AddRuns(r) =>
      RunsCreditStriker(t.players, r, t.balls + 1 == 6);
      OutCountSame(t.players, AfterRuns(t, r).players);
    case Wicket(how, _) =>
      WicketCounts(t.players, how);
    case SwitchStrike =>
      FlipSwapsPair(t.players, 0, 0);
      OutCountSame(t.players, FlippedStrike(t.players));
    case _ =>
  }

  /**
   * With a batting pair on strike, ADD_RUNS, SWITCH_STRIKE and ADD_EXTRA keep
   * exactly one batter on strike: runs swap the striker iff the score is odd
   * XOR the over completes, a switch always swaps, an extra never does.
   */
  lemma ReduceStrike(s: CricketRecord, a: Action, striker: nat, partner: nat)
    requires BattingPair(TeamOf(s.game, s.game.battingTeam).players, striker, partner)
    ensures var key := s.game.battingTeam;
      var t, ps' := TeamOf(s.game, key), TeamOf(Reduce(s, a).game, key).players;
      && (a.AddRuns? ==>
            var swap := JsOdd(a.runs) != (t.balls + 1 == 6);
            BattingPair(ps', if swap then partner else striker, if swap then striker else partner))
      && (a.SwitchStrike? ==> BattingPair(ps', partner, striker))
      && (a.AddExtra? ==> BattingPair(ps', striker, partner))
  {
    var t := TeamOf(s.game, s.game.battingTeam);
    match a
    case AddRuns(r) =>
      RunsRotation(t.players, striker, partner, r, t.balls + 1 == 6);
    case SwitchStrike =>
      FlipSwapsPair(t.players, striker, partner);
    case _ =>
  }

  // ---------------------------------------------------------------------------
  // initialState (:70-115)
  // ---------------------------------------------------------------------------

  /** A demo roster entry with no `type`, `role` or dismissal. */
  function DemoPlayer(id: string, name: string, runs: int, balls: int, fours: int,
                      isBatting: bool, isOnStrike: bool): Player
  {
    Player(id, name, None, None, runs, balls, fours, 0, false, None, isBatting, isOnStrike)
  }

  /** The demo match the provider starts from: India batting at 9 for 0 after 1.3 overs. */
  function InitialState(): CricketRecord
  {
    var none := Extras(0, 0, 0, 0, {});
    var india := TeamRecord("team1", "Team India", [
        DemoPlayer("1", "Rohit Sharma", 0, 0, 0, true, true),
        DemoPlayer("2", "Virat Kohli", 9, 3, 1, true, false),
        DemoPlayer("3", "KL Rahul", 0, 0, 0, false, false),
        DemoPlayer("4", "Hardik Pandya", 0, 0, 0, false, false),
        DemoPlayer("5", "MS Dhoni", 0, 0, 0, false, false)],
      9, 0, 1, 3, none);
    var england := TeamRecord("team2", "England", [
        DemoPlayer("6", "Joe Root", 0, 0, 0, false, false),
        DemoPlayer("7", "Ben Stokes", 0, 0, 0, false, false),
        DemoPlayer("8", "Jos Buttler", 0, 0, 0, false, false),
        DemoPlayer("9", "Jofra Archer", 0, 0, 0, false, false),
        DemoPlayer("10", "James Anderson", 0, 0, 0, false, false)],
      0, 0, 0, 0, none);
    CricketRecord(
      MatchRecord("1", "Lords Cricket Ground", india, england, Team1, Team2,
                  "Team India", 20, "Jofra Archer", true, []),
      false)
  }

  /**
   * The demo state satisfies what the reducer's lemmas assume: both teams are
   * consistent, team 1 bats with player 0 on strike and player 1 off strike,
   * the keys differ, no free hit is pending and the ledger is empty.
   */
  lemma InitialStateConsistent()
    ensures var s := InitialState();
      && TeamConsistent(s.game.team1) && TeamConsistent(s.game.team2)
      && s.game.battingTeam == Team1 && s.game.bowlingTeam == Other(s.game.battingTeam)
      && BattingPair(s.game.team1.players, 0, 1)
      && !s.isFreeHit && s.game.ballByBall == []
  {
    var s := InitialState();
    assert OutCount(s.game.team1.players) == 0 by {
      OutCountNone(s.game.team1.players);
    }
    assert OutCount(s.game.team2.players) == 0 by {
      OutCountNone(s.game.team2.players);
    }
  }

  /** A roster with nobody out has an out count of zero. */
  lemma {:induction false} OutCountNone(ps: seq<Player>)
    requires forall j :: 0 <= j < |ps| ==> !ps[j].isOut
    ensures OutCount(ps) == 0
    decreases |ps|
  {
    if ps != [] {
      OutCountNone(ps[..|ps| - 1]);
    }
  }
}
