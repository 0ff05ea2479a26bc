/*
 * The scoring reducer of src/context/CricketContext.tsx as the source runs it:
 * the arms take the batting team out of the match and update it in place
 * (tallies, `find` scans for the striker and the next batter, `forEach` loops
 * that toggle the strike). Each method is proved against `CricketModel.Reduce`,
 * whose properties are proved in cricket_model.dfy.
 */
module CricketReducer {
  import opened CricketModel

  /** A team: the roster and the innings tallies, updated in place by the reducer. */
  class Team {
    var id: string
    var name: string
    var players: seq<Player>
    var totalRuns: int
    var wickets: int
    var overs: int
    var balls: int
    var extras: Extras

    constructor (t: TeamRecord)
      ensures Record() == t
    {
      id, name, players := t.id, t.name, t.players;
      totalRuns, wickets, overs, balls := t.totalRuns, t.wickets, t.overs, t.balls;
      extras := t.extras;
    }

    /** The team's fields as a value. */
    function Record(): TeamRecord
      reads this
    {
      TeamRecord(id, name, players, totalRuns, wickets, overs, balls, extras)
    }

    /** `players.find(p => ...)`: the index of the first player the scan selects. */
    method FindPlayer(scan: Scan) returns (k: Option<nat>)
      ensures k == Find(players, scan)
      ensures k.Some? ==> k.value < |players| && Selects(scan, players[k.value])
      ensures k.Some? ==> forall j :: 0 <= j < k.value ==> !Selects(scan, players[j])
      ensures k.None? ==> forall j :: 0 <= j < |players| ==> !Selects(scan, players[j])
    {
      var i := 0;
      while i < |players|
        invariant i <= |players|
        invariant FirstFrom(players, scan, i) == Find(players, scan)
      {
        if Selects(scan, players[i]) {
          return Some(i);
        }
        i := i + 1;
      }
      return None;
    }

    /** The team part of ADD_RUNS (:121-149). */
    method AddRuns(runs: int)
      modifies this
      ensures Record() == AfterRuns(old(Record()), runs)
    {
      var k := FindPlayer(Striker);
      if k.Some? {
        var p := players[k.value];
        p := p.(runs := p.runs + runs, balls := p.balls + 1);
        if runs == 4 {
          p := p.(fours := p.fours + 1);
        }
        if runs == 6 {
          p := p.(sixes := p.sixes + 1);
        }
        players := players[k.value := p];
      }
      assert players == CreditStriker(old(players), runs);
      totalRuns := totalRuns + runs;
      balls := balls + 1;
      if JsRem(runs, 2) == 1 {
        FlipStrike();
      }
      if balls == 6 {
        overs := overs + 1;
        balls := 0;
        FlipStrike();
      }
    }

    /** The team part of ADD_EXTRA (:157-173). */
    method AddExtra(kind: ExtraType, runs: int)
      modifies this
      ensures Record() == AfterExtra(old(Record()), kind, runs)
    {
      extras := BumpExtra(extras, kind);
      totalRuns := totalRuns + runs;
      if kind != Wide && kind != NoBall {
        balls := balls + 1;
        if balls == 6 {
          overs := overs + 1;
          balls := 0;
        }
      }
    }

    /** The team part of WICKET (:180-202). */
    method Dismiss(wicketType: string)
      modifies this
      ensures Record() == AfterWicket(old(Record()), wicketType)
    {
      var k := FindPlayer(Striker);
      if k.Some? {
        var p := players[k.value];
        players := players[k.value := p.(isOut := true, howOut := Some(wicketType),
                                          isBatting := false, isOnStrike := false)];
        wickets := wickets + 1;
        var m := FindPlayer(NextBatter);
        if m.Some? {
          var q := players[m.value];
          players := players[m.value := q.(isBatting := true, isOnStrike := true)];
        }
      }
      assert players == WicketOutcome(old(players), wicketType);
      balls := balls + 1;
      if balls == 6 {
        overs := overs + 1;
        balls := 0;
      }
    }

    /** `players.forEach(p => { if (p.isBatting) p.isOnStrike = !p.isOnStrike; })`. */
    method FlipStrike()
      modifies this`players
      ensures players == FlippedStrike(old(players))
    {
      var i := 0;
      while i < |players|
        invariant i <= |players| == |old(players)|
        invariant forall j :: 0 <= j < i ==> players[j] == Flip(old(players)[j])
        invariant forall j :: i <= j < |players| ==> players[j] == old(players)[j]
      {
        var p := players[i];
        if p.isBatting {
          players := players[i := p.(isOnStrike := !p.isOnStrike)];
        }
        i := i + 1;
      }
    }
  }

  /** The match record; its teams are objects shared with the reducer's state. */
  class Match {
    var id: string
    var stadium: string
    var team1: Team
    var team2: Team
    var battingTeam: TeamKey
    var bowlingTeam: TeamKey
    var tossWinner: string
    var totalOvers: int
    var currentBowler: string
    var isMatchActive: bool
    var ballByBall: seq<BallRecord>

    constructor (m: MatchRecord)
      ensures team1 != team2 && fresh(team1) && fresh(team2)
      ensures Record() == m
    {
      id, stadium := m.id, m.stadium;
      team1 := new Team(m.team1);
      team2 := new Team(m.team2);
      battingTeam, bowlingTeam, tossWinner := m.battingTeam, m.bowlingTeam, m.tossWinner;
      totalOvers, currentBowler, isMatchActive := m.totalOvers, m.currentBowler, m.isMatchActive;
      ballByBall := m.ballByBall;
    }

    /** `match[key]`. */
    function TeamAt(key: TeamKey): Team
      reads this
    {
      if key == Team1 then team1 else team2
    }

    function Record(): MatchRecord
      reads this, team1, team2
    {
      MatchRecord(id, stadium, team1.Record(), team2.Record(), battingTeam, bowlingTeam,
                  tossWinner, totalOvers, currentBowler, isMatchActive, ballByBall)
    }
  }

  /** `CricketState`: the match and the free-hit flag. */
  class CricketState {
    var game: Match
    var isFreeHit: bool

    /** The two teams are distinct objects. */
    ghost predicate Valid()
      reads this, game
    {
      game.team1 != game.team2
    }

    constructor (s: CricketRecord)
      ensures Valid() && fresh(game) && fresh(game.team1) && fresh(game.team2)
      ensures Record() == s
    {
      game := new Match(s.game);
      isFreeHit := s.isFreeHit;
    }

    function Record(): CricketRecord
      reads this, game, game.team1, game.team2
    {
      CricketRecord(game.Record(), isFreeHit)
    }

    /** `newState.match[newState.match.battingTeam]`. */
    function Batting(): Team
      reads this, game
    {
      game.TeamAt(game.battingTeam)
    }

    /** The team that is not under the batting key. */
    function Fielding(): Team
      reads this, game
    {
      game.TeamAt(Other(game.battingTeam))
    }

    /** ADD_RUNS (:119-153). */
    method RecordRuns(runs: int)
      requires Valid()
      modifies this`isFreeHit, Batting()
      ensures Valid() && unchanged(game) && unchanged(Fielding())
      ensures Record() == Reduce(old(Record()), AddRuns(runs))
    {
      Batting().AddRuns(runs);
      isFreeHit := false;
    }

    /** ADD_EXTRA (:155-176). */
    method RecordExtra(kind: ExtraType, runs: int)
      requires Valid()
      modifies this`isFreeHit, Batting()
      ensures Valid() && unchanged(game) && unchanged(Fielding())
      ensures Record() == Reduce(old(Record()), AddExtra(kind, runs))
    {
      Batting().AddExtra(kind, runs);
      if kind == Wide || kind == NoBall {
        if kind == NoBall {
          isFreeHit := true;
        }
      }
    }

    /** WICKET (:178-206); the fielder is carried by the action but never read. */
    method RecordWicket(wicketType: string, fielder: Option<string>)
      requires Valid()
      modifies this`isFreeHit, Batting()
      ensures Valid() && unchanged(game) && unchanged(Fielding())
      ensures Record() == Reduce(old(Record()), Wicket(wicketType, fielder))
    {
      Batting().Dismiss(wicketType);
      isFreeHit := false;
    }

    /** SWITCH_STRIKE (:208-215). */
    method SwitchStrike()
      requires Valid()
      modifies Batting()
      ensures Valid() && unchanged(this) && unchanged(game) && unchanged(Fielding())
      ensures Record() == Reduce(old(Record()), CricketModel.SwitchStrike)
    {
      var t := Batting();
      t.FlipStrike();
    }

    /** UPDATE_BOWLER (:217-225): only the current bowler changes. */
    method UpdateBowler(bowler: string)
      requires Valid()
      modifies game`currentBowler
      ensures Valid() && unchanged(this) && unchanged(game.team1) && unchanged(game.team2)
      ensures game.currentBowler == bowler
      ensures Record() == Reduce(old(Record()), CricketModel.UpdateBowler(bowler))
    {
      game.currentBowler := bowler;
    }

    /** SET_FREE_HIT (:227-232): only the flag changes. */
    method SetFreeHit(value: bool)
      requires Valid()
      modifies this`isFreeHit
      ensures Valid() && unchanged(game) && unchanged(game.team1) && unchanged(game.team2)
      ensures isFreeHit == value
      ensures Record() == Reduce(old(Record()), CricketModel.SetFreeHit(value))
    {
      isFreeHit := value;
    }

    /** `cricketReducer`: one arm per action, the rest reach `default: return state`. */
    method Dispatch(action: Action)
      requires Valid()
      modifies this`isFreeHit, game`currentBowler, Batting()
      ensures Valid() && game == old(game) && unchanged(Fielding())
      ensures Ignored(action) ==> unchanged(this) && unchanged(game) && unchanged(Batting())
      ensures Record() == Reduce(old(Record()), action)
    {
      match action
      case AddRuns(r) => RecordRuns(r);
      case AddExtra(kind, r) => RecordExtra(kind, r);
      case Wicket(how, fielder) => RecordWicket(how, fielder);
      case SwitchStrike => SwitchStrike();
      case UpdateBowler(b) => UpdateBowler(b);
      case SetFreeHit(v) => SetFreeHit(v);
      case _ =>
    }
  }
}
