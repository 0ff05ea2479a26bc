/*
 * The statistics of src/pages/Analytics.tsx:34-101: pure functions over the
 * ball ledger (`match.ballByBall`) and the two rosters. Only the integer
 * quantities are modelled; the strike rate, economy and run rate are
 * floating-point divisions formatted with `toFixed` and are left out.
 */
module Analytics {
  import opened CricketModel

  // ---------------------------------------------------------------------------
  // Filters over the ledger
  // ---------------------------------------------------------------------------

  /** The `filter` predicates the page applies to ball records. */
  datatype Pick =
    | ByBatter(batter: string)     // faced by this batter
    | ByBowler(bowler: string)     // bowled by this bowler
    | InOver(over: int)            // in this (1-based) over
    | WithRuns(runs: int)          // scoring exactly this many runs
    | Wickets                      // taking a wicket
    | Both(first: Pick, second: Pick)  // one filter applied after the other

  predicate Picks(k: Pick, e: BallRecord)
  {
    match k
    case ByBatter(name) => e.batter == name
    case ByBowler(name) => e.bowler == name
    case InOver(o) => e.over == o
    case WithRuns(v) => e.runs == v
    case Wickets => e.wicket
    case Both(a, b) => Picks(a, e) && Picks(b, e)
  }

  /** `events.filter(...)`. */
  function Filter(events: seq<BallRecord>, k: Pick): (r: seq<BallRecord>)
    ensures |r| <= |events|
  {
    if events == [] then []
    else
      var rest := Filter(events[..|events| - 1], k);
      var last := events[|events| - 1];
      if Picks(k, last) then rest + [last] else rest
  }

  /** `filter` keeps exactly the entries the predicate selects. */
  lemma {:induction false} FilterMembers(events: seq<BallRecord>, k: Pick)
    ensures forall e :: e in Filter(events, k) <==> e in events && Picks(k, e)
    decreases |events|
  {
    if events != [] {
      var init := events[..|events| - 1];
      FilterMembers(init, k);
      assert events == init + [events[|events| - 1]];
    }
  }

  /** Filtering a ledger with one more entry at the end. */
  lemma FilterSnoc(events: seq<BallRecord>, x: BallRecord, k: Pick)
    ensures Filter(events + [x], k) == if Picks(k, x) then Filter(events, k) + [x] else Filter(events, k)
  {
    var ex := events + [x];
    assert ex[..|ex| - 1] == events;
  }

  /** `filter` keeps the ledger's order and multiplicity: it distributes over concatenation. */
  lemma {:induction false} FilterAppend(a: seq<BallRecord>, b: seq<BallRecord>, k: Pick)
    ensures Filter(a + b, k) == Filter(a, k) + Filter(b, k)
    decreases |b|
  {
    if b == [] {
      assert a + b == a;
    } else {
      var init, last := b[..|b| - 1], b[|b| - 1];
      FilterAppend(a, init, k);
      assert b == init + [last];
      assert a + b == (a + init) + [last];
      FilterSnoc(a + init, last, k);
      FilterSnoc(init, last, k);
    }
  }

  /** Filtering twice is filtering once by both predicates. */
  lemma {:induction false} FilterTwice(events: seq<BallRecord>, a: Pick, b: Pick)
    ensures Filter(Filter(events, a), b) == Filter(events, Both(a, b))
    decreases |events|
  {
    if events != [] {
      var init, last := events[..|events| - 1], events[|events| - 1];
      FilterTwice(init, a, b);
      if Picks(a, last) {
        var fa := Filter(events, a);
        assert fa == Filter(init, a) + [last];
        assert fa[..|fa| - 1] == Filter(init, a);
      }
    }
  }

  /** `reduce((sum, ball) => sum + ball.runs, 0)`. */
  function SumRuns(events: seq<BallRecord>): int
  {
    if events == [] then 0 else SumRuns(events[..|events| - 1]) + events[|events| - 1].runs
  }

  /** With no negative scores, a longer prefix never sums to less. */
  lemma {:induction false} SumRunsPrefixMonotone(events: seq<BallRecord>, i: nat, j: nat)
    requires i <= j <= |events|
    requires forall e :: e in events ==> e.runs >= 0
    ensures SumRuns(events[..i]) <= SumRuns(events[..j])
    decreases j - i
  {
    if i < j {
      SumRunsPrefixMonotone(events, i, j - 1);
      assert events[..j][..j - 1] == events[..j - 1];
      assert events[j - 1] in events;
    }
  }

  // ---------------------------------------------------------------------------
  // getPlayerStats (:34-62)
  // ---------------------------------------------------------------------------

  datatype OverRuns = OverRuns(over: int, runs: int)

  datatype ShotTypes = ShotTypes(dots: nat, singles: nat, twos: nat, threes: nat, fours: nat, sixes: nat)

  /** A player's record with its derived statistics; the strike rate is left out. */
  datatype PlayerStat = PlayerStat(player: Player, runsPerOver: seq<OverRuns>, shotTypes: ShotTypes)

  /** `Array.from({length: n})`: a negative length becomes 0. */
  function OverCount(totalOvers: int): nat
  {
    if totalOvers < 0 then 0 else totalOvers
  }

  /** `runsPerOver` (:38-44) over the balls a batter faced. */
  function RunsPerOver(playerBalls: seq<BallRecord>, totalOvers: int): seq<OverRuns>
  {
    seq(OverCount(totalOvers), i requires 0 <= i < OverCount(totalOvers) =>
      OverRuns(i + 1, SumRuns(Filter(playerBalls, InOver(i + 1)))))
  }

  /** `shotTypes` (:46-53). */
  function Shots(playerBalls: seq<BallRecord>): ShotTypes
  {
    ShotTypes(|Filter(playerBalls, WithRuns(0))|, |Filter(playerBalls, WithRuns(1))|,
              |Filter(playerBalls, WithRuns(2))|, |Filter(playerBalls, WithRuns(3))|,
              |Filter(playerBalls, WithRuns(4))|, |Filter(playerBalls, WithRuns(6))|)
  }

  function ShotTotal(s: ShotTypes): nat
  {
    s.dots + s.singles + s.twos + s.threes + s.fours + s.sixes
  }

  function StatFor(p: Player, events: seq<BallRecord>, totalOvers: int): PlayerStat
  {
    var playerBalls := Filter(events, ByBatter(p.name));
    PlayerStat(p, RunsPerOver(playerBalls, totalOvers), Shots(playerBalls))
  }

  /** `getPlayerStats()`: one entry per player of team 1 then team 2. */
  function PlayerStats(team1: seq<Player>, team2: seq<Player>, events: seq<BallRecord>, totalOvers: int)
    : seq<PlayerStat>
  {
    var all := team1 + team2;
    seq(|all|, i requires 0 <= i < |all| => StatFor(all[i], events, totalOvers))
  }

  /** The player statistics follow the rosters: team 1 first, each in roster order. */
  lemma PlayerStatsOrder(team1: seq<Player>, team2: seq<Player>, events: seq<BallRecord>, totalOvers: int)
    ensures var r := PlayerStats(team1, team2, events, totalOvers);
      && |r| == |team1| + |team2|
      && (forall i :: 0 <= i < |team1| ==> r[i].player == team1[i])
      && (forall j :: 0 <= j < |team2| ==> r[|team1| + j].player == team2[j])
  {
  }

  /** Entry i of `runsPerOver` is over i + 1 with the batter's runs in that over. */
  lemma RunsPerOverEntry(events: seq<BallRecord>, name: string, totalOvers: int, i: nat)
    requires i < OverCount(totalOvers)
    ensures var r := RunsPerOver(Filter(events, ByBatter(name)), totalOvers);
      && |r| == OverCount(totalOvers) && r[i].over == i + 1
      && r[i].runs == SumRuns(Filter(events, Both(ByBatter(name), InOver(i + 1))))
  {
    FilterTwice(events, ByBatter(name), InOver(i + 1));
  }

  /**
   * `runsPerOver` has one entry per over of the format (none when the format
   * is zero or negative), numbered from 1, and entry i holds the runs of this
   * batter's balls in over i + 1.
   */
  lemma RunsPerOverMeaning(events: seq<BallRecord>, name: string, totalOvers: int)
    ensures var r := RunsPerOver(Filter(events, ByBatter(name)), totalOvers);
      && |r| == OverCount(totalOvers)
      && (totalOvers <= 0 ==> r == [])
      && forall i :: 0 <= i < |r| ==>
           r[i].over == i + 1
           && r[i].runs == SumRuns(Filter(events, Both(ByBatter(name), InOver(i + 1))))
  {
    var r := RunsPerOver(Filter(events, ByBatter(name)), totalOvers);
    forall i | 0 <= i < |r|
      ensures r[i].over == i + 1
      ensures r[i].runs == SumRuns(Filter(events, Both(ByBatter(name), InOver(i + 1))))
    {
      RunsPerOverEntry(events, name, totalOvers, i);
    }
  }

  /** Each ball lands in at most one of the six buckets. */
  lemma {:induction false} ShotsBound(balls: seq<BallRecord>)
    ensures ShotTotal(Shots(balls)) <= |balls|
    decreases |balls|
  {
    if balls != [] {
      var init := balls[..|balls| - 1];
      ShotsBound(init);
    }
  }

  /**
   * Shot buckets: each counts the batter's balls whose runs equal the bucket's
   * value exactly, and together they count at most the batter's balls.
   */
  lemma ShotsMeaning(events: seq<BallRecord>, name: string)
    ensures var pb := Filter(events, ByBatter(name));
      var s := Shots(pb);
      && s.dots == |Filter(events, Both(ByBatter(name), WithRuns(0)))|
      && s.singles == |Filter(events, Both(ByBatter(name), WithRuns(1)))|
      && s.twos == |Filter(events, Both(ByBatter(name), WithRuns(2)))|
      && s.threes == |Filter(events, Both(ByBatter(name), WithRuns(3)))|
      && s.fours == |Filter(events, Both(ByBatter(name), WithRuns(4)))|
      && s.sixes == |Filter(events, Both(ByBatter(name), WithRuns(6)))|
      && ShotTotal(s) <= |pb|
  {
    var pb := Filter(events, ByBatter(name));
    FilterTwice(events, ByBatter(name), WithRuns(0));
    FilterTwice(events, ByBatter(name), WithRuns(1));
    FilterTwice(events, ByBatter(name), WithRuns(2));
    FilterTwice(events, ByBatter(name), WithRuns(3));
    FilterTwice(events, ByBatter(name), WithRuns(4));
    FilterTwice(events, ByBatter(name), WithRuns(6));
    ShotsBound(pb);
  }

  // ---------------------------------------------------------------------------
  // getBowlerStats (:64-84)
  // ---------------------------------------------------------------------------

  /** A bowler's record with its derived statistics; the economy is left out. */
  datatype BowlerStat = BowlerStat(
    player: Player,
    runsGiven: int,
    wickets: nat,
    ballsBowled: nat,
    oversWhole: nat,
    oversBalls: nat)

  /** `player.type === 'bowler' || player.type === 'all-rounder'`. */
  predicate Bowls(p: Player)
  {
    p.kind == Some("bowler") || p.kind == Some("all-rounder")
  }

  /** `allPlayers.filter(...)` (:66-67). */
  function Bowlers(ps: seq<Player>): (r: seq<Player>)
    ensures |r| <= |ps|
  {
    if ps == [] then []
    else
      var rest := Bowlers(ps[..|ps| - 1]);
      if Bowls(ps[|ps| - 1]) then rest + [ps[|ps| - 1]] else rest
  }

  /** The bowler selection keeps exactly the bowlers and all-rounders. */
  lemma {:induction false} BowlersMembers(ps: seq<Player>)
    ensures forall p :: p in Bowlers(ps) <==> p in ps && Bowls(p)
    decreases |ps|
  {
    if ps != [] {
      var init := ps[..|ps| - 1];
      BowlersMembers(init);
      assert ps == init + [ps[|ps| - 1]];
    }
  }

  /** The selection keeps roster order, so team 1's bowlers come first. */
  lemma {:induction false} BowlersAppend(a: seq<Player>, b: seq<Player>)
    ensures Bowlers(a + b) == Bowlers(a) + Bowlers(b)
    decreases |b|
  {
    if b != [] {
      var init := b[..|b| - 1];
      BowlersAppend(a, init);
      assert (a + b)[..|a + b| - 1] == a + init;
    } else {
      assert a + b == a;
    }
  }

  /** `Math.floor(n / 6)` and `n % 6`, the integer parts of `oversBowled`. */
  function OversNotation(n: nat): (r: (nat, nat))
    ensures r.0 * 6 + r.1 == n
    ensures r.1 < 6
  {
    (n / 6, n % 6)
  }

  function BowlerStatFor(p: Player, events: seq<BallRecord>): BowlerStat
  {
    var bowlerBalls := Filter(events, ByBowler(p.name));
    var n := |bowlerBalls|;
    var (whole, part) := OversNotation(n);
    BowlerStat(p, SumRuns(bowlerBalls), |Filter(bowlerBalls, Wickets)|, n, whole, part)
  }

  /** `getBowlerStats()`. */
  function BowlerStats(team1: seq<Player>, team2: seq<Player>, events: seq<BallRecord>): seq<BowlerStat>
  {
    var bowlers := Bowlers(team1 + team2);
    seq(|bowlers|, i requires 0 <= i < |bowlers| => BowlerStatFor(bowlers[i], events))
  }

  /** The bowler entries: the bowlers and all-rounders of team 1, then those of team 2, in roster order. */
  lemma BowlerStatsOrder(team1: seq<Player>, team2: seq<Player>, events: seq<BallRecord>)
    ensures var r := BowlerStats(team1, team2, events);
      && |r| == |Bowlers(team1)| + |Bowlers(team2)|
      && (forall i :: 0 <= i < |r| ==> r[i].player in team1 + team2 && Bowls(r[i].player))
      && (forall p :: p in team1 + team2 && Bowls(p) ==> exists i :: 0 <= i < |r| && r[i].player == p)
      && (forall i :: 0 <= i < |Bowlers(team1)| ==> r[i].player == Bowlers(team1)[i])
      && (forall j :: 0 <= j < |Bowlers(team2)| ==> r[|Bowlers(team1)| + j].player == Bowlers(team2)[j])
  {
    var r := BowlerStats(team1, team2, events);
    BowlerStatsCover(team1, team2, events);
    BowlersAppend(team1, team2);
    StatsFollowBowlers(Bowlers(team1), Bowlers(team2), r);
  }

  /** The bowler entries are exactly the bowlers and all-rounders of both rosters. */
  lemma BowlerStatsCover(team1: seq<Player>, team2: seq<Player>, events: seq<BallRecord>)
    ensures var r := BowlerStats(team1, team2, events);
      && (forall i :: 0 <= i < |r| ==> r[i].player in team1 + team2 && Bowls(r[i].player))
      && (forall p :: p in team1 + team2 && Bowls(p) ==> exists i :: 0 <= i < |r| && r[i].player == p)
  {
    var r := BowlerStats(team1, team2, events);
    var bowlers := Bowlers(team1 + team2);
    BowlersMembers(team1 + team2);
    forall i | 0 <= i < |r| ensures r[i].player in team1 + team2 && Bowls(r[i].player) {
      assert r[i].player == bowlers[i] && bowlers[i] in bowlers;
    }
    forall p | p in team1 + team2 && Bowls(p)
      ensures exists i :: 0 <= i < |r| && r[i].player == p
    {
      var i :| 0 <= i < |bowlers| && bowlers[i] == p;
      assert r[i].player == p;
    }
  }

  /** Entries made one per bowler of `b1 + b2`, in order, follow `b1` and then `b2`. */
  lemma StatsFollowBowlers(b1: seq<Player>, b2: seq<Player>, r: seq<BowlerStat>)
    requires |r| == |b1 + b2| && forall i :: 0 <= i < |r| ==> r[i].player == (b1 + b2)[i]
    ensures forall i :: 0 <= i < |b1| ==> r[i].player == b1[i]
    ensures forall j :: 0 <= j < |b2| ==> r[|b1| + j].player == b2[j]
  {
    forall j | 0 <= j < |b2| ensures r[|b1| + j].player == b2[j] {
      assert r[|b1| + j].player == (b1 + b2)[|b1| + j];
    }
  }

  /**
   * Each bowler entry's totals: balls bowled are the ledger entries naming the
   * bowler, runs given the sum of those entries' runs, wickets those with the
   * wicket flag (so never more than the balls), and the overs notation splits
   * the balls into whole overs and 0..5 remaining balls.
   */
  lemma BowlerStatsTotals(team1: seq<Player>, team2: seq<Player>, events: seq<BallRecord>)
    ensures var r := BowlerStats(team1, team2, events);
      forall i :: 0 <= i < |r| ==>
        var bb := Filter(events, ByBowler(r[i].player.name));
        && r[i].ballsBowled == |bb| && r[i].runsGiven == SumRuns(bb)
        && r[i].wickets == |Filter(events, Both(ByBowler(r[i].player.name), Wickets))|
        && r[i].wickets <= r[i].ballsBowled
        && r[i].oversWhole * 6 + r[i].oversBalls == r[i].ballsBowled && r[i].oversBalls < 6
  {
    var r := BowlerStats(team1, team2, events);
    forall i | 0 <= i < |r|
      ensures r[i].wickets == |Filter(events, Both(ByBowler(r[i].player.name), Wickets))|
    {
      FilterTwice(events, ByBowler(r[i].player.name), Wickets);
    }
  }

  // ---------------------------------------------------------------------------
  // runRateData (:91-101)
  // ---------------------------------------------------------------------------

  /** An entry of the run-rate series; the floating-point rate is left out. */
  datatype RatePoint = RatePoint(ball: nat, cumulativeRuns: int)

  /** The `reduce` after its first n steps: each step appends one entry. */
  function RunRatePrefix(events: seq<BallRecord>, n: nat): seq<RatePoint>
    requires n <= |events|
  {
    if n == 0 then []
    else RunRatePrefix(events, n - 1) + [RatePoint(n, SumRuns(events[..n]))]
  }

  function RunRateData(events: seq<BallRecord>): seq<RatePoint>
  {
    RunRatePrefix(events, |events|)
  }

  lemma {:induction false} RunRatePrefixAt(events: seq<BallRecord>, n: nat)
    requires n <= |events|
    ensures |RunRatePrefix(events, n)| == n
    ensures forall i :: 0 <= i < n ==>
      RunRatePrefix(events, n)[i] == RatePoint(i + 1, SumRuns(events[..i + 1]))
  {
    if n > 0 {
      RunRatePrefixAt(events, n - 1);
    }
  }

  /**
   * The series has one entry per ball event; entry i is ball i + 1 with the
   * runs of events 0..i, so the last entry carries the ledger's total, and the
   * series never decreases when no event has negative runs.
   */
  lemma RunRateSeries(events: seq<BallRecord>)
    ensures var r := RunRateData(events);
      && |r| == |events|
      && (forall i :: 0 <= i < |r| ==> r[i].ball == i + 1 && r[i].cumulativeRuns == SumRuns(events[..i + 1]))
      && (|r| > 0 ==> r[|r| - 1].cumulativeRuns == SumRuns(events))
      && ((forall e :: e in events ==> e.runs >= 0) ==>
            forall i, j :: 0 <= i <= j < |r| ==> r[i].cumulativeRuns <= r[j].cumulativeRuns)
  {
    RunRatePrefixAt(events, |events|);
    assert events[..|events|] == events;
    var r := RunRateData(events);
    if forall e :: e in events ==> e.runs >= 0 {
      forall i, j | 0 <= i <= j < |r|
        ensures r[i].cumulativeRuns <= r[j].cumulativeRuns
      {
        SumRunsPrefixMonotone(events, i + 1, j + 1);
      }
    }
  }
}
