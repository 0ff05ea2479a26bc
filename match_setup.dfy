/*
 * The roster logic of the setup screen, src/components/MatchSetup.tsx:48-123:
 * editing one field of one form row, and building the two rosters and the
 * toss keys that are dispatched on submit. The page src/pages/MatchSetup.tsx
 * repeats the same two handlers line for line (:51-61, :63-128), apart from
 * navigating to the scoreboard afterwards, so this module models both.
 */
module MatchSetup {
  import opened CricketModel

  /** One row of the form: `{name, type, role}`. */
  datatype Entry = Entry(name: string, kind: string, role: string)

  /** The field names the form passes to `handlePlayerChange`: 'name', 'type', 'role'. */
  datatype Field = NameField | TypeField | RoleField

  function FieldOf(e: Entry, f: Field): string
  {
    match f
    case NameField => e.name
    case TypeField => e.kind
    case RoleField => e.role
  }

  /** `{ ...entry, [field]: value }`. */
  function WithField(e: Entry, f: Field, v: string): (r: Entry)
    ensures FieldOf(r, f) == v
    ensures forall g :: g != f ==> FieldOf(r, g) == FieldOf(e, g)
  {
    match f
    case NameField => e.(name := v)
    case TypeField => e.(kind := v)
    case RoleField => e.(role := v)
  }

  /** `after` is `before` with only field `f` of row `i` set to `v`. */
  ghost predicate OnlyFieldChanged(before: seq<Entry>, after: seq<Entry>, i: nat, f: Field, v: string)
  {
    && |after| == |before| && i < |before|
    && (forall j :: 0 <= j < |before| && j != i ==> after[j] == before[j])
    && FieldOf(after[i], f) == v
    && forall g :: g != f ==> FieldOf(after[i], g) == FieldOf(before[i], g)
  }

  /**
   * `handlePlayerChange` (:48-58): copy the chosen team's rows and overwrite
   * one row with the field set. The form only calls it with the index of a
   * row it is showing.
   */
  method HandlePlayerChange(teamIndex: int, playerIndex: nat, field: Field, value: string,
                            team1Players: seq<Entry>, team2Players: seq<Entry>)
    returns (new1: seq<Entry>, new2: seq<Entry>)
    requires playerIndex < |if teamIndex == 1 then team1Players else team2Players|
    ensures teamIndex == 1 ==>
      new2 == team2Players && OnlyFieldChanged(team1Players, new1, playerIndex, field, value)
    ensures teamIndex != 1 ==>
      new1 == team1Players && OnlyFieldChanged(team2Players, new2, playerIndex, field, value)
  {
    new1, new2 := team1Players, team2Players;
    if teamIndex == 1 {
      var newPlayers := team1Players;
      newPlayers := newPlayers[playerIndex := WithField(newPlayers[playerIndex], field, value)];
      new1 := newPlayers;
    } else {
      var newPlayers := team2Players;
      newPlayers := newPlayers[playerIndex := WithField(newPlayers[playerIndex], field, value)];
      new2 := newPlayers;
    }
  }

  // ---------------------------------------------------------------------------
  // `name.trim()`
  // ---------------------------------------------------------------------------

  /** The white-space characters `trim` removes (the common ones; see README). */
  predicate IsSpace(c: char)
  {
    c == ' ' || c == '\t' || c == '\n' || c == '\r' || c == '\U{000B}' || c == '\U{000C}'
    || c == '\U{00A0}' || c == '\U{2028}' || c == '\U{2029}' || c == '\U{FEFF}'
  }

  /** The string without its leading white space. */
  function TrimStart(s: string): string
  {
    if s != [] && IsSpace(s[0]) then TrimStart(s[1..]) else s
  }

  /** `TrimStart` drops a white-space prefix and nothing else. */
  lemma {:induction false} TrimStartDrops(s: string)
    ensures var r := TrimStart(s);
      && |r| <= |s| && r == s[|s| - |r|..]
      && (forall i :: 0 <= i < |s| - |r| ==> IsSpace(s[i]))
      && (r == [] || !IsSpace(r[0]))
  {
    if s != [] && IsSpace(s[0]) {
      TrimStartDrops(s[1..]);
    }
  }

  /** The string without its trailing white space. */
  function TrimEnd(s: string): string
  {
    if s != [] && IsSpace(s[|s| - 1]) then TrimEnd(s[..|s| - 1]) else s
  }

  /** `TrimEnd` drops a white-space suffix and nothing else. */
  lemma {:induction false} TrimEndDrops(s: string)
    ensures var r := TrimEnd(s);
      && |r| <= |s| && r == s[..|r|]
      && (forall i :: |r| <= i < |s| ==> IsSpace(s[i]))
      && (r == [] || !IsSpace(r[|r| - 1]))
  {
    if s != [] && IsSpace(s[|s| - 1]) {
      TrimEndDrops(s[..|s| - 1]);
    }
  }

  function Trim(s: string): string
  {
    TrimEnd(TrimStart(s))
  }

  /** A name is dropped (`trim()` is falsy) exactly when it is all white space. */
  lemma TrimEmpty(s: string)
    ensures Trim(s) == [] <==> forall i :: 0 <= i < |s| ==> IsSpace(s[i])
    ensures Trim(s) != [] ==> !IsSpace(Trim(s)[0]) && !IsSpace(Trim(s)[|Trim(s)| - 1])
  {
    var front := TrimStart(s);
    TrimStartDrops(s);
    TrimEndDrops(front);
    if Trim(s) != [] {
      assert Trim(s)[0] == front[0];
    }
  }

  // ---------------------------------------------------------------------------
  // Building the rosters (:61-91)
  // ---------------------------------------------------------------------------

  /** `player.name.trim()` is truthy: the trimmed name is not empty. */
  predicate Named(e: Entry)
  {
    Trim(e.name) != []
  }

  /** `players.filter(player => player.name.trim())`. */
  function Kept(entries: seq<Entry>): (r: seq<Entry>)
    ensures |r| <= |entries|
  {
    if entries == [] then []
    else
      var rest := Kept(entries[..|entries| - 1]);
      var last := entries[|entries| - 1];
      if Named(last) then rest + [last] else rest
  }

  /** The kept rows are exactly the rows whose trimmed name is not empty. */
  lemma {:induction false} KeptMembers(entries: seq<Entry>)
    ensures forall e :: e in Kept(entries) <==> e in entries && Named(e)
    decreases |entries|
  {
    if entries != [] {
      var init := entries[..|entries| - 1];
      KeptMembers(init);
      assert entries == init + [entries[|entries| - 1]];
    }
  }

  /** Filtering keeps the input order. */
  lemma {:induction false} KeptAppend(a: seq<Entry>, b: seq<Entry>)
    ensures Kept(a + b) == Kept(a) + Kept(b)
    decreases |b|
  {
    if b != [] {
      var init := b[..|b| - 1];
      KeptAppend(a, init);
      assert (a + b)[..|a + b| - 1] == a + init;
    } else {
      assert a + b == a;
    }
  }

  /** The decimal digits of a number, as a template literal writes it. */
  function NatToString(n: nat): (s: string)
    ensures |s| >= 1
  {
    var d := ('0' as int + n % 10) as char;
    if n < 10 then [d] else NatToString(n / 10) + [d]
  }

  /** The index is written with decimal digits only. */
  lemma {:induction false} NatToStringDigits(n: nat)
    ensures forall i :: 0 <= i < |NatToString(n)| ==> '0' <= NatToString(n)[i] <= '9'
  {
    if n >= 10 {
      NatToStringDigits(n / 10);
    }
  }

  /** Different numbers are written differently. */
  lemma {:induction false} NatToStringInjective(a: nat, b: nat)
    requires NatToString(a) == NatToString(b)
    ensures a == b
  {
    var sa, sb := NatToString(a), NatToString(b);
    assert sa[|sa| - 1] == sb[|sb| - 1];
    assert a % 10 == b % 10;
    if a >= 10 && b >= 10 {
      assert sa[..|sa| - 1] == NatToString(a / 10);
      assert sb[..|sb| - 1] == NatToString(b / 10);
      NatToStringInjective(a / 10, b / 10);
    }
  }

  /** `` `team1_${index}` ``. */
  function RosterId(team: string, index: nat): string
  {
    team + "_" + NatToString(index)
  }

  /** Ids of one team differ by position, and the two teams' ids never meet. */
  lemma RosterIdsDistinct(i: nat, j: nat)
    ensures RosterId("team1", i) != RosterId("team2", j)
    ensures i != j ==> RosterId("team1", i) != RosterId("team1", j)
    ensures i != j ==> RosterId("team2", i) != RosterId("team2", j)
  {
    assert RosterId("team1", i)[4] != RosterId("team2", j)[4];
    if RosterId("team1", i) == RosterId("team1", j) {
      assert RosterId("team1", i)[6..] == NatToString(i);
      assert RosterId("team1", j)[6..] == NatToString(j);
      NatToStringInjective(i, j);
    }
    if RosterId("team2", i) == RosterId("team2", j) {
      assert RosterId("team2", i)[6..] == NatToString(i);
      assert RosterId("team2", j)[6..] == NatToString(j);
      NatToStringInjective(i, j);
    }
  }

  /** The player built from the kept row at `index`, before any opener flag is set. */
  function NewPlayer(e: Entry, team: string, index: nat): Player
  {
    Player(RosterId(team, index), Trim(e.name), Some(e.kind), Some(e.role),
           0, 0, 0, 0, false, None, false, false)
  }

  function BuildRoster(entries: seq<Entry>, team: string): seq<Player>
  {
    var kept := Kept(entries);
    seq(|kept|, i requires 0 <= i < |kept| => NewPlayer(kept[i], team, i))
  }

  // ---------------------------------------------------------------------------
  // handleSubmit (:60-123)
  // ---------------------------------------------------------------------------

  /** The form state `handleSubmit` reads. */
  datatype Form = Form(
    stadium: string,
    team1Name: string,
    team2Name: string,
    tossWinner: string,
    totalOvers: int,
    team1Players: seq<Entry>,
    team2Players: seq<Entry>)

  /** A player with both batting flags cleared. */
  function Unflagged(p: Player): Player
  {
    p.(isBatting := false, isOnStrike := false)
  }

  /**
   * `players` is the roster built from `entries` for `team`: one player per
   * kept row in row order, each (batting flags aside) the player `NewPlayer`
   * makes from that row at that position. The flags are described separately.
   */
  ghost predicate BuiltFrom(entries: seq<Entry>, team: string, players: seq<Player>)
  {
    var kept := Kept(entries);
    && |players| == |kept|
    && forall i :: 0 <= i < |players| ==> Unflagged(players[i]) == NewPlayer(kept[i], team, i)
  }

  /** `BuildRoster` builds the roster and sets no batting flag. */
  lemma BuildRosterBuilt(entries: seq<Entry>, team: string)
    ensures BuiltFrom(entries, team, BuildRoster(entries, team))
    ensures NoBatters(BuildRoster(entries, team))
  {
  }

  /** Nobody is batting or on strike. */
  ghost predicate NoBatters(players: seq<Player>)
  {
    forall i :: 0 <= i < |players| ==> !players[i].isBatting && !players[i].isOnStrike
  }

  /** Players 0 and 1 open, 0 on strike, when there are two; otherwise nobody bats. */
  ghost predicate OpenersSet(players: seq<Player>)
  {
    && (|players| >= 2 ==>
          && players[0].isBatting && players[0].isOnStrike
          && players[1].isBatting && !players[1].isOnStrike
          && NoBatters(players[2..]))
    && (|players| < 2 ==> NoBatters(players))
  }

  /**
   * What `handleSubmit` dispatches: SETUP_MATCH with the venue, toss, format
   * and the team keys (team 1 bats iff it won the toss by name, the bowling
   * key is the other one), then UPDATE_TEAMS with the two names and rosters.
   * Only team 1's openers are flagged, whoever won the toss.
   */
  ghost predicate Submitted(form: Form, dispatched: seq<Action>)
  {
    && |dispatched| == 2 && dispatched[0].SetupMatch? && dispatched[1].UpdateTeams?
    && var setup, t1, t2 := dispatched[0].matchData, dispatched[1].team1, dispatched[1].team2;
    && setup.stadium == form.stadium && setup.tossWinner == form.tossWinner
    && setup.totalOvers == form.totalOvers
    && (setup.battingTeam == Team1 <==> form.tossWinner == form.team1Name)
    && setup.bowlingTeam == Other(setup.battingTeam)
    && t1.name == form.team1Name && BuiltFrom(form.team1Players, "team1", t1.players)
    && OpenersSet(t1.players)
    && t2.name == form.team2Name && BuiltFrom(form.team2Players, "team2", t2.players)
    && NoBatters(t2.players)
  }

  /** Roster ids are `team1_i` / `team2_i` by position, so no two players share one. */
  lemma RosterIdsUnique(t1: seq<Player>, t2: seq<Player>)
    requires forall i :: 0 <= i < |t1| ==> t1[i].id == RosterId("team1", i)
    requires forall i :: 0 <= i < |t2| ==> t2[i].id == RosterId("team2", i)
    ensures forall i, j :: 0 <= i < j < |t1 + t2| ==> (t1 + t2)[i].id != (t1 + t2)[j].id
  {
    var all := t1 + t2;
    forall i, j | 0 <= i < j < |all| ensures all[i].id != all[j].id {
      if j < |t1| {
        RosterIdsDistinct(i, j);
      } else if i < |t1| {
        RosterIdsDistinct(i, j - |t1|);
      } else {
        RosterIdsDistinct(i - |t1|, j - |t1|);
      }
    }
  }

  /** Every kept row has a non-blank name. */
  lemma {:induction false} KeptNamed(entries: seq<Entry>)
    ensures forall i :: 0 <= i < |Kept(entries)| ==> Named(Kept(entries)[i])
    decreases |entries|
  {
    if entries != [] {
      KeptNamed(entries[..|entries| - 1]);
    }
  }

  /** Every built player's name is a trimmed, non-blank name. */
  lemma BuiltNamesTrimmed(entries: seq<Entry>, team: string, players: seq<Player>)
    requires BuiltFrom(entries, team, players)
    ensures forall i :: 0 <= i < |players| ==>
      (players[i].name != [] && !IsSpace(players[i].name[0]) && !IsSpace(players[i].name[|players[i].name| - 1]))
  {
    var kept := Kept(entries);
    KeptNamed(entries);
    forall i | 0 <= i < |players|
      ensures players[i].name != [] && !IsSpace(players[i].name[0]) && !IsSpace(players[i].name[|players[i].name| - 1])
    {
      assert Unflagged(players[i]) == NewPlayer(kept[i], team, i);
      assert players[i].name == Trim(kept[i].name);
      assert Named(kept[i]);
      TrimEmpty(kept[i].name);
    }
  }

  /** The built rosters: one player per kept row, all ids differ, names are trimmed and non-blank. */
  lemma SubmittedRosters(form: Form, dispatched: seq<Action>)
    requires Submitted(form, dispatched)
    ensures var all := dispatched[1].team1.players + dispatched[1].team2.players;
      && (forall i, j :: 0 <= i < j < |all| ==> all[i].id != all[j].id)
      && (forall i :: 0 <= i < |all| ==> (all[i].name != [] && !IsSpace(all[i].name[0]) && !IsSpace(all[i].name[|all[i].name| - 1])))
      && |dispatched[1].team1.players| == |Kept(form.team1Players)|
      && |dispatched[1].team2.players| == |Kept(form.team2Players)|
  {
    var t1, t2 := dispatched[1].team1.players, dispatched[1].team2.players;
    forall i | 0 <= i < |t1| ensures t1[i].id == RosterId("team1", i) {
      assert Unflagged(t1[i]) == NewPlayer(Kept(form.team1Players)[i], "team1", i);
    }
    forall i | 0 <= i < |t2| ensures t2[i].id == RosterId("team2", i) {
      assert Unflagged(t2[i]) == NewPlayer(Kept(form.team2Players)[i], "team2", i);
    }
    RosterIdsUnique(t1, t2);
    BuiltNamesTrimmed(form.team1Players, "team1", t1);
    BuiltNamesTrimmed(form.team2Players, "team2", t2);
    var all := t1 + t2;
    assert forall i :: 0 <= i < |all| ==> all[i] == if i < |t1| then t1[i] else t2[i - |t1|];
  }

  /** `handleSubmit`: build both rosters, flag team 1's openers in place, dispatch. */
  method HandleSubmit(form: Form) returns (dispatched: seq<Action>)
    ensures Submitted(form, dispatched)
  {
    var team1PlayersData := BuildRoster(form.team1Players, "team1");
    var team2PlayersData := BuildRoster(form.team2Players, "team2");
    BuildRosterBuilt(form.team1Players, "team1");
    BuildRosterBuilt(form.team2Players, "team2");
    ghost var built := team1PlayersData;
    if |team1PlayersData| >= 2 {
      team1PlayersData := team1PlayersData[0 := team1PlayersData[0].(isBatting := true)];
      team1PlayersData := team1PlayersData[0 := team1PlayersData[0].(isOnStrike := true)];
      team1PlayersData := team1PlayersData[1 := team1PlayersData[1].(isBatting := true)];
      team1PlayersData := team1PlayersData[1 := team1PlayersData[1].(isOnStrike := false)];
      OpenersFlagged(form.team1Players, built, team1PlayersData);
    }
    var battingTeam := if form.tossWinner == form.team1Name then Team1 else Team2;
    var bowlingTeam := if form.tossWinner == form.team1Name then Team2 else Team1;
    dispatched := [
      SetupMatch(MatchData(form.stadium, form.tossWinner, form.totalOvers, battingTeam, bowlingTeam)),
      UpdateTeams(TeamData(form.team1Name, team1PlayersData), TeamData(form.team2Name, team2PlayersData))
    ];
    SubmittedIntro(form, team1PlayersData, team2PlayersData, dispatched);
  }

  /** Flagging players 0 and 1 of a freshly built roster sets the openers and keeps the roster. */
  lemma OpenersFlagged(entries: seq<Entry>, built: seq<Player>, flagged: seq<Player>)
    requires BuiltFrom(entries, "team1", built) && NoBatters(built) && |built| >= 2
    requires flagged == built[0 := built[0].(isBatting := true, isOnStrike := true)]
                             [1 := built[1].(isBatting := true, isOnStrike := false)]
    ensures BuiltFrom(entries, "team1", flagged) && OpenersSet(flagged)
  {
    assert forall i :: 0 <= i < |built| ==> Unflagged(flagged[i]) == Unflagged(built[i]);
    assert flagged[2..] == built[2..];
  }

  /** The two dispatched actions, built from rosters with the right shape, are what `Submitted` describes. */
  lemma SubmittedIntro(form: Form, t1: seq<Player>, t2: seq<Player>, dispatched: seq<Action>)
    requires BuiltFrom(form.team1Players, "team1", t1) && OpenersSet(t1)
    requires BuiltFrom(form.team2Players, "team2", t2) && NoBatters(t2)
    requires var batting := if form.tossWinner == form.team1Name then Team1 else Team2;
      dispatched == [
        SetupMatch(MatchData(form.stadium, form.tossWinner, form.totalOvers, batting, Other(batting))),
        UpdateTeams(TeamData(form.team1Name, t1), TeamData(form.team2Name, t2))]
    ensures Submitted(form, dispatched)
  {
  }
}
