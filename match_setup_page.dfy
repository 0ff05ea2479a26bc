/*
 * The setup page, src/pages/MatchSetup.tsx. Its two handlers repeat the
 * setup screen's code (module MatchSetup) line for line; submitting on the
 * page then routes back to the scoreboard, returned here as the path.
 */
module MatchSetupPage {
  import opened CricketModel
  import MatchSetup

  /** `handlePlayerChange` (:51-61). */
  method HandlePlayerChange(teamIndex: int, playerIndex: nat, field: MatchSetup.Field, value: string,
                            team1Players: seq<MatchSetup.Entry>, team2Players: seq<MatchSetup.Entry>)
    returns (new1: seq<MatchSetup.Entry>, new2: seq<MatchSetup.Entry>)
    requires playerIndex < |if teamIndex == 1 then team1Players else team2Players|
    ensures teamIndex == 1 ==>
      new2 == team2Players && MatchSetup.OnlyFieldChanged(team1Players, new1, playerIndex, field, value)
    ensures teamIndex != 1 ==>
      new1 == team1Players && MatchSetup.OnlyFieldChanged(team2Players, new2, playerIndex, field, value)
  {
    new1, new2 := MatchSetup.HandlePlayerChange(teamIndex, playerIndex, field, value,
                                                team1Players, team2Players);
  }

  /** `handleSubmit` (:63-128): the same two dispatches, then `navigate('/')`. */
  method HandleSubmit(form: MatchSetup.Form) returns (dispatched: seq<Action>, route: string)
    ensures MatchSetup.Submitted(form, dispatched)
    ensures route == "/"
  {
    dispatched := MatchSetup.HandleSubmit(form);
    route := "/";
  }
}
