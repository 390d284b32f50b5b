/** A second copy of the team strength formula, and the win percentages of
    two teams, computed from the same gap clamp as the rating engine's
    prediction. */
module StreamlitFunc {
  import opened Numeric
  import PadelElo

  /** compute_team_elo as this file defines it: the same penalised average,
      rounded half to even, with alpha = alphaNum / alphaDen. */
  function ComputeTeamElo(player1: int, player2: int, alphaNum: int, alphaDen: int): (r: int)
    requires alphaDen > 0
    ensures r == PadelElo.ComputeTeamElo(player1, player2, alphaNum, alphaDen)
  {
    var stronger := Max(player1, player2);
    var weaker := Min(player1, player2);
    RoundHalfEven((stronger + weaker) * alphaDen - 2 * alphaNum * (stronger - weaker), 2 * alphaDen)
  }

  /** The copy inherits the engine's properties: it ignores the order of
      the players, it gives r for two players rated r, and with
      0 <= alpha <= 1/2 it lies between the weaker rating and the rounded-up
      average; with alpha > 0 it is at most the plain average. */
  lemma TeamEloProperties(player1: int, player2: int, alphaNum: int, alphaDen: int)
    requires alphaDen > 0
    ensures ComputeTeamElo(player1, player2, alphaNum, alphaDen)
         == ComputeTeamElo(player2, player1, alphaNum, alphaDen)
    ensures player1 == player2 ==> ComputeTeamElo(player1, player2, alphaNum, alphaDen) == player1
    ensures 0 <= alphaNum && 2 * alphaNum <= alphaDen ==>
      Min(player1, player2) <= ComputeTeamElo(player1, player2, alphaNum, alphaDen) <= CeilDiv(player1 + player2, 2)
    ensures 0 < alphaNum ==> 2 * ComputeTeamElo(player1, player2, alphaNum, alphaDen) <= player1 + player2
  {
    PadelElo.TeamEloSymmetric(player1, player2, alphaNum, alphaDen);
  }

  /** The clamp at the start of percentage_of_winning: a gap above MaxGap
      raises the weaker rating to the stronger one minus MaxGap. */
  function ClampGap(team1: int, team2: int): (r: (int, int))
    ensures r == PadelElo.ClampGap(team1, team2)
  {
    if Abs(team1 - team2) > PadelElo.MaxGap then
      if team1 > team2 then (team1, team1 - PadelElo.MaxGap) else (team2 - PadelElo.MaxGap, team2)
    else
      (team1, team2)
  }

  /** After the clamp the ratings are at most MaxGap apart, the stronger
      rating is kept, only the weaker one moves, and only up to the
      stronger one minus MaxGap; close ratings are left alone. */
  lemma ClampGapProperties(team1: int, team2: int)
    ensures var r := ClampGap(team1, team2);
      && Abs(r.0 - r.1) <= PadelElo.MaxGap
      && Max(r.0, r.1) == Max(team1, team2)
      && team1 <= r.0 && team2 <= r.1
      && (r.0 != team1 ==> team1 < team2 && r.0 == team2 - PadelElo.MaxGap && r.1 == team2)
      && (r.1 != team2 ==> team2 < team1 && r.1 == team1 - PadelElo.MaxGap && r.0 == team1)
      && (Abs(team1 - team2) <= PadelElo.MaxGap ==> r == (team1, team2))
  {
  }

  /** percentage_of_winning: the two teams' chances, in whole percent, of
      the clamped ratings. winChance stands for the rounded logistic
      formula; target is unused, as in the source. */
  function PercentageOfWinning(team1: int, team2: int, target: int, winChance: PadelElo.WinChance): (r: (int, int))
    ensures 0 <= r.0 <= 100 && 0 <= r.1 <= 100
    ensures r.0 + r.1 == 100
    ensures r.0 == winChance(PadelElo.ClampedLead(team1, team2))
  {
    var c := ClampGap(team1, team2);
    var team1ToWin: int := winChance(c.0 - c.1);
    (team1ToWin, 100 - team1ToWin)
  }

  /** The percentages and the engine agree on the favourite: a team given at least
      even chances is the one the engine predicts to reach the target. */
  lemma FavouriteReachesTarget(team1: int, team2: int, target: int, winChance: PadelElo.WinChance)
    ensures PercentageOfWinning(team1, team2, target, winChance).0 >= 50 ==>
      PadelElo.ExpectedScore(team1, team2, target, winChance).0 == target
    ensures PercentageOfWinning(team1, team2, target, winChance).1 >= 50 ==>
      PadelElo.ExpectedScore(team1, team2, target, winChance).1 == target
  {
  }

  /** Swapping the teams swaps the percentages, when the win chances are
      complementary. */
  lemma PercentageMirror(team1: int, team2: int, target: int, winChance: PadelElo.WinChance)
    requires PadelElo.Complementary(winChance)
    ensures var r := PercentageOfWinning(team1, team2, target, winChance);
      PercentageOfWinning(team2, team1, target, winChance) == (r.1, r.0)
  {
    var c := ClampGap(team1, team2);
    assert ClampGap(team2, team1) == (c.1, c.0);
    assert winChance(c.1 - c.0) == 100 - winChance(c.0 - c.1);
  }
}
