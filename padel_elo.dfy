/** The pure rating arithmetic of the padel ELO engine: the strength of a
    two-player team, the predicted race-to-target score of a match, and the
    signed rating change that comparing the prediction with the actual score
    produces. */
module PadelElo {
  import opened Numeric

  /** A win probability rounded to two decimals, counted in hundredths. */
  type Hundredths = p: int | 0 <= p <= 100

  /** Team 1's logistic win probability 1 / (1 + 10^(-lead / 400)), as a
      function of team 1's lead over team 2 after the gap clamp. The
      floating-point formula itself is not modelled: every operation that
      needs it takes it as a parameter. */
  type WinChance = int -> Hundredths

  /** The imbalance penalty alpha = 1/4 of compute_team_elo, as a fraction. */
  const DefaultAlphaNum: int := 1
  const DefaultAlphaDen: int := 4
  /** Largest rating gap the prediction takes into account. */
  const MaxGap: int := 400
  /** Race-to value and deviation weight used when ratings are updated. */
  const DefaultTarget: int := 8
  const DefaultBeta: int := 7
  /** Games-played thresholds of the two calibration tiers. */
  const FastTierGames: nat := 10
  const SlowTierGames: nat := 20

  /** The exact logistic gives a lead and the opposite lead complementary
      chances; the model's symmetry results assume the same of winChance. */
  ghost predicate Complementary(winChance: WinChance)
  {
    forall d :: winChance(-d) == 100 - winChance(d)
  }

  // ---------------------------------------------------------------------
  // Team strength
  // ---------------------------------------------------------------------

  /** round((stronger + weaker) / 2 - alpha * (stronger - weaker)) with
      alpha = alphaNum / alphaDen, rounding half to even as Python does. */
  function ComputeTeamElo(player1: int, player2: int, alphaNum: int, alphaDen: int): (r: int)
    requires alphaDen > 0
    ensures player1 == player2 ==> r == player1
    ensures 0 <= alphaNum && 2 * alphaNum <= alphaDen ==>
              Min(player1, player2) <= r <= CeilDiv(player1 + player2, 2)
    ensures 0 < alphaNum ==> 2 * r <= player1 + player2
  {
    var stronger := Max(player1, player2);
    var weaker := Min(player1, player2);
    // both terms over the common denominator 2 * alphaDen
    var num := (stronger + weaker) * alphaDen - 2 * alphaNum * (stronger - weaker);
    var r := RoundHalfEven(num, 2 * alphaDen);
    TeamEloBounds(stronger, weaker, alphaNum, alphaDen, num, r);
    r
  }

  lemma TeamEloBounds(s: int, w: int, an: int, ad: int, num: int, r: int)
    requires w <= s && ad > 0
    requires num == (s + w) * ad - 2 * an * (s - w)
    requires r == RoundHalfEven(num, 2 * ad)
    ensures s == w ==> r == s
    ensures 0 <= an && 2 * an <= ad ==> w <= r <= CeilDiv(s + w, 2)
    ensures 0 < an ==> 2 * r <= s + w
  {
    var den := 2 * ad;
    var rd := r * den;
    assert -den <= 2 * (num - rd) <= den;
    if s == w {
      assert num == s * den;
      TeamEloEqual(s, den, rd, r);
    } else if 0 < an {
      TeamEloBelowAverage(s, w, an, ad, num, rd, r);
    }
    if 0 <= an && 2 * an <= ad {
      TeamEloNumBounds(s, w, an, ad, num);
      TeamEloBetween(s, w, ad, num, rd, r);
    }
  }

  /** A positive penalty puts the rounded rating of an unequal pair at or
      below the plain average: the quotient lies strictly below it, so even
      rounding up cannot pass it. */
  lemma TeamEloBelowAverage(s: int, w: int, an: int, ad: int, num: int, rd: int, r: int)
    requires w < s && 0 < an && ad > 0 && rd == r * (2 * ad)
    requires num == (s + w) * ad - 2 * an * (s - w)
    requires -(2 * ad) <= 2 * (num - rd)
    ensures 2 * r <= s + w
  {
    var den := 2 * ad;
    MulLe(1, s - w, 2 * an);
    assert 2 * num < (s + w) * den;
    assert den * (2 * r) == 2 * rd;
    assert den * (s + w + 1) == (s + w) * den + den;
    CancelLt(2 * r, s + w + 1, den);
  }

  lemma TeamEloNumBounds(s: int, w: int, an: int, ad: int, num: int)
    requires w <= s && 0 <= an && 2 * an <= ad
    requires num == (s + w) * ad - 2 * an * (s - w)
    ensures w * (2 * ad) <= num <= (s + w) * ad
  {
    MulLe(0, s - w, ad - 2 * an);
    assert num - w * (2 * ad) == (ad - 2 * an) * (s - w);
    MulLe(0, s - w, 2 * an);
  }

  lemma TeamEloEqual(s: int, den: int, rd: int, r: int)
    requires den > 0 && rd == r * den
    requires -den <= 2 * (s * den - rd) <= den
    ensures r == s
  {
    assert 2 * (s * den - rd) == den * (2 * (s - r));
    CancelLe(2 * (s - r), 1, den);
    CancelLe(-1, 2 * (s - r), den);
  }

  lemma TeamEloBetween(s: int, w: int, ad: int, num: int, rd: int, r: int)
    requires ad > 0 && rd == r * (2 * ad)
    requires -(2 * ad) <= 2 * (num - rd) <= 2 * ad
    requires w * (2 * ad) <= num <= (s + w) * ad
    ensures w <= r <= CeilDiv(s + w, 2)
  {
    var den := 2 * ad;
    CeilDivBounds(s + w, 2);
    assert den * (2 * w) == 2 * (w * den);
    assert den * (1 + 2 * r) == den + 2 * rd;
    CancelLe(2 * w, 1 + 2 * r, den);
    assert den * (2 * r - 1) == 2 * rd - den;
    assert den * (s + w) == 2 * ((s + w) * ad);
    CancelLe(2 * r - 1, s + w, den);
  }

  /** compute_team_elo does not depend on the order of the two players. */
  lemma TeamEloSymmetric(player1: int, player2: int, alphaNum: int, alphaDen: int)
    requires alphaDen > 0
    ensures ComputeTeamElo(player1, player2, alphaNum, alphaDen)
         == ComputeTeamElo(player2, player1, alphaNum, alphaDen)
  {
  }

  /** With the default alpha = 1/4 the team rating is exactly
      round((stronger + 3 * weaker) / 4). */
  lemma TeamEloDefaultAlpha(player1: int, player2: int)
    ensures ComputeTeamElo(player1, player2, DefaultAlphaNum, DefaultAlphaDen)
         == RoundHalfEven(Max(player1, player2) + 3 * Min(player1, player2), 4)
  {
    var s, w := Max(player1, player2), Min(player1, player2);
    assert (s + w) * 4 - 2 * 1 * (s - w) == 2 * (s + 3 * w);
    RoundHalfEvenDouble(s + 3 * w);
  }

  // ---------------------------------------------------------------------
  // Prediction
  // ---------------------------------------------------------------------

  /** The rating-gap clamp: when the teams are more than MaxGap apart, the
      weaker team's rating is raised to the stronger one's minus MaxGap. */
  function ClampGap(team1: int, team2: int): (r: (int, int))
    ensures Abs(r.0 - r.1) <= MaxGap
    ensures Max(r.0, r.1) == Max(team1, team2)
    ensures team1 <= r.0 && team2 <= r.1
    ensures r.0 != team1 ==> r.0 == r.1 - MaxGap
    ensures r.1 != team2 ==> r.1 == r.0 - MaxGap
    ensures Abs(team1 - team2) <= MaxGap ==> r == (team1, team2)
  {
    if Abs(team1 - team2) > MaxGap then
      if team1 > team2 then (team1, team1 - MaxGap) else (team2 - MaxGap, team2)
    else
      (team1, team2)
  }

  /** Team 1's lead over team 2 after the clamp: the argument of the
      logistic formula. */
  function ClampedLead(team1: int, team2: int): (d: int)
    ensures -MaxGap <= d <= MaxGap
    ensures Abs(team1 - team2) <= MaxGap ==> d == team1 - team2
    ensures team1 - team2 > MaxGap ==> d == MaxGap
    ensures team2 - team1 > MaxGap ==> d == -MaxGap
  {
    var c := ClampGap(team1, team2);
    c.0 - c.1
  }

  /** expected_score: each side's predicted score is
      ceil(target / max(p1, p2) * p), for the probabilities p1 and p2 = 1 - p1
      of the clamped ratings. The favourite is predicted exactly target, the
      other side the least integer at or above its proportional share. */
  function ExpectedScore(team1: int, team2: int, target: int, winChance: WinChance): (r: (int, int))
    ensures var p := winChance(ClampedLead(team1, team2));
      && (p >= 50 ==> r.0 == target)
      && (p <= 50 ==> r.1 == target)
      && (target >= 0 ==> 0 <= r.0 <= target && 0 <= r.1 <= target)
  {
    var p1: int := winChance(ClampedLead(team1, team2));
    var p2 := 100 - p1;
    var m := Max(p1, p2);
    ScoreShare(target, p1, m);
    ScoreShare(target, p2, m);
    (CeilDiv(target * p1, m), CeilDiv(target * p2, m))
  }

  lemma ScoreShare(target: int, p: int, m: int)
    requires 0 <= p <= m && m > 0
    ensures p == m ==> CeilDiv(target * p, m) == target
    ensures target >= 0 ==> 0 <= CeilDiv(target * p, m) <= target
  {
    var c := CeilDiv(target * p, m);
    CeilDivBounds(target * p, m);
    if p == m {
      CeilUnique(target * m, m, target);
    }
    if target >= 0 {
      MulLe(p, m, target);
      MulLe(0, p, target);
      assert m * (c - 1) == m * c - m;
      assert target * m == m * target;
      CancelLt(c - 1, target, m);
      assert m * 0 == 0;
      CancelLe(0, c, m);
    }
  }

  /** Each predicted score is the least integer at or above the side's
      share target * p / max(p1, p2). */
  lemma ExpectedScoreCeiling(team1: int, team2: int, target: int, winChance: WinChance)
    ensures var p := winChance(ClampedLead(team1, team2));
            var m := Max(p, 100 - p);
            var r := ExpectedScore(team1, team2, target, winChance);
      && m * r.0 - m < target * p <= m * r.0
      && m * r.1 - m < target * (100 - p) <= m * r.1
  {
    var p := winChance(ClampedLead(team1, team2));
    var m := Max(p, 100 - p);
    CeilDivBounds(target * p, m);
    CeilDivBounds(target * (100 - p), m);
  }

  /** Ratings further apart than MaxGap predict the same score as ratings
      exactly MaxGap apart: (1000, 0) predicts what (1000, 600) does. */
  lemma ExpectedScoreGapCapped(team1: int, team2: int, target: int, winChance: WinChance)
    requires Abs(team1 - team2) > MaxGap
    ensures team1 > team2 ==>
      ExpectedScore(team1, team2, target, winChance) == ExpectedScore(team1, team1 - MaxGap, target, winChance)
    ensures team1 < team2 ==>
      ExpectedScore(team1, team2, target, winChance) == ExpectedScore(team2 - MaxGap, team2, target, winChance)
  {
  }

  /** Swapping the teams swaps the predicted scores. */
  lemma ExpectedScoreMirror(team1: int, team2: int, target: int, winChance: WinChance)
    requires Complementary(winChance)
    ensures var e := ExpectedScore(team1, team2, target, winChance);
      ExpectedScore(team2, team1, target, winChance) == (e.1, e.0)
  {
    var d := ClampedLead(team1, team2);
    assert ClampedLead(team2, team1) == -d;
    assert winChance(-d) == 100 - winChance(d);
  }

  // ---------------------------------------------------------------------
  // Rating change
  // ---------------------------------------------------------------------

  /** compare_scores: how much team 1 beat its prediction, minus how much
      team 2 beat its own. */
  function CompareScores(score1: int, score2: int, expected: (int, int)): (val: int)
    ensures val == (score1 - expected.0) - (score2 - expected.1)
    ensures val == (score1 - score2) - (expected.0 - expected.1)
  {
    var delta := (expected.0 - score1, expected.1 - score2);
    - delta.0 + delta.1
  }

  /** Exchanging the two teams' actual and predicted scores negates the
      comparison. */
  lemma CompareScoresAntisymmetric(score1: int, score2: int, expected: (int, int))
    ensures CompareScores(score2, score1, (expected.1, expected.0)) == -CompareScores(score1, score2, expected)
  {
  }

  /** elo_variation: beta times the comparison of the actual score with the
      predicted one. For beta > 0, team 1 gains exactly when its actual
      margin over team 2 exceeds the predicted margin, loses exactly when it
      falls short, and nothing moves when they agree. */
  function EloVariation(team1: int, team2: int, score: (int, int), target: int, beta: int,
                        winChance: WinChance): (r: int)
    ensures var e := ExpectedScore(team1, team2, target, winChance);
      beta > 0 ==>
        && (r > 0 <==> score.0 - score.1 > e.0 - e.1)
        && (r == 0 <==> score.0 - score.1 == e.0 - e.1)
        && (r < 0 <==> score.0 - score.1 < e.0 - e.1)
  {
    var e := ExpectedScore(team1, team2, target, winChance);
    SignOfMultiple(CompareScores(score.0, score.1, e), beta);
    CompareScores(score.0, score.1, e) * beta
  }

  lemma SignOfMultiple(x: int, k: int)
    ensures k > 0 ==> (x * k > 0 <==> x > 0)
    ensures k > 0 ==> (x * k == 0 <==> x == 0)
  {
    if k <= 0 {
    } else if x > 0 {
      MulLe(1, x, k);
    } else if x < 0 {
      MulLe(x, -1, k);
    }
  }

  /** Swapping the teams and their scores negates the rating change, when
      the win chances are complementary. */
  lemma EloVariationMirror(team1: int, team2: int, score1: int, score2: int, target: int, beta: int,
                           winChance: WinChance)
    requires Complementary(winChance)
    ensures EloVariation(team2, team1, (score2, score1), target, beta, winChance)
         == -EloVariation(team1, team2, (score1, score2), target, beta, winChance)
  {
    var e := ExpectedScore(team1, team2, target, winChance);
    ExpectedScoreMirror(team1, team2, target, winChance);
    var c := CompareScores(score1, score2, e);
    assert CompareScores(score2, score1, (e.1, e.0)) == -c;
    assert (-c) * beta == -(c * beta);
  }

  // ---------------------------------------------------------------------
  // Calibration damping
  // ---------------------------------------------------------------------

  /** The change a player receives from a team change teamVar, given the
      games the player had played before: truncated teamVar * 17 / 7 below
      FastTierGames, truncated teamVar * 13 / 7 below SlowTierGames, and
      teamVar itself afterwards. A change is never weakened. */
  function Damp(teamVar: int, gamesBefore: nat): (r: int)
    ensures teamVar >= 0 ==> teamVar <= r
    ensures teamVar <= 0 ==> r <= teamVar
  {
    if gamesBefore < FastTierGames then TruncDiv(teamVar * 17, 7)
    else if gamesBefore < SlowTierGames then TruncDiv(teamVar * 13, 7)
    else teamVar
  }

  /** A multiple of 7, which is every change elo_variation produces with
      beta = 7, is scaled by 17/7 or 13/7 without truncation. */
  lemma DampExact(teamVar: int, gamesBefore: nat)
    requires teamVar % 7 == 0
    ensures 7 * Damp(teamVar, gamesBefore)
         == teamVar * (if gamesBefore < FastTierGames then 17 else if gamesBefore < SlowTierGames then 13 else 7)
  {
    var k := teamVar / 7;
    assert teamVar * 17 == (k * 17) * 7 && teamVar * 13 == (k * 13) * 7;
    TruncDivExact(k * 17, 7);
    TruncDivExact(k * 13, 7);
  }

  /** Which of the three damping tiers a games count falls in. */
  function Tier(gamesBefore: nat): (t: nat)
    ensures t <= 2
    ensures t == 0 <==> gamesBefore < FastTierGames
    ensures t == 2 <==> SlowTierGames <= gamesBefore
  {
    if gamesBefore < FastTierGames then 0 else if gamesBefore < SlowTierGames then 1 else 2
  }

  /** The damping depends on the games count only through its tier, and
      because it truncates toward zero it is odd: opposite team changes give
      opposite player changes. */
  lemma DampOdd(teamVar: int, gamesBefore: nat, otherGames: nat)
    requires Tier(gamesBefore) == Tier(otherGames)
    ensures Damp(-teamVar, otherGames) == -Damp(teamVar, gamesBefore)
  {
    assert (-teamVar) * 17 == -(teamVar * 17);
    assert (-teamVar) * 13 == -(teamVar * 13);
    TruncDivNeg(teamVar * 17, 7);
    TruncDivNeg(teamVar * 13, 7);
  }

  /** A raw change of 7 becomes 17, 13 and 7 for players with 0, 15 and 25
      games behind them. */
  lemma DampExamples()
    ensures Damp(7, 0) == 17 && Damp(7, 15) == 13 && Damp(7, 25) == 7
    ensures Damp(-7, 0) == -17 && Damp(1, 0) == 2 && Damp(-1, 0) == -2
    ensures Damp(35, 0) == 85 && Damp(-35, 0) == -85
  {
  }
}
