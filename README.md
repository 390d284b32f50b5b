# Padel ELO rating engine, modelled in Dafny

The engine rates padel players from a history of doubles matches. It has five parts:

- **Team strength.** Each team's strength is the average of its two player ratings, minus a penalty of `alpha` times their gap, rounded half to even.
- **Prediction.** The predicted score of a race-to-`target` match comes from the two win probabilities. Those are computed after the rating gap is clamped to 400.
- **Rating change.** Team 1's raw change is `beta` times how much team 1 beat its prediction, minus how much team 2 beat its own. Team 2 gets the negation.
- **Update.** The rating and games-played dictionaries are updated in place, record by record. Each player's change is damped by three tiers of the games that player has played before that player's update.
- **Export.** The ranking keeps players with at least 8 games, best rating first, numbered from 1.

A second file repeats the team-strength formula and the gap clamp, and turns the clamped gap into the two teams' win percentages.

Modules:

- `Numeric` (`numeric.dfy`): exact integer versions of Python's `round` (ties to even), `math.ceil` of a quotient and `int()` of a quotient (truncation toward zero).
- `PadelElo` (`padel_elo.dfy`): `compute_team_elo`, `expected_score`, `compare_scores`, `elo_variation` and the damping rule.
- `PadelExport` (`padel_export.dfy`): `create_elo_rating_file` without the file write.
- `PadelUpdate` (`padel_update.dfy`). It holds:
  - the map initialisation of `read_elo_ratings`;
  - a pure specification of `update_ratings` (`ApplyPlayer`, `ApplyAll`, `ApplyMatch`, `Replay`);
  - the class `RatingTable`. Its fields are the two dictionaries plus their key order. Its methods update the dictionaries in place, and each method is proved equal to the specification.
- `StreamlitFunc` (`streamlit_func.dfy`): the duplicate `compute_team_elo` and `percentage_of_winning`.

Modelling choices:

- **Win probability.** The logistic formula is floating point, and the source rounds it to two decimals. It is a parameter `winChance: int -> Hundredths`, applied to team 1's lead after the clamp. It returns hundredths, so `p2 = 100 - p1` is exact. Results that need the real formula's symmetry state it as the precondition `Complementary(winChance)`; the two worked examples `EvenMatchVar` and `FirstMatchExample` instead require even chances at no lead, `winChance(0) == 50`.
- **Alpha.** `alpha` is the exact fraction `alphaNum / alphaDen`, with 1/4 as the default.
- **Unknown players.** A record naming a player missing from the dictionaries raises `KeyError` in the source. The model returns that name, and the index of the record, as an error value.
  - All four ratings are read (lines 160-161) before anything is written, so the failing record leaves the dictionaries unchanged.
  - The records before it stay applied.
- **Damping.** The source truncates with `int(team_var / 7 * 17)`; it does not round. The model truncates toward zero.

## Model

| member | source | states |
|---|---|---|
| `Numeric.RoundHalfEven` | luca_model/padel_elo.py:27 | the result is within half a unit of `n / d`, and is even on an exact tie |
| `Numeric.CeilDivBounds` | luca_model/padel_elo.py:59-60 | `CeilDiv(a, b)` is the least `r` with `a <= b * r` |
| `Numeric.CeilUnique` | luca_model/padel_elo.py:59-60 | any `r` with `b * r - b < a <= b * r` is the ceiling |
| `Numeric.TruncDiv` | luca_model/padel_elo.py:166-167 | the quotient rounded toward zero, for either sign of `a` |
| `Numeric.TruncDivNeg` | luca_model/padel_elo.py:166-167 | truncation is odd: `TruncDiv(-a, b) == -TruncDiv(a, b)` |
| `Numeric.TruncDivExact` | luca_model/padel_elo.py:166-167 | an exact quotient is not changed by truncation |
| `PadelElo.ComputeTeamElo` | luca_model/padel_elo.py:20-27 | equal ratings `r, r` give `r`; with `0 <= alpha <= 1/2` the team rating is between the weaker rating and the rounded-up average; with `alpha > 0` it is at most the plain average `(player1 + player2) / 2`, so the imbalance penalty never raises a team above its average |
| `PadelElo.TeamEloSymmetric` | luca_model/padel_elo.py:20-27 | the team rating does not depend on the order of the two players |
| `PadelElo.TeamEloDefaultAlpha` | luca_model/padel_elo.py:5-27 | with alpha = 1/4 the team rating is `round((stronger + 3 * weaker) / 4)` |
| `PadelElo.ClampGap` | luca_model/padel_elo.py:49-53 | the clamped ratings are at most 400 apart; the stronger rating is kept; only the weaker one is raised, and only to exactly `stronger - 400`; a gap of at most 400 is left alone |
| `PadelElo.ClampedLead` | luca_model/padel_elo.py:49-55 | team 1's lead after the clamp lies in `[-400, 400]`; it is the true lead when that is in range, and ±400 otherwise |
| `PadelElo.ExpectedScore` | luca_model/padel_elo.py:55-62 | the side with the larger probability is predicted exactly `target`; equal probabilities give `(target, target)`; for `target >= 0` both predictions lie in `[0, target]` |
| `PadelElo.ExpectedScoreCeiling` | luca_model/padel_elo.py:59-60 | each prediction is the least integer at or above `target * p / max(p1, p2)` |
| `PadelElo.ExpectedScoreGapCapped` | luca_model/padel_elo.py:49-53 | ratings more than 400 apart predict what ratings exactly 400 apart do |
| `PadelElo.ExpectedScoreMirror` | luca_model/padel_elo.py:49-62 | with complementary chances, swapping the teams swaps the predicted scores |
| `PadelElo.CompareScores` | luca_model/padel_elo.py:80-85 | the result is `(actual1 - expected1) - (actual2 - expected2)`, i.e. the actual margin minus the predicted margin |
| `PadelElo.CompareScoresAntisymmetric` | luca_model/padel_elo.py:80-85 | swapping both teams' actual and expected scores negates the comparison |
| `PadelElo.EloVariation` | luca_model/padel_elo.py:89-111 | for `beta > 0`, team 1 gains exactly when its actual margin exceeds the predicted one, loses exactly when it falls short, and nothing moves when they agree |
| `PadelElo.EloVariationMirror` | luca_model/padel_elo.py:105-111 | with complementary chances, swapping the teams and their scores negates the change |
| `PadelElo.Damp` | luca_model/padel_elo.py:166-167 | the damped change has the sign of the team change and is never smaller in size |
| `PadelElo.DampExact` | luca_model/padel_elo.py:166-167 | a multiple of 7 (every change with beta = 7) is scaled by exactly 17/7, 13/7 or 1 for the three tiers |
| `PadelElo.Tier` | luca_model/padel_elo.py:166-167 | the tier is 0 below 10 games, 2 from 20 games, and 1 otherwise |
| `PadelElo.DampOdd` | luca_model/padel_elo.py:163-167 | in one tier, opposite team changes give opposite player changes |
| `PadelElo.DampExamples` | luca_model/padel_elo.py:166-167 | +7 becomes 17, 13 and 7 at 0, 15 and 25 games; ±35 becomes ±85 for a new player |
| `PadelExport.EntriesOf` | luca_model/padel_elo.py:187-191 | one row per name, in key order, with that name's rating and games |
| `PadelExport.Eligible` | luca_model/padel_elo.py:193 | keeps every row with at least 8 games as often as it occurs, and no other row |
| `PadelExport.Insert` | luca_model/padel_elo.py:194 | inserting into a table sorted by rating keeps it sorted and adds exactly that row |
| `PadelExport.SortByRating` | luca_model/padel_elo.py:194 | a permutation whose ratings do not increase |
| `PadelExport.Number` | luca_model/padel_elo.py:196-197 | row `i` gets position `i + 1` and the entry's name, rating and games |
| `PadelExport.CreateEloRatingTable` | luca_model/padel_elo.py:187-197 | the table holds exactly the entries with at least 8 games, with their multiplicities; ratings do not increase down it; positions run 1..n |
| `PadelUpdate.Dedup` | luca_model/padel_elo.py:130-131 | the dictionary keys: every listed player once, nobody else, and in the order of their first occurrence in the list |
| `PadelUpdate.InitialTables` | luca_model/padel_elo.py:130-131 | every listed player is rated 1800 with 0 games, nobody else is present, and both dictionaries have the same keys |
| `PadelUpdate.RatingTable.constructor` | luca_model/padel_elo.py:130-131 | the table starts as `InitialTables(players)`, with the keys in first-listed order |
| `PadelUpdate.Changes` | luca_model/padel_elo.py:163-165 | the four updates of a record name its players in update order |
| `PadelUpdate.ApplyPlayer` | luca_model/padel_elo.py:166-168 | one player's update keeps both key sets |
| `PadelUpdate.ApplyAll` | luca_model/padel_elo.py:164-168 | the updates keep both dictionaries well formed with the same keys |
| `PadelUpdate.ApplyMatch` | luca_model/padel_elo.py:156-168 | a record fails exactly when one of its players is unknown, and it reports the first missing name in the lookup order `player1a`, `player1b`, `player2a`, `player2b`. Otherwise the key sets are unchanged |
| `PadelUpdate.Replay` | luca_model/padel_elo.py:155-170 | a history keeps the key sets; a stop names an unknown player of the record it stops at |
| `PadelUpdate.ApplyMatchEffect` | luca_model/padel_elo.py:155-168 | a record with four distinct known players is applied. Each player gains one game. Team 1's players receive the damped team change and team 2's the damped negation, each damped by that player's games before the record. Every other player and both key sets are unchanged |
| `PadelUpdate.ChangesEffect` | luca_model/padel_elo.py:163-168 | the same effect for the four updates with any team 1 change `v` |
| `PadelUpdate.ApplyAllOnce` | luca_model/padel_elo.py:164-168 | a player updated once receives its damped change, by its games before, and one game |
| `PadelUpdate.ApplyAllUntouched` | luca_model/padel_elo.py:164-168 | a player not updated keeps its rating and games |
| `PadelUpdate.ApplyAllGames` | luca_model/padel_elo.py:168 | every occurrence of a player adds one game |
| `PadelUpdate.ApplyMatchGames` | luca_model/padel_elo.py:164-168 | an applied record adds to each player's games the number of times the player occurs in it |
| `PadelUpdate.MatchZeroSum` | luca_model/padel_elo.py:160-168 | with all four players in one damping tier, both players of a team move alike and the teams move oppositely |
| `PadelUpdate.TeamVar` | luca_model/padel_elo.py:160-163 | team 1's raw change is a multiple of beta = 7, and it is positive (negative) exactly when team 1's actual margin beats (falls short of) the margin predicted at target 8 from the team ratings the record's players had before it |
| `PadelUpdate.TeamVarMirror` | luca_model/padel_elo.py:160-163 | with complementary chances, swapping the teams and scores negates team 1's raw change |
| `PadelUpdate.EvenMatchVar` | luca_model/padel_elo.py:160-162 | four equal ratings with even chances give team 1 a raw change of `7 * (score1 - score2)` |
| `PadelUpdate.FirstMatchExample` | luca_model/padel_elo.py:155-168 | four new equal players, 8-3 with even chances: the winners gain 85, the losers lose 85, and each has 1 game |
| `PadelUpdate.ReplayGames` | luca_model/padel_elo.py:155-168 | a completed history adds to each player's games exactly the player's number of appearances |
| `PadelUpdate.ReplayLast` | luca_model/padel_elo.py:155-168 | in a completed history, the last record is applied to what the earlier records leave |
| `PadelUpdate.ReplayStopped` | luca_model/padel_elo.py:155-161 | a history that stops at record `k` leaves the tables exactly as the first `k` records make them, and record `k` is the one that fails |
| `PadelUpdate.RatingTable.ApplyRecord` | luca_model/padel_elo.py:156-168 | one loop iteration in place: it reports the unknown name and writes nothing, or it leaves the dictionaries as `ApplyMatch` gives them |
| `PadelUpdate.RatingTable.UpdatePlayers` | luca_model/padel_elo.py:164-168 | the nested team/player loops in place: the dictionaries become `ApplyAll` of the updates |
| `PadelUpdate.RatingTable.UpdatePlayer` | luca_model/padel_elo.py:166-168 | one player in place: the damped change by the games count before, then the increment |
| `PadelUpdate.RatingTable.UpdateRatings` | luca_model/padel_elo.py:155-170 | the loop over the history in place: the dictionaries end as `Replay` gives them; a failure reports the record index and the unknown name |
| `PadelUpdate.RatingTable.EloRatingTable` | luca_model/padel_elo.py:187-197 | the table shows exactly the players with at least 8 games, each once, with their current rating and games; best first; positions 1..n |
| `PadelUpdate.TableOfEntries` | luca_model/padel_elo.py:187-197 | the same for the table built from any two dictionaries with the same keys |
| `StreamlitFunc.ComputeTeamElo` | luca_model/streamlit_func.py:12-21 | computes the same function as the rating engine's `compute_team_elo` |
| `StreamlitFunc.TeamEloProperties` | luca_model/streamlit_func.py:12-21 | the copy is symmetric, gives `r` for `r, r`, lies between the weaker rating and the rounded-up average, and with `alpha > 0` is at most the plain average |
| `StreamlitFunc.ClampGap` | luca_model/streamlit_func.py:26-30 | the same clamp as the rating engine's prediction |
| `StreamlitFunc.ClampGapProperties` | luca_model/streamlit_func.py:26-30 | at most 400 apart; the stronger side unchanged; only the weaker side raised, to `stronger - 400`; gaps up to 400 are left alone |
| `StreamlitFunc.PercentageOfWinning` | luca_model/streamlit_func.py:23-38 | both percentages lie in 0..100 and sum to 100; team 1's is the chance at the clamped lead |
| `StreamlitFunc.FavouriteReachesTarget` | luca_model/streamlit_func.py:23-38 | a team given at least 50% is the one the engine predicts to reach the target |
| `StreamlitFunc.PercentageMirror` | luca_model/streamlit_func.py:23-38 | with complementary chances, swapping the teams swaps the percentages |

## Left out

- The logistic formula `1 / (1 + 10 ** (d / 400))` and its rounding to two decimals (luca_model/padel_elo.py:55-56, luca_model/streamlit_func.py:32-33) are floating point. They are the parameter `winChance`. The only properties assumed of it: its range is 0..100 and, where stated, it is complementary or gives 50 at a lead of 0.
- Float artifacts are not modelled:
  - the division `target / m * p` is taken exactly;
  - the change `team_var / 7 * 17` is taken as the exact quotient `team_var * 17 / 7`. This matters only for changes that are not multiples of 7, which beta = 7 never produces;
  - `int(p * 100)` in `percentage_of_winning` is taken as the exact hundredths, although the float product can truncate one below, e.g. `0.29 * 100`.
- Scores are integers here. The source takes them from a CSV file and could receive floats.
- `PadelExport.SortByRating`: pandas' default sort is not stable, so the order it gives tied ratings is unspecified. Its contract promises only a permutation with non-increasing ratings. The insertion sort that realises it is one admissible outcome.
- `odds` (luca_model/streamlit_func.py:41-46): float reciprocals of the percentages.
- File and console I/O are not part of this model:
  - `pd.read_csv`, `dropna` and the column selection of `read_elo_ratings`. The model begins from the list of players and the sequence of match records;
  - `to_csv` and `print` of `create_elo_rating_file`;
  - `main`.
- `PadelUpdate.RatingTable.UpdatePlayers` flattens the two nested loops over (team, change) and the team's players into one loop over the four (player, change) pairs, in the same order.
- Match enumeration, balanced scheduling and the Streamlit page (main.py) are not part of this model.
