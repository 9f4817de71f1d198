# NBA game prediction dashboard — a Dafny model of its core logic

The sports analytics dashboard shows today's NBA games. It predicts each winner with a logistic-regression model trained on team statistics from the NBA stats API. This project models, in Dafny, the deterministic logic underneath its API calls:

- **team names** (`utils.py`): the alias table with its whitespace strip, the id lookup over the team list, the id-to-name table, and the season string derived from a date;
- **team statistics** (`nba.py`): today's games projected from the scoreboard rows, the last-five-games aggregates with their three attempts, and the per-team record, whose `_LAST5` entries are added only when last-five data exists;
- **prediction** (`predictor.py`): the lazily loaded stats table, the feature lists, the guard chain that answers None, the head-to-head normalisation of the two probabilities, and the strict `>` that gives ties to the away team;
- **training data** (`ml_model.py`): the retry wrapper, the derived columns with no zero guard, the cells filled in place, the WIN label, `dropna`, and the fourteen feature columns in their fixed order;
- **accuracy** (`accuracy.py`): the evaluation script; it removes duplicate games, parses "vs." and "@" matchups, skips unanswered games and counts correct and evaluated predictions;
- **the first predictor** (root `predictor.py`): a five-entry mapping with no strip, a net-rating table, and the "Unknown (insufficient data)" sentinel;
- **the free-throw experiment** (`test.py`): the game search over past days, the free-throw state machine that counts possession-ending free throws, the possession factor with its 0.44 fallback, and the per-game TOV% arithmetic.

Each endpoint is a parameter of the member that calls it: a function from an attempt number, a day or a game id to the response, with `None` standing for a call that raised. `datetime.today()` becomes `year` and `month` parameters. The classifier is an uninterpreted function from a feature vector to a probability.

Floating-point values are idealised as Dafny reals. `Floats.Float` adds the infinities and NaN that an unguarded division produces: `ml_model.py` divides by games played with no guard, and the last-five TOV% has no guard either.

Modules:

- `Wrappers`: `Option`.
- `Text`: Python's `strip`, `in`, `split(sep)[-1]`, `str(int)` and `[2:]`.
- `Dicts`: a dict built by assignments, where the last one wins.
- `Attempts`: the first successful attempt.
- `Seqs`: counting matches.
- `Floats`: the Float type above.
- `Columns`: the fourteen stat names.
- One module per source file: `Teams`, `Stats`, `Predictor`, `Training`, `Accuracy`, `LegacyPredictor` and `FreeThrows`.

## Model

| member | source | states |
|---|---|---|
| Text.Strip | sports_analytics_dashboard/utils.py:79 | `str.strip()`: the result has no leading or trailing whitespace |
| Text.StripCuts | sports_analytics_dashboard/utils.py:79 | the stripped string is a slice of the input with only whitespace cut off either side |
| Text.StripIdempotent | sports_analytics_dashboard/utils.py:79 | stripping twice is stripping once |
| Text.LastField | sports_analytics_dashboard/accuracy.py:77 | `s.split(sep)[-1]` is a suffix of `s` that contains no `sep` |
| Text.LastFieldAfterSeparator | sports_analytics_dashboard/accuracy.py:77 | the last field after the last separator is exactly the text behind it |
| Text.ContainsIffFound | sports_analytics_dashboard/accuracy.py:75 | Python's `in` on strings holds iff a leftmost search finds the substring |
| Text.NatToStringRoundTrip | sports_analytics_dashboard/utils.py:91 | `str(n)` reads back as `n` |
| Text.FourDigitSuffix | sports_analytics_dashboard/utils.py:91 | `str(y)[2:]` of a four-digit year is two digits worth `y % 100` |
| Dicts.FromPairs | sports_analytics_dashboard/utils.py:17-21 | a dict filled by assignments has exactly the assigned keys |
| Dicts.FromPairsKeys | sports_analytics_dashboard/nba.py:115-135 | the keys of such a dict are the set of assigned keys |
| Dicts.FromPairsLastWins | predictor.py:36-40 | a key holds the value of its last assignment |
| Dicts.FromPairsEntryListed | sports_analytics_dashboard/nba.py:115-135 | every entry of the dict was assigned |
| Dicts.FromPairsValues | sports_analytics_dashboard/nba.py:115-135 | a dict built from pairs that agree with a map agrees with that map |
| Dicts.FromPairsAgreeing | sports_analytics_dashboard/utils.py:17-21 | pairs that list a map's keys, each with its value, rebuild that map |
| Attempts.FirstSome | sports_analytics_dashboard/ml_model.py:42-49 | None iff every attempt in range fails; otherwise the result of the first attempt that succeeds |
| Attempts.FirstSomeIs | sports_analytics_dashboard/nba.py:53-89 | when attempt k is the first that succeeds, its result is the answer |
| Seqs.CountWhereStep | sports_analytics_dashboard/ml_model.py:111-112 | the count of matches grows by one exactly when the appended element matches |
| Floats.Div | sports_analytics_dashboard/ml_model.py:70-71 | float division: finite iff the divisor is non-zero, NaN iff 0/0, otherwise an infinity with the dividend's sign |
| Floats.Scale | sports_analytics_dashboard/nba.py:69-71 | a positive factor scales finite values and leaves infinities and NaN as they are |
| Floats.GreaterIrreflexive | sports_analytics_dashboard/predictor.py:125 | no float is greater than itself, NaN included |
| Floats.PositiveCases | sports_analytics_dashboard/ml_model.py:98 | `x > 0` holds for positive finite values and positive infinity only |
| Floats.GreaterScale | sports_analytics_dashboard/predictor.py:122-125 | scaling both sides by the same positive factor keeps `>` |
| Columns.ColumnsDisjoint | sports_analytics_dashboard/nba.py:125-147 | the nine season keys and the five `_LAST5` keys are disjoint |
| Columns.ColumnsCover | sports_analytics_dashboard/predictor.py:79-83 | every stat key is a season key or a `_LAST5` key |
| Columns.NameInjective | sports_analytics_dashboard/predictor.py:79-83 | distinct stat keys have distinct spellings |
| Teams.AliasKeysAreAbbreviations | sports_analytics_dashboard/utils.py:24-67 | every key of the literal is an abbreviation of at most three letters or one of five short forms |
| Teams.AliasValuesAreLong | sports_analytics_dashboard/utils.py:24-67 | every value of the literal has at least nine characters and is not a short form |
| Teams.AliasValuesAreTrimmed | sports_analytics_dashboard/utils.py:24-67 | no value of the literal has surrounding whitespace |
| Teams.AliasTableCanonical | sports_analytics_dashboard/utils.py:24-67 | no value of the alias table is a key, and every value is already stripped |
| Teams.CanonicalFromEntries | sports_analytics_dashboard/utils.py:24-67 | a dict literal whose keys are abbreviations or short forms and whose values are longer stripped names outside the short forms is canonical |
| Teams.Normalize | sports_analytics_dashboard/utils.py:69-79 | strip, then map an alias to its name; an unknown name comes back stripped but otherwise unchanged |
| Teams.NormalizeCanonical | sports_analytics_dashboard/utils.py:69-79 | over a canonical table the normalised name is no alias and has no surrounding whitespace |
| Teams.NormalizeIdempotent | sports_analytics_dashboard/utils.py:79 | with a canonical table, normalising twice is normalising once |
| Teams.LastAliasWins | sports_analytics_dashboard/utils.py:24-67 | a key without surrounding whitespace from which every later key of the literal differs (in length or in one of its first three characters) normalises to the value listed with it: later entries overwrite earlier ones |
| Teams.KnicksAliasesConverge | sports_analytics_dashboard/utils.py:25-56 | "NYK", "NY", "NY Knicks" and "New York Knicks" all normalise to "New York Knicks" |
| Teams.ClippersAliasesConverge | sports_analytics_dashboard/utils.py:29-31 | "LAC", "Los Angeles Clippers" and "LA Clippers" all normalise to "LA Clippers" |
| Teams.CanonicalNameIsFixed | sports_analytics_dashboard/utils.py:79 | a stripped name longer than an abbreviation and not a short form is its own normal form |
| Teams.FirstIndex | sports_analytics_dashboard/utils.py:104-107 | the index of the first equal key, or -1 when there is none |
| Teams.TeamIdOf | sports_analytics_dashboard/utils.py:103-107 | None iff no team's normalised full name equals the normalised input; otherwise the id of the first such team |
| Teams.GetTeamId | sports_analytics_dashboard/utils.py:93-107 | the linear search with early return over the normalised full names `TeamKeys` computes `TeamIdOf` |
| Teams.FirstIndexIs | sports_analytics_dashboard/utils.py:104-106 | the search stops at the first match |
| Teams.TeamIdOfNormalized | sports_analytics_dashboard/utils.py:103-105 | looking up a normalised name gives the same id as looking up the raw name |
| Teams.BuildTeamNames | sports_analytics_dashboard/utils.py:17-21 | the loop builds the dict of the (id, full name) assignments `IdNamePairs`, one per team in list order, whose keys are exactly the teams' ids |
| Teams.SeasonLabelShape | sports_analytics_dashboard/utils.py:91 | the season string is "YYYY-YY": the start year, a dash, and the next year modulo 100 in two digits |
| Teams.CurrentSeasonStartYear | sports_analytics_dashboard/utils.py:89-91 | the season starts in the given year iff the month is 10 or later, and in the year before iff it is earlier |
| Teams.CurrentSeason | sports_analytics_dashboard/utils.py:89-91 | for a four-digit year the season is "YYYY-yy": the start year (this year from October on, last year before) and the next year modulo 100 |
| Teams.RepeatedKeysAgree | sports_analytics_dashboard/utils.py:24-67 | each of GSW, NOP, NYK, OKC and SAS is listed twice with the same value, and the table gives it that value |
| Teams.GswIsWarriors | sports_analytics_dashboard/utils.py:33-44 | "GSW" normalises to "Golden State Warriors" |
| Teams.NopIsPelicans | sports_analytics_dashboard/utils.py:30-54 | "NOP" normalises to "New Orleans Pelicans" |
| Teams.OkcIsThunder | sports_analytics_dashboard/utils.py:34-57 | "OKC" normalises to "Oklahoma City Thunder" |
| Teams.SasIsSpurs | sports_analytics_dashboard/utils.py:32-63 | "SAS" normalises to "San Antonio Spurs" |
| Stats.TodaysGames | sports_analytics_dashboard/nba.py:16-37 | one game per scoreboard row, with positions 2, 6, 7 and 4 and both teams looked up in `team_names`; no game list (a KeyError) iff some row cannot be projected |
| Stats.TeamRows | sports_analytics_dashboard/nba.py:62 | the log rows of the team, and only those |
| Stats.TeamRowsAppend | sports_analytics_dashboard/nba.py:62 | the filter keeps log order: the team's rows of a concatenation are those of each part, in turn |
| Stats.TeamRowsOfOneTeam | sports_analytics_dashboard/nba.py:62 | a log of the team's own rows is kept whole and in order |
| Stats.RecentGames | sports_analytics_dashboard/nba.py:62 | `head(5)`: the first rows of the team, five of them or all when fewer |
| Stats.SumOfNonNegative | sports_analytics_dashboard/nba.py:69-71 | sums of non-negative columns are non-negative |
| Stats.Wins | sports_analytics_dashboard/nba.py:72 | the number of "W" rows is at most the number of rows |
| Stats.Last5FromLog | sports_analytics_dashboard/nba.py:62-83 | no data iff the log has no row of the team; otherwise W_PCT lies in [0,1] |
| Stats.Last5TurnoverPctBounds | sports_analytics_dashboard/nba.py:69-71 | the last-five TOV% over summed totals lies in [0,100] for non-negative inputs, or is NaN when all three sums are 0 |
| Stats.Percentage | sports_analytics_dashboard/nba.py:69-71 | a part of a positive whole is between 0 and 100 percent of it |
| Stats.Fraction | sports_analytics_dashboard/nba.py:72 | a part of a positive whole is a fraction in [0,1] |
| Stats.GetLast5GamesStats | sports_analytics_dashboard/nba.py:39-89 | the attempt loop computes the last-five stats of the first download that does not raise |
| Stats.Last5Stats | sports_analytics_dashboard/nba.py:39-89 | no data when all three downloads raise; any data has W_PCT in [0,1] |
| Stats.Last5StatsOfFirstSuccess | sports_analytics_dashboard/nba.py:54-83 | the first successful download within three attempts decides the result |
| Stats.Last5StatsAllFail | sports_analytics_dashboard/nba.py:85-89 | three failed downloads give no data (`{}`) |
| Stats.SeasonTurnoverPct | sports_analytics_dashboard/nba.py:122-123 | `100*TOV/(FGA+0.44*FTA+TOV)` when the possessions are positive, 0 otherwise |
| Stats.SeasonTurnoverPctBounds | sports_analytics_dashboard/nba.py:122-123 | for non-negative inputs the season TOV% lies in [0,100] |
| Stats.SeasonNetRating | sports_analytics_dashboard/nba.py:127 | PLUS_MINUS/GP when GP is non-zero, 0 otherwise |
| Stats.SeasonRecord | sports_analytics_dashboard/nba.py:125-135 | a new record has exactly the nine season keys |
| Stats.WithLast5 | sports_analytics_dashboard/nba.py:142-147 | the merge adds the five `_LAST5` keys and keeps every other entry |
| Stats.TeamRecord | sports_analytics_dashboard/nba.py:125-147 | the `_LAST5` keys are present iff last-five data exists; the season entries are the derived values |
| Stats.FetchTeamStats | sports_analytics_dashboard/nba.py:110-164 | on a run with no readable cache file, None iff the request raised; otherwise the dict of the row-by-row assignments `StatsPairs` (TEAM_NAME to record, last-five data fetched by id), with one entry per distinct TEAM_NAME |
| Stats.AddTeam | sports_analytics_dashboard/nba.py:125-149 | one loop iteration writes the row's record under its name and changes nothing else |
| Stats.StatsKeys | sports_analytics_dashboard/nba.py:115-135 | the keys of the stats dict are exactly the TEAM_NAMEs of the rows |
| Stats.NamesAreKeys | sports_analytics_dashboard/nba.py:115-125 | pairs listing the rows' TEAM_NAMEs in order build a dict with exactly those keys |
| Predictor.FeaturesMatchTraining | sports_analytics_dashboard/predictor.py:79-83 | inference uses the training columns of `ml_model.py`, in the same order |
| Predictor.FeaturesAreAllColumns | sports_analytics_dashboard/predictor.py:79-83 | fourteen distinct features covering every stat key |
| Predictor.GetFeatures | sports_analytics_dashboard/predictor.py:37-39 | one entry per feature key, in order: the team's value when the key is present, None otherwise |
| Predictor.MissingIffKeyAbsent | sports_analytics_dashboard/predictor.py:93-104 | some feature is None iff some feature key is absent from the team's record |
| Predictor.FullRecordHasAllFeatures | sports_analytics_dashboard/predictor.py:87-104 | a record with both the season and the `_LAST5` keys has no missing feature |
| Predictor.Values | sports_analytics_dashboard/predictor.py:106-107 | the feature vector given to the model, entry for entry |
| Predictor.HeadToHead | sports_analytics_dashboard/predictor.py:118-123 | with a positive total the two shares are finite, each times the total gives back its raw probability, they sum to 1, and home is greater iff its raw probability is; both zero give NaN twice |
| Predictor.Decide | sports_analytics_dashboard/predictor.py:115-141 | the result carries both names and both feature lists; the winner is home iff its percentage is strictly greater; with a positive total each percentage times the total is 100 times its raw probability |
| Predictor.PredictWinProbability | sports_analytics_dashboard/predictor.py:41-145 | None iff stats or model is missing, a normalised name is unknown, or a feature is missing or not finite; otherwise the classifier's verdict (`Decide`) on the normalised names and their exact feature lists |
| Predictor.MissingFeatureGivesNone | sports_analytics_dashboard/predictor.py:93-104 | a single absent feature of either team makes the answer None |
| Predictor.WinnerByRawProbability | sports_analytics_dashboard/predictor.py:118-125 | the percentages sum to 100; home wins iff its raw probability is strictly greater, so ties go to away |
| Predictor.ZeroProbabilitiesFavourAway | sports_analytics_dashboard/predictor.py:120-125 | with both probabilities 0 the shares are NaN and the away team is named |
| Predictor.StatsCache.constructor | sports_analytics_dashboard/predictor.py:23 | the module preloads `team_stats` from one fetch |
| Predictor.StatsCache.GetTeamStats | sports_analytics_dashboard/predictor.py:25-35 | a loaded table is kept; a missing one is replaced by a new fetch; the table is returned |
| Training.SameSeasonRule | sports_analytics_dashboard/ml_model.py:25-27 | the training season string equals the dashboard's for every date |
| Training.CurrentSeason | sports_analytics_dashboard/ml_model.py:25-27 | the training season string is the dashboard's season for the same date |
| Training.RetryGetLast5GamesStats | sports_analytics_dashboard/ml_model.py:42-49 | at most `retries` calls; the first non-empty result is returned; after `retries` empty results the answer is empty |
| Training.Derived | sports_analytics_dashboard/ml_model.py:68-79 | the selected and derived columns are set; REB, AST and the `_LAST5` columns are still None |
| Training.FillCells | sports_analytics_dashboard/ml_model.py:84-96 | one iteration adds REB and AST always, the `_LAST5` cells only with last-five data, and keeps id, name and GP |
| Training.FillFrame | sports_analytics_dashboard/ml_model.py:81-96 | the in-place loop over `df` leaves exactly `FilledFrame`: each row the same row as before, filled with the last-five data of the id `TeamIds` finds for its TEAM_NAME |
| Training.FillRow | sports_analytics_dashboard/ml_model.py:84-96 | `df.at` writes one row and leaves all others unchanged |
| Training.Labelled | sports_analytics_dashboard/ml_model.py:98 | WIN is 0 or 1, and the row is otherwise kept |
| Training.HistoricalData | sports_analytics_dashboard/ml_model.py:62-99 | one training row per dashboard row, in order: its derived columns (`DerivedFrame`), filled with its own last-five data (`FilledFrame`), labelled (`LabelAll`) |
| Training.FetchHistoricalData | sports_analytics_dashboard/ml_model.py:52-99 | the procedure computes `HistoricalData` |
| Training.HistoricalColumns | sports_analytics_dashboard/ml_model.py:69-98 | a training row keeps the team name, and has the season columns plus the `_LAST5` columns exactly when last-five data exists |
| Training.FilledKeys | sports_analytics_dashboard/ml_model.py:73-96 | after the loop a row has the season keys, plus the `_LAST5` keys iff last-five data exists |
| Training.FilledSeasonCells | sports_analytics_dashboard/ml_model.py:69-96 | the season cells are the derived training values |
| Training.WinIffPositiveNetRating | sports_analytics_dashboard/ml_model.py:70-98 | WIN is 1 iff PLUS_MINUS/GP > 0 (with GP = 0: iff PLUS_MINUS/0 is +inf) |
| Training.TrainingCellsMatchDashboard | sports_analytics_dashboard/ml_model.py:70-71 | when GP and the possessions are non-zero, a training row's cells equal the dashboard's record |
| Training.SeasonCellMatches | sports_analytics_dashboard/ml_model.py:70-71 | with non-zero denominators, each training season cell equals the dashboard's |
| Training.UnguardedNetRatingWithoutGames | sports_analytics_dashboard/ml_model.py:70 | with GP = 0 the training NET_RATING has no finite value, while the dashboard's guard gives 0 |
| Training.DropNa | sports_analytics_dashboard/ml_model.py:111 | the kept rows are complete and no more numerous than the input |
| Training.DropNaMembers | sports_analytics_dashboard/ml_model.py:111 | a row is kept iff it is an input row with no null |
| Training.DropNaCount | sports_analytics_dashboard/ml_model.py:111-112 | the number of training rows is the number of complete input rows |
| Training.DropNaKeepsComplete | sports_analytics_dashboard/ml_model.py:111 | a frame with no null keeps every row |
| Training.FeatureRow | sports_analytics_dashboard/ml_model.py:118-122 | fourteen values in the listed column order, none of them NaN |
| Training.TrainingSet | sports_analytics_dashboard/ml_model.py:111-123 | `X` (`FeatureMatrix`) and `y` (`Labels`) have one row per complete row, aligned row for row: row i of `X` is the fourteen features of the i-th kept row and `y[i]` its WIN |
| Accuracy.EvaluationSeasonIsCurrent | sports_analytics_dashboard/accuracy.py:56 | the inline season string, with its comparison turned around, equals the dashboard's |
| Accuracy.EvaluationSeason | sports_analytics_dashboard/accuracy.py:56 | the inline season string is the dashboard's season for the same date |
| Accuracy.FetchGameLogs | sports_analytics_dashboard/accuracy.py:36-47 | up to three attempts; the first that does not raise gives the log, None when all raise |
| Accuracy.DropDuplicates | sports_analytics_dashboard/accuracy.py:58 | only rows of the log are kept |
| Accuracy.DropDuplicatesDistinct | sports_analytics_dashboard/accuracy.py:58 | no GAME_ID appears twice after `drop_duplicates` |
| Accuracy.DropDuplicatesKeepsFirst | sports_analytics_dashboard/accuracy.py:58 | the first row of every game is kept |
| Accuracy.ParseMatchup | sports_analytics_dashboard/accuracy.py:75-80 | a "vs." matchup makes the row's team home; otherwise it is away |
| Accuracy.AbbreviationHasNo | sports_analytics_dashboard/accuracy.py:75-80 | a capital-letter abbreviation contains neither separator |
| Accuracy.ParseHomeMatchup | sports_analytics_dashboard/accuracy.py:75-77 | "LAL vs. BOS" on the row of the team gives (team, "BOS") |
| Accuracy.ParseAwayMatchup | sports_analytics_dashboard/accuracy.py:78-80 | "LAL @ BOS" on the row of the team gives ("BOS", team) |
| Accuracy.StripBeforeNormalize | sports_analytics_dashboard/accuracy.py:82-83 | the script's extra strip before normalising changes nothing |
| Accuracy.GameTeams | sports_analytics_dashboard/accuracy.py:74-83 | the row's own normalised team is home on a "vs." matchup and away otherwise |
| Accuracy.GameTeamsOfParsed | sports_analytics_dashboard/accuracy.py:82-83 | the game's teams are the normalised parsed names |
| Accuracy.ActualWinner | sports_analytics_dashboard/accuracy.py:102 | one of the two teams: as written home on "W" and away otherwise; as intended the row's own team on "W" and its opponent otherwise |
| Accuracy.HomeOnWinMiscreditsAwayWin | sports_analytics_dashboard/accuracy.py:75-102 | as written, an away row recording a win names the home team, not the row's team that won |
| Accuracy.LakersWinAtBostonCreditsBoston | sports_analytics_dashboard/accuracy.py:75-102 | the Lakers' "LAL @ BOS" row with WL "W" is scored as a Boston win as written, as a Lakers win as intended |
| Accuracy.RowTeamOnWinCreditsRowTeam | sports_analytics_dashboard/accuracy.py:75-102 | as intended, the actual winner is the row's own team iff its WL is "W" |
| Accuracy.RulesAgreeOnHomeRows | sports_analytics_dashboard/accuracy.py:75-102 | on a home ("vs.") row both readings name the same winner |
| Accuracy.Verdict | sports_analytics_dashboard/accuracy.py:94-104 | skipped iff there is no prediction; otherwise right iff the predicted winner is the actual one |
| Accuracy.PredictionNamesParsedTeams | sports_analytics_dashboard/accuracy.py:82-104 | a prediction names the parsed, normalised teams, and its winner is one of them |
| Accuracy.Tally | sports_analytics_dashboard/accuracy.py:64-106 | correct ≤ total ≤ number of games |
| Accuracy.TallyCounts | sports_analytics_dashboard/accuracy.py:95-106 | total counts the games with a prediction, and correct the games whose prediction is right |
| Accuracy.NothingEvaluatedWithoutPredictor | sports_analytics_dashboard/accuracy.py:95-98 | without stats or model every game is skipped |
| Accuracy.EvaluateGames | sports_analytics_dashboard/accuracy.py:72-106 | the counting loop with `continue` computes the tally, so correct ≤ total ≤ games |
| Accuracy.CountGame | sports_analytics_dashboard/accuracy.py:94-104 | one pass of the loop body: `continue` without a prediction, else one more game and one more hit when right |
| Accuracy.EvaluateGame | sports_analytics_dashboard/accuracy.py:73-104 | one iteration's verdict: skipped without a prediction, otherwise whether the predicted winner is the actual one |
| Accuracy.Report | sports_analytics_dashboard/accuracy.py:108-111 | an accuracy is reported iff total > 0, and it is correct/total in [0,1] |
| Accuracy.RunAsWritten | sports_analytics_dashboard/accuracy.py:57-111 | never aborts; crashes iff the download failed (in `drop_duplicates`) or team stats are missing and a game is left; otherwise reports the tally, a "W" crediting the home team |
| Accuracy.Run | sports_analytics_dashboard/accuracy.py:57-111 | a failed download aborts, and only it; otherwise the tally with WL credited to the row's own team is reported, with correct ≤ total ≤ games |
| LegacyPredictor.NormalizeTeamName | predictor.py:12-14 | an exact lookup with no strip; an unknown name comes back unchanged |
| LegacyPredictor.MappingValuesAreNotKeys | predictor.py:4-10 | no full name of the mapping is itself a short form |
| LegacyPredictor.NormalizeIdempotent | predictor.py:4-14 | normalising twice is normalising once |
| LegacyPredictor.ClippersMappedOppositeWays | predictor.py:5 | "LA Clippers" becomes "Los Angeles Clippers" here, the reverse of the dashboard's alias table |
| LegacyPredictor.PaddedNameUnchanged | predictor.py:14 | a short form with a leading space is not recognised |
| LegacyPredictor.FetchTeamStats | predictor.py:16-47 | the table for the date's season (October rule), or empty when the request raised |
| LegacyPredictor.TeamStats | predictor.py:36-47 | empty when the request raised; otherwise keyed by exactly the rows' normalised names |
| LegacyPredictor.NetRatings | predictor.py:36-40 | the loop computes the dict of the assignments `NetRatingPairs`: normalised name to `row[7] - row[8]`, row by row |
| LegacyPredictor.TeamStatsEntries | predictor.py:36-40 | the keys are the normalised names, and each holds the net rating of its last row |
| LegacyPredictor.Winner | predictor.py:67-75 | the sentinel, the home team or the away team |
| LegacyPredictor.PredictWinner | predictor.py:53-75 | fetching then deciding gives `Winner` over the season's table |
| LegacyPredictor.MissingTeamIsInsufficient | predictor.py:67-68 | "Unknown (insufficient data)" when either team is missing |
| LegacyPredictor.FailedFetchIsInsufficient | predictor.py:45-68 | a failed request makes every prediction the sentinel |
| LegacyPredictor.HomeWinsIffGreater | predictor.py:70-75 | home iff `home_net > away_net`; away iff `home_net <= away_net` |
| LegacyPredictor.WinnerSymmetricUnlessTied | predictor.py:70-75 | swapping sides keeps the winner unless the ratings tie, when away wins either way |
| FreeThrows.FreeThrowData | sports_analytics_dashboard/test.py:46-50 | exactly the events of type 3, as many as there are |
| FreeThrows.FreeThrowDataAppend | sports_analytics_dashboard/test.py:46-50 | the filter keeps play-by-play order: the free throws of a concatenation are those of each part, in turn |
| FreeThrows.FreeThrowDataOfFreeThrows | sports_analytics_dashboard/test.py:46-50 | a play-by-play of free throws only is kept whole and in order |
| FreeThrows.EventDescription | sports_analytics_dashboard/test.py:60 | the home description when truthy, the visitor description otherwise |
| FreeThrows.MissingDescriptionIsNoMiss | sports_analytics_dashboard/test.py:69 | `str(None)` contains no "MISS" |
| FreeThrows.Track | sports_analytics_dashboard/test.py:52-74 | the count is 0 on no events and at most one per event |
| FreeThrows.CountPossessionChangingFts | sports_analytics_dashboard/test.py:52-74 | the loop computes the state machine's count, at most the number of events |
| FreeThrows.TrackRemembers | sports_analytics_dashboard/test.py:58-72 | the current shooter is the last row's; the stored free throw is the last "1 of 1"/"2 of 2"/"3 of 3" row, None iff there is none |
| FreeThrows.LastFinalUnique | sports_analytics_dashboard/test.py:62-63 | the last final free throw is unique |
| FreeThrows.StoredMissIffLastFinalMissed | sports_analytics_dashboard/test.py:62-69 | the stored free throw is a miss iff the last final free throw so far has "MISS" in either description |
| FreeThrows.PossessionEndsOfPrefix | sports_analytics_dashboard/test.py:68-70 | the rows ending a possession grow by the newest row exactly when it ends one |
| FreeThrows.CountIsPossessionEnds | sports_analytics_dashboard/test.py:68-70 | the count is the number of rows whose shooter differs from the previous one while the last final free throw so far missed |
| FreeThrows.TeamLabel | sports_analytics_dashboard/test.py:35-36 | the mapped name, or "Team <id>" for an unmapped id |
| FreeThrows.MatchesOn | sports_analytics_dashboard/test.py:31-39 | at most one id per game of a day |
| FreeThrows.MatchesOnSound | sports_analytics_dashboard/test.py:38-39 | every id collected from a day belongs to a game of that day involving the team |
| FreeThrows.Take | sports_analytics_dashboard/test.py:41-42 | a prefix of length min(n, available), empty for n ≤ 0 |
| FreeThrows.MatchesOnPrefix | sports_analytics_dashboard/test.py:31-39 | the ids of a prefix of a day's games are a prefix of that day's ids |
| FreeThrows.MatchesThroughPrefix | sports_analytics_dashboard/test.py:26-39 | searching fewer days gives a prefix of the ids |
| FreeThrows.MatchesThroughSound | sports_analytics_dashboard/test.py:26-39 | every id belongs to a searched day's game involving the team |
| FreeThrows.LastNGamesSound | sports_analytics_dashboard/test.py:20-44 | at most `num_games` ids, each from a game of the last `3*num_games` days involving the team |
| FreeThrows.LastNGames | sports_analytics_dashboard/test.py:20-44 | at most `num_games` ids, a prefix of the ids the day-by-day search finds |
| FreeThrows.GetLastNGames | sports_analytics_dashboard/test.py:20-44 | the day-by-day search with early return gives the first `num_games` matching ids |
| FreeThrows.CollectGames | sports_analytics_dashboard/test.py:23-44 | the nested loops stop as soon as `num_games` ids are collected, and return the first `num_games` matches over the days searched |
| FreeThrows.ScanDay | sports_analytics_dashboard/test.py:31-42 | one day's scan appends the matching ids in scoreboard order, stops right after the id that reaches `num_games`, and otherwise looks at every game |
| FreeThrows.FoundEnough | sports_analytics_dashboard/test.py:41-42 | at the early return, the ids collected are the first `num_games` of the whole search |
| FreeThrows.TotalPossessionEnding | sports_analytics_dashboard/test.py:85-86 | the possession-ending free throws are at most all free throws |
| FreeThrows.Share | sports_analytics_dashboard/test.py:91 | `possession_ending/total` lies in [0,1] |
| FreeThrows.PossessionFactor | sports_analytics_dashboard/test.py:88-91 | 0.44 with no free throws; otherwise possession-ending over all free throws, in [0,1] |
| FreeThrows.PossessionFactorBounds | sports_analytics_dashboard/test.py:88-91 | 0.44 with no free throws; otherwise the share of possession-ending free throws, in [0,1] |
| FreeThrows.GetAverageFtPossessionFactor | sports_analytics_dashboard/test.py:76-91 | the factor returned is the possession factor of the games `get_last_n_games` finds |
| FreeThrows.GamesFactor | sports_analytics_dashboard/test.py:79-91 | the accumulating loop and the division after it compute the possession factor of the free-throw tables (`FreeThrowTables`) of the given games |
| FreeThrows.StatsSeasonIsCurrentBeforeOctober | sports_analytics_dashboard/test.py:95-98 | the hard-coded season is the current one iff the month is before October |
| FreeThrows.StatsSeason | sports_analytics_dashboard/test.py:95-98 | the hard-coded season is the dashboard's season of every month before October |
| FreeThrows.PerGame | sports_analytics_dashboard/test.py:109-111 | total/GP when GP > 0, 0 otherwise |
| FreeThrows.TovPercentage | sports_analytics_dashboard/test.py:117-118 | `tov/denominator*100` when the denominator is positive, 0 otherwise |
| FreeThrows.RowStats | sports_analytics_dashboard/test.py:108-127 | the record keeps GP and the factor; with GP > 0 each per-game value times GP is its total, with GP ≤ 0 all rates are 0 |
| FreeThrows.TovPercentageBounds | sports_analytics_dashboard/test.py:108-118 | with non-negative inputs and factor, the per-game TOV% lies in [0,100] |
| FreeThrows.TovPercentageFromTotals | sports_analytics_dashboard/test.py:108-118 | with GP > 0 the per-game TOV% equals the TOV% of the season totals |
| FreeThrows.NoGamesNoRates | sports_analytics_dashboard/test.py:109-118 | with GP ≤ 0 all per-game values and the TOV% are 0 |
| FreeThrows.LastMatchIsLast | sports_analytics_dashboard/test.py:106-127 | the entry kept is the last row whose name contains the team name, or none when no row does |
| FreeThrows.MatchedStats | sports_analytics_dashboard/test.py:106-132 | none iff no row's name contains the team name; otherwise the record of the last row that does |
| FreeThrows.FetchTeamStats | sports_analytics_dashboard/test.py:93-136 | `{}` when the request raised; otherwise the stats of the last matching row with the possession factor of the team's games |
| FreeThrows.StoreMatchingRows | sports_analytics_dashboard/test.py:106-132 | the loop leaves the record of the last matching row, with the possession factor of the team's games |
| FreeThrows.StoreIfMatching | sports_analytics_dashboard/test.py:107-127 | a matching row overwrites the team's record with its own, any other row changes nothing |

## Left out

- Network calls (ScoreboardV2, LeagueGameLog, LeagueDashTeamStats, PlayByPlayV2). They are parameters. Where the script catches a failure, the parameter is an Option with `None` for a call that raised. The two calls without a handler are the lines below.
- `teams.get_teams` (`utils.py:14`) is the static team table of nba_api. It is the `teams: seq<Team>` parameter of the Teams members.
- Training.FetchHistoricalData: the model starts from a successful LeagueDashTeamStats response. `ml_model.py:63` has no handler, so a raise there ends `fetch_historical_data` and `train_model` with the exception; that outcome is not modelled.
- Stats.TodaysGames: the model starts from a successful import-time ScoreboardV2 response (`nba.py:11-13`). A raise there ends the import of the module; that outcome is not modelled.
- The JSON cache of `fetch_team_stats` (`nba.py:98-108`, `nba.py:153-159`). It is read whenever the file exists and parses, with no date test, so after one successful fetch the real function neither fetches again nor returns None. It is file I/O.
- Stats.FetchTeamStats: it models a run with no readable cache file, so its "None iff the request raised" holds only for such a run.
- The CSV cache of `fetch_game_logs_with_cache` (`accuracy.py:28-33`, `accuracy.py:40`). It is the only cache with a same-day freshness test (`getmtime` against today). It is file I/O.
- The `sleep` and `random.uniform` delays between attempts. They are timing; only the bound on attempts is modelled.
- `print` diagnostics, `exit()`, and the module-level side effects of `test.py:139-149` and `utils.py:11`.
- sklearn and joblib: loading the model at import (`predictor.py:13-20`), `train_test_split`, `fit`, `predict_proba` and the saving step in `train_model`. The model is an optional uninterpreted function; the feature lists are what is handed to it.
- `fit` rejecting infinite features. `Training.FeatureRow` guarantees only that no value is NaN.
- `round(x * 100, 2)` in the prediction result. The percentages are unrounded, and floats are idealised as reals.
- The W and L columns selected in `ml_model.py:69`, and `W_PCT` read at `ml_model.py:87`. No later step uses them.
- The `to_csv` debugging dump in `train_model`.
- `train_model()` at the start of the accuracy script. The model is a parameter of the run.
- The Flask routes, documentation generation, `test2.py` and the root-level `nba.py`. They contain no logic beyond the modelled core.
- The `iloc[0]` step of `test.py:65-66`. A single row is never a DataFrame there, so it does nothing.
- pandas NaN descriptions in the play-by-play. A missing description is `None`, and `str(None)` is "None".
- Network failures inside the possession-factor computation, which would make `test.py:134-136` return `{}`.
- FreeThrows.FetchTeamStats: `get_average_ft_possession_factor` runs once per matching row. The model runs it each time on the same inputs, so responses that change between calls are not modelled.
- FreeThrows.DaysSearched: the days behind today are indices 0, 1, 2, … into the scoreboards parameter. Date arithmetic is not modelled.
- Teams.CurrentSeasonStartYear: stated for four-digit years only, from 1001 to 9998.
- Teams.CurrentSeason: its "YYYY-yy" shape is stated for four-digit years only, from 1001 to 9998.
- Teams.RepeatedKeysAgree: it does not state that GSW, NOP, NYK, OKC and SAS are the only keys written twice. That needs all 861 pairs of the 42 literal keys compared, which is too costly for the solver; the lookups that matter are proved one key at a time.
- Stats.Last5Stats: its contract gives the all-fail case and the W_PCT bound only. That the first successful download decides is the lemma Last5StatsOfFirstSuccess.
- FreeThrows.StatsSeason: its contract covers the months before October only. That it differs from the current season from October on is StatsSeasonIsCurrentBeforeOctober, for four-digit years.
- Accuracy.DropDuplicates: its contract keeps only the subset property. Distinctness and first-row keeping are the lemmas DropDuplicatesDistinct and DropDuplicatesKeepsFirst.
- Training.RetryGetLast5GamesStats: the number of calls is a ghost out-parameter.

## Findings

| source | as written | input that shows it | evidently intended | confidence | as-written member | corrected member |
|---|---|---|---|---|---|---|
| sports_analytics_dashboard/accuracy.py:57-62 | `games.drop_duplicates(...)` runs before `if games is None` | all three game-log downloads raise, so `games` is None and line 58 raises AttributeError | a failed download prints the abort message and stops | not executed | Accuracy.RunAsWritten | Accuracy.Run |
| sports_analytics_dashboard/accuracy.py:67-88 | a None `all_team_stats` is reported, then still used with `.get` | the team-stats request raises while the log has at least one game; line 87 raises AttributeError | the stats are only diagnostics, so evaluation continues without them | not executed | Accuracy.RunAsWritten | Accuracy.Run |
| sports_analytics_dashboard/accuracy.py:75-102 | `actual = home if row["WL"] == "W" else away`, although WL is the result of the row's own team and `drop_duplicates` may keep the away team's row | the kept row of a game is the Lakers' "LAL @ BOS" with WL "W": the Lakers won at Boston, and Boston is taken for the winner (the witness is simplified: TEAM_NAME "LAL" and an empty alias table; HomeOnWinMiscreditsAwayWin states it for every away row) | a "W" credits the row's own team, home or away | not executed | Accuracy.LakersWinAtBostonCreditsBoston | Accuracy.RowTeamOnWinCreditsRowTeam |
