/**
 * The accuracy evaluation script (sports_analytics_dashboard/accuracy.py): the season of the
 * evaluation, the game-log download, duplicate removal by GAME_ID, the parsing of the
 * MATCHUP column, and the loop that counts correct and evaluated predictions.
 */
module Accuracy {
  import opened Wrappers
  import opened Text
  import Attempts
  import Seqs
  import Teams
  import Stats
  import Predictor

  /** The season string of the script, written with the comparison turned around. */
  function EvaluationSeason(year: int, month: int): (s: string)
    ensures s == Teams.CurrentSeason(year, month)
  {
    if month < 10 then IntToString(year - 1) + "-" + DropTwo(IntToString(year))
    else IntToString(year) + "-" + DropTwo(IntToString(year + 1))
  }

  /** The script evaluates the same season the dashboard shows. */
  lemma EvaluationSeasonIsCurrent(year: int, month: int)
    ensures EvaluationSeason(year, month) == Teams.CurrentSeason(year, month)
  {
  }

  /** One row of the league game log: a team's line in one game. */
  datatype GameRow = GameRow(gameId: string, teamName: string, matchup: string, wl: string)

  /** Download attempts for the game log before giving up. */
  const LogRetries: nat := 3

  /**
   * `fetch_game_logs_with_cache` without its file cache: up to three download attempts, the
   * first that does not raise gives the log, None when all of them raise.
   */
  method FetchGameLogs(downloads: nat -> Option<seq<GameRow>>) returns (games: Option<seq<GameRow>>)
    ensures games == Attempts.FirstSome(downloads, 0, LogRetries)
  {
    for attempt := 0 to LogRetries
      invariant Attempts.FirstSome(downloads, attempt, LogRetries) == Attempts.FirstSome(downloads, 0, LogRetries)
    {
      var df := downloads(attempt);
      if df.Some? {
        return df;
      }
    }
    return None;
  }

  // ---------------------------------------------------------------------------------------
  // drop_duplicates(subset="GAME_ID")

  /** The GAME_IDs of the first `n` rows. */
  function IdsBefore(rows: seq<GameRow>, n: nat): set<string>
    requires n <= |rows|
  {
    set i | 0 <= i < n :: rows[i].gameId
  }

  /** `drop_duplicates(subset="GAME_ID")`: the first row of each game, in log order. */
  function DropDuplicates(rows: seq<GameRow>): (kept: seq<GameRow>)
    ensures forall r :: r in kept ==> r in rows
  {
    if rows == [] then []
    else
      var kept := DropDuplicates(rows[..|rows| - 1]);
      var last := rows[|rows| - 1];
      if last.gameId in IdsBefore(rows, |rows| - 1) then kept else kept + [last]
  }

  /** No two rows belong to the same game. */
  predicate DistinctGames(rows: seq<GameRow>) {
    forall i, j :: 0 <= i < j < |rows| ==> rows[i].gameId != rows[j].gameId
  }

  /** No game appears twice after duplicate removal. */
  lemma {:induction false} DropDuplicatesDistinct(rows: seq<GameRow>)
    ensures DistinctGames(DropDuplicates(rows))
  {
    if rows != [] {
      var init := rows[..|rows| - 1];
      var last := rows[|rows| - 1];
      DropDuplicatesDistinct(init);
      var kept := DropDuplicates(init);
      if last.gameId !in IdsBefore(rows, |rows| - 1) {
        forall i | 0 <= i < |kept|
          ensures kept[i].gameId != last.gameId
        {
          assert kept[i] in init;
          var k :| 0 <= k < |init| && init[k] == kept[i];
          assert rows[k].gameId in IdsBefore(rows, |rows| - 1);
        }
        var extended := kept + [last];
        assert DropDuplicates(rows) == extended;
        forall i, j | 0 <= i < j < |extended|
          ensures extended[i].gameId != extended[j].gameId
        {
          assert extended[i] == kept[i];
          if j < |kept| {
            assert extended[j] == kept[j];
            assert kept[i].gameId != kept[j].gameId;
          } else {
            assert extended[j] == last;
            assert kept[i].gameId != last.gameId;
          }
        }
      }
    }
  }

  /** The row that opens a game is always kept: every game keeps its first row. */
  lemma {:induction false} DropDuplicatesKeepsFirst(rows: seq<GameRow>, i: nat)
    requires i < |rows|
    requires forall j :: 0 <= j < i ==> rows[j].gameId != rows[i].gameId
    ensures rows[i] in DropDuplicates(rows)
  {
    var init := rows[..|rows| - 1];
    if i < |rows| - 1 {
      DropDuplicatesKeepsFirst(init, i);
    } else {
      assert rows[i].gameId !in IdsBefore(rows, |rows| - 1);
    }
  }

  // ---------------------------------------------------------------------------------------
  // The evaluation loop

  /**
   * The two teams of a game as the MATCHUP column names them, from the row's own team: a home
   * game ("vs.") gives the row's team as home and the text after the last "vs. " as away; any
   * other matchup gives the row's team as away and the text after the last "@ " as home.
   */
  function ParseMatchup(teamName: string, matchup: string): (teams: (string, string))
    ensures Contains(matchup, "vs.") ==> teams.0 == teamName
    ensures !Contains(matchup, "vs.") ==> teams.1 == teamName
  {
    if Contains(matchup, "vs.") then (teamName, LastField(matchup, "vs. "))
    else (LastField(matchup, "@ "), teamName)
  }

  /** A team abbreviation of the log: capital letters. */
  predicate Abbreviation(s: string) {
    |s| > 0 && forall i :: 0 <= i < |s| ==> 'A' <= s[i] <= 'Z'
  }

  /** No separator that starts with a capital-free character occurs in an abbreviation. */
  lemma AbbreviationHasNo(s: string, sep: string)
    requires Abbreviation(s) && |sep| > 0 && !('A' <= sep[0] <= 'Z')
    ensures !Contains(s, sep)
  {
    forall i | 0 <= i <= |s| - |sep|
      ensures !OccursAt(s, sep, i)
    {
      assert s[i..i + |sep|][0] == s[i];
    }
  }

  /** "LAL vs. BOS" on the Lakers' row: the Lakers at home against BOS. */
  lemma ParseHomeMatchup(teamName: string, abbr: string, opponent: string)
    requires Abbreviation(abbr) && Abbreviation(opponent)
    ensures ParseMatchup(teamName, abbr + " vs. " + opponent) == (teamName, opponent)
  {
    var m := abbr + " vs. " + opponent;
    assert m == (abbr + " ") + "vs. " + opponent;
    assert OccursAt(m, "vs.", |abbr| + 1);
    AbbreviationHasNo(opponent, "vs. ");
    forall i | 0 <= i < |abbr| + 1
      ensures !OccursAt(m, "vs. ", i)
    {
      assert m[i] != 'v';
    }
    LastFieldAfterSeparator(abbr + " ", "vs. ", opponent);
  }

  /** "LAL @ BOS" on the Lakers' row: the Lakers away at BOS. */
  lemma ParseAwayMatchup(teamName: string, abbr: string, opponent: string)
    requires Abbreviation(abbr) && Abbreviation(opponent)
    ensures ParseMatchup(teamName, abbr + " @ " + opponent) == (opponent, teamName)
  {
    var m := abbr + " @ " + opponent;
    assert m == (abbr + " ") + "@ " + opponent;
    forall i | 0 <= i <= |m| - 3
      ensures !OccursAt(m, "vs.", i)
    {
      assert m[i..i + 3][0] == m[i];
    }
    AbbreviationHasNo(opponent, "@ ");
    forall i | 0 <= i < |abbr| + 1
      ensures !OccursAt(m, "@ ", i)
    {
      assert m[i] != '@';
    }
    LastFieldAfterSeparator(abbr + " ", "@ ", opponent);
  }

  /**
   * The home and away names of a row, stripped and normalised: the row's own team is the home
   * team of a "vs." matchup and the away team of any other.
   */
  function GameTeams(row: GameRow, aliases: map<string, string>): (teams: (string, string))
    ensures Contains(row.matchup, "vs.") ==> teams.0 == Teams.Normalize(aliases, row.teamName)
    ensures !Contains(row.matchup, "vs.") ==> teams.1 == Teams.Normalize(aliases, row.teamName)
  {
    var parsed := ParseMatchup(row.teamName, row.matchup);
    StripBeforeNormalize(aliases, row.teamName);
    (Teams.Normalize(aliases, Strip(parsed.0)), Teams.Normalize(aliases, Strip(parsed.1)))
  }

  /** Stripping before normalising changes nothing: normalisation strips first. */
  lemma StripBeforeNormalize(aliases: map<string, string>, name: string)
    ensures Teams.Normalize(aliases, Strip(name)) == Teams.Normalize(aliases, name)
  {
    StripIdempotent(name);
  }

  /**
   * How the actual winner is read off a row. The script as written takes the home team when
   * the row's WL is "W" and the away team otherwise, whichever side the row's team played;
   * WL is the result of the row's own team, so the intended reading names that team on a "W"
   * and its opponent otherwise.
   */
  datatype WinnerRule = HomeOnWin | RowTeamOnWin

  /** The actual winner of the game of a row, given its (home, away) teams. */
  function ActualWinner(row: GameRow, teams: (string, string), rule: WinnerRule): (winner: string)
    ensures winner == teams.0 || winner == teams.1
    ensures rule == HomeOnWin ==> (winner == teams.0 <== row.wl == "W") && (winner == teams.1 <== row.wl != "W")
    ensures rule == RowTeamOnWin && Contains(row.matchup, "vs.") ==>
              (winner == teams.0 <== row.wl == "W") && (winner == teams.1 <== row.wl != "W")
    ensures rule == RowTeamOnWin && !Contains(row.matchup, "vs.") ==>
              (winner == teams.1 <== row.wl == "W") && (winner == teams.0 <== row.wl != "W")
  {
    match rule
    case HomeOnWin => if row.wl == "W" then teams.0 else teams.1
    case RowTeamOnWin => if (row.wl == "W") == Contains(row.matchup, "vs.") then teams.0 else teams.1
  }

  /**
   * As written, an away row that records a win credits the home team, which lost: the row's
   * own team won, and it is the away team.
   */
  lemma HomeOnWinMiscreditsAwayWin(row: GameRow, aliases: map<string, string>)
    requires !Contains(row.matchup, "vs.") && row.wl == "W"
    requires GameTeams(row, aliases).0 != GameTeams(row, aliases).1
    ensures GameTeams(row, aliases).1 == Teams.Normalize(aliases, row.teamName)
    ensures ActualWinner(row, GameTeams(row, aliases), HomeOnWin) != Teams.Normalize(aliases, row.teamName)
  {
  }

  /**
   * The Lakers' row of a game they won at Boston. The witness is simplified: the real log's
   * TEAM_NAME is the full name and the script normalises through the real alias table, while
   * here TEAM_NAME is "LAL" and the table is empty. HomeOnWinMiscreditsAwayWin states the
   * miscredit for every away row and every table.
   */
  const LakersWinAtBoston := GameRow("0022400001", "LAL", "LAL @ BOS", "W")

  /** As written, the Lakers' win at Boston is taken for a Boston win; the intended reading names the Lakers. */
  lemma LakersWinAtBostonCreditsBoston()
    ensures GameTeams(LakersWinAtBoston, map[]) == ("BOS", "LAL")
    ensures ActualWinner(LakersWinAtBoston, GameTeams(LakersWinAtBoston, map[]), HomeOnWin) == "BOS"
    ensures ActualWinner(LakersWinAtBoston, GameTeams(LakersWinAtBoston, map[]), RowTeamOnWin) == "LAL"
  {
    LakersAtBostonTeams();
    LakersAtBostonIsAway();
  }

  lemma LakersAndBostonAreAbbreviations()
    ensures Abbreviation("LAL") && Abbreviation("BOS")
  {
  }

  lemma LakersAtBostonIsAway()
    ensures ParseMatchup(LakersWinAtBoston.teamName, LakersWinAtBoston.matchup) == ("BOS", "LAL")
    ensures !Contains(LakersWinAtBoston.matchup, "vs.")
  {
    assert "LAL" + " @ " + "BOS" == LakersWinAtBoston.matchup;
    LakersAndBostonAreAbbreviations();
    ParseAwayMatchup("LAL", "LAL", "BOS");
  }

  lemma LakersAtBostonTeams()
    ensures GameTeams(LakersWinAtBoston, map[]) == ("BOS", "LAL")
  {
    LakersAndBostonAreAbbreviations();
    LakersAtBostonIsAway();
    GameTeamsOfParsed(LakersWinAtBoston, map[]);
    AbbreviationIsItsOwnName("BOS");
    AbbreviationIsItsOwnName("LAL");
  }

  /** The teams of a row are the normalised parsed names; the script's extra strip is absorbed. */
  lemma GameTeamsOfParsed(row: GameRow, aliases: map<string, string>)
    ensures var parsed := ParseMatchup(row.teamName, row.matchup);
      GameTeams(row, aliases) == (Teams.Normalize(aliases, parsed.0), Teams.Normalize(aliases, parsed.1))
  {
    var parsed := ParseMatchup(row.teamName, row.matchup);
    StripBeforeNormalize(aliases, parsed.0);
    StripBeforeNormalize(aliases, parsed.1);
  }

  /** Without aliases an abbreviation normalises to itself. */
  lemma AbbreviationIsItsOwnName(s: string)
    requires Abbreviation(s)
    ensures Teams.Normalize(map[], s) == s
  {
    StripTrimmed(s);
  }

  /**
   * The intended reading names the row's own team exactly when its WL is "W", whichever side
   * it played, as long as the two sides are different teams.
   */
  lemma RowTeamOnWinCreditsRowTeam(row: GameRow, aliases: map<string, string>)
    requires GameTeams(row, aliases).0 != GameTeams(row, aliases).1
    ensures ActualWinner(row, GameTeams(row, aliases), RowTeamOnWin) == Teams.Normalize(aliases, row.teamName)
            <==> row.wl == "W"
  {
  }

  /** On a home row both readings agree. */
  lemma RulesAgreeOnHomeRows(row: GameRow, teams: (string, string))
    requires Contains(row.matchup, "vs.")
    ensures ActualWinner(row, teams, HomeOnWin) == ActualWinner(row, teams, RowTeamOnWin)
  {
  }

  /**
   * The verdict on one game: None when the predictor gives no answer (the game is skipped),
   * otherwise whether the predicted winner is the actual one.
   */
  function Verdict(row: GameRow, aliases: map<string, string>, predict: Predict, rule: WinnerRule)
    : (verdict: Option<bool>)
    ensures var teams := GameTeams(row, aliases);
      && (verdict.None? <==> predict(teams.0, teams.1).None?)
      && (verdict.Some? ==> (verdict.value <==> predict(teams.0, teams.1).value.winner == ActualWinner(row, teams, rule)))
  {
    var teams := GameTeams(row, aliases);
    match predict(teams.0, teams.1)
    case None => None
    case Some(p) => Some(p.winner == ActualWinner(row, teams, rule))
  }

  /** `predict_win_probability(home, away)`: a prediction, or None. */
  type Predict = (string, string) -> Option<Predictor.Prediction>

  /** The predictor over the predictor module's `team_stats` and `model` globals. */
  function PredictorOf(teamStats: Option<map<string, Stats.Record>>, model: Option<Predictor.Classifier>,
                       aliases: map<string, string>): Predict {
    (home: string, away: string) => Predictor.PredictWinProbability(teamStats, model, aliases, home, away)
  }

  /**
   * With a canonical alias table the predictor names the teams the script parsed, and its
   * winner is one of them, so comparing it with the actual winner compares like with like.
   */
  lemma PredictionNamesParsedTeams(row: GameRow, teamStats: Option<map<string, Stats.Record>>,
                                   model: Option<Predictor.Classifier>, aliases: map<string, string>)
    requires Teams.Canonical(aliases)
    ensures var teams := GameTeams(row, aliases);
      var p := Predictor.PredictWinProbability(teamStats, model, aliases, teams.0, teams.1);
      p.Some? ==> && p.value.homeTeam == teams.0 && p.value.awayTeam == teams.1
                  && (p.value.winner == teams.0 || p.value.winner == teams.1)
  {
    var parsed := ParseMatchup(row.teamName, row.matchup);
    Teams.NormalizeIdempotent(aliases, Strip(parsed.0));
    Teams.NormalizeIdempotent(aliases, Strip(parsed.1));
  }

  /** The counters after a sequence of games: (correct, total). */
  function Tally(rows: seq<GameRow>, aliases: map<string, string>, predict: Predict, rule: WinnerRule): (counts: (nat, nat))
    ensures counts.0 <= counts.1 <= |rows|
  {
    if rows == [] then (0, 0)
    else
      Count(Tally(rows[..|rows| - 1], aliases, predict, rule), Verdict(rows[|rows| - 1], aliases, predict, rule))
  }

  /** The counters after one more game with the given verdict. */
  function Count(counts: (nat, nat), verdict: Option<bool>): (nat, nat) {
    match verdict
    case None => counts
    case Some(hit) => (if hit then counts.0 + 1 else counts.0, counts.1 + 1)
  }

  /**
   * The counters count games: `total` is the number of games with a prediction and `correct`
   * the number of those whose prediction names the actual winner.
   */
  lemma {:induction false} TallyCounts(rows: seq<GameRow>, aliases: map<string, string>, predict: Predict, rule: WinnerRule)
    ensures Tally(rows, aliases, predict, rule).0 == Seqs.CountWhere(rows, (r: GameRow) => Verdict(r, aliases, predict, rule) == Some(true))
    ensures Tally(rows, aliases, predict, rule).1 == Seqs.CountWhere(rows, (r: GameRow) => Verdict(r, aliases, predict, rule).Some?)
  {
    if rows != [] {
      TallyCounts(rows[..|rows| - 1], aliases, predict, rule);
      Seqs.CountWhereStep(rows, (r: GameRow) => Verdict(r, aliases, predict, rule) == Some(true));
      Seqs.CountWhereStep(rows, (r: GameRow) => Verdict(r, aliases, predict, rule).Some?);
    }
  }

  /** Without a model or without team stats no game is evaluated. */
  lemma {:induction false} NothingEvaluatedWithoutPredictor(rows: seq<GameRow>, teamStats: Option<map<string, Stats.Record>>,
                                                            model: Option<Predictor.Classifier>, aliases: map<string, string>,
                                                            rule: WinnerRule)
    requires teamStats.None? || model.None?
    ensures Tally(rows, aliases, PredictorOf(teamStats, model, aliases), rule) == (0, 0)
  {
    if rows != [] {
      NothingEvaluatedWithoutPredictor(rows[..|rows| - 1], teamStats, model, aliases, rule);
    }
  }

  /**
   * The loop of the script over the deduplicated games: a game without a prediction is
   * skipped; every other game adds one to `total`, and one to `correct` when the prediction
   * names the actual winner.
   */
  method EvaluateGames(games: seq<GameRow>, aliases: map<string, string>, predict: Predict, rule: WinnerRule)
    returns (correct: nat, total: nat)
    ensures (correct, total) == Tally(games, aliases, predict, rule)
    ensures correct <= total <= |games|
  {
    correct, total := 0, 0;
    for i := 0 to |games|
      invariant (correct, total) == Tally(games[..i], aliases, predict, rule)
    {
      TallyStep(games, i, aliases, predict, rule);
      correct, total := CountGame(correct, total, games[i], aliases, predict, rule);
    }
    assert games[..|games|] == games;
  }

  /**
   * One pass of the loop body: a game without a prediction is skipped (`continue`); any other
   * adds one to `total`, and one to `correct` when the prediction is right.
   */
  method CountGame(correct: nat, total: nat, row: GameRow, aliases: map<string, string>, predict: Predict,
                   rule: WinnerRule)
    returns (correct': nat, total': nat)
    ensures (correct', total') == Count((correct, total), Verdict(row, aliases, predict, rule))
  {
    correct', total' := correct, total;
    var verdict := EvaluateGame(row, aliases, predict, rule);
    if verdict.None? {
      return;
    }
    if verdict.value {
      correct' := correct' + 1;
    }
    total' := total' + 1;
  }

  /** The counters after one more game are those before it, counted with its verdict. */
  lemma TallyStep(games: seq<GameRow>, i: nat, aliases: map<string, string>, predict: Predict, rule: WinnerRule)
    requires i < |games|
    ensures Tally(games[..i + 1], aliases, predict, rule)
            == Count(Tally(games[..i], aliases, predict, rule), Verdict(games[i], aliases, predict, rule))
  {
    assert games[..i + 1][..i] == games[..i];
  }

  /**
   * One game of the loop: parse and normalise its teams, ask for a prediction, and compare
   * the predicted winner with the actual one; None when there is no prediction to compare.
   */
  method EvaluateGame(row: GameRow, aliases: map<string, string>, predict: Predict, rule: WinnerRule)
    returns (verdict: Option<bool>)
    ensures verdict == Verdict(row, aliases, predict, rule)
  {
    var teams := GameTeams(row, aliases);
    var predicted := predict(teams.0, teams.1);
    if predicted.None? {
      return None;
    }
    var actual := ActualWinner(row, teams, rule);
    return Some(predicted.value.winner == actual);
  }

  /** The reported accuracy: only when at least one game was evaluated. */
  function Report(correct: nat, total: nat): (accuracy: Option<real>)
    requires correct <= total
    ensures accuracy.Some? <==> total > 0
    ensures accuracy.Some? ==> 0.0 <= accuracy.value <= 1.0 && accuracy.value * total as real == correct as real
  {
    if total > 0 then
      assert (correct as real / total as real) * total as real == correct as real;
      Some(correct as real / total as real)
    else None
  }

  // ---------------------------------------------------------------------------------------
  // The script

  /** How a run of the script ends. */
  datatype Outcome =
    | Crashed           // an AttributeError on None
    | Aborted           // the abort message when no game log came back
    | Evaluated(correct: nat, total: nat, accuracy: Option<real>)

  /**
   * The script as written, from the game-log downloads on: duplicate removal runs before the
   * test for None, so a failed download crashes; and team stats that could not be fetched crash
   * the loop at its first game, where they are only looked up for diagnostics. A "W" credits
   * the home team.
   */
  method RunAsWritten(downloads: nat -> Option<seq<GameRow>>, allTeamStats: Option<map<string, Stats.Record>>,
                      teamStats: Option<map<string, Stats.Record>>, model: Option<Predictor.Classifier>,
                      aliases: map<string, string>)
    returns (outcome: Outcome)
    ensures outcome != Aborted
    ensures Attempts.FirstSome(downloads, 0, LogRetries).None? ==> outcome == Crashed
    ensures (&& Attempts.FirstSome(downloads, 0, LogRetries).Some? && allTeamStats.None?
             && DropDuplicates(Attempts.FirstSome(downloads, 0, LogRetries).value) != [])
            ==> outcome == Crashed
    ensures outcome == Crashed <==>
              || Attempts.FirstSome(downloads, 0, LogRetries).None?
              || (allTeamStats.None? && DropDuplicates(Attempts.FirstSome(downloads, 0, LogRetries).value) != [])
    ensures outcome.Evaluated? ==>
              var games := DropDuplicates(Attempts.FirstSome(downloads, 0, LogRetries).value);
              && (outcome.correct, outcome.total) == Tally(games, aliases, PredictorOf(teamStats, model, aliases), HomeOnWin)
              && outcome.accuracy == Report(outcome.correct, outcome.total)
  {
    var logs := FetchGameLogs(downloads);
    if logs.None? {
      return Crashed;
    }
    var games := DropDuplicates(logs.value);
    if allTeamStats.None? && |games| > 0 {
      return Crashed;
    }
    var correct, total := EvaluateGames(games, aliases, PredictorOf(teamStats, model, aliases), HomeOnWin);
    return Evaluated(correct, total, Report(correct, total));
  }

  /**
   * The script as intended: a failed download aborts the evaluation, missing team stats only
   * cost their diagnostics, and a row's WL credits the row's own team.
   */
  method Run(downloads: nat -> Option<seq<GameRow>>, teamStats: Option<map<string, Stats.Record>>,
             model: Option<Predictor.Classifier>, aliases: map<string, string>)
    returns (outcome: Outcome)
    ensures outcome != Crashed
    ensures outcome == Aborted <==> Attempts.FirstSome(downloads, 0, LogRetries).None?
    ensures outcome.Evaluated? ==>
              var games := DropDuplicates(Attempts.FirstSome(downloads, 0, LogRetries).value);
              && (outcome.correct, outcome.total) == Tally(games, aliases, PredictorOf(teamStats, model, aliases), RowTeamOnWin)
              && outcome.correct <= outcome.total <= |games|
              && outcome.accuracy == Report(outcome.correct, outcome.total)
  {
    var logs := FetchGameLogs(downloads);
    if logs.None? {
      return Aborted;
    }
    var games := DropDuplicates(logs.value);
    var correct, total := EvaluateGames(games, aliases, PredictorOf(teamStats, model, aliases), RowTeamOnWin);
    return Evaluated(correct, total, Report(correct, total));
  }
}
