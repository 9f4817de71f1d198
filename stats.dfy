/**
 * Team statistics (sports_analytics_dashboard/nba.py): the projection of today's scoreboard,
 * the last-five-games aggregates and the per-team season records with their last-five merge.
 * The nba_api endpoints are parameters: a scoreboard row set, a season row set, and a fetcher
 * standing for each attempt at downloading the league game log.
 */
module Stats {
  import opened Wrappers
  import opened Floats
  import opened Columns
  import Dicts
  import Attempts
  import Teams

  // ---------------------------------------------------------------------------------------
  // todays_games

  /** One cell of a scoreboard row as the API delivers it. */
  datatype Cell = Str(s: string) | Int(i: int) | Null

  /** One entry of `game_list`. */
  datatype Game = Game(gameId: Cell, homeTeam: string, awayTeam: string, gameTime: Cell)

  /** `team_names[row[pos]]` succeeds: the cell exists and holds a known team id. */
  predicate KnownTeamAt(row: seq<Cell>, pos: nat, teamNames: map<int, string>) {
    pos < |row| && row[pos].Int? && row[pos].i in teamNames
  }

  /** A scoreboard row `todays_games` can project without raising. */
  predicate Projectable(row: seq<Cell>, teamNames: map<int, string>) {
    |row| > 7 && KnownTeamAt(row, 6, teamNames) && KnownTeamAt(row, 7, teamNames)
  }

  /**
   * `todays_games`: one entry per scoreboard row, in row order, with the game id (position 2),
   * the home and visitor team names (ids at positions 6 and 7 looked up in `team_names`) and the
   * game time (position 4). A short row or an unknown team id raises, modelled as None.
   */
  method TodaysGames(games: seq<seq<Cell>>, teamNames: map<int, string>) returns (gameList: Option<seq<Game>>)
    ensures gameList.Some? <==> forall i :: 0 <= i < |games| ==> Projectable(games[i], teamNames)
    ensures gameList.Some? ==> |gameList.value| == |games|
    ensures gameList.Some? ==> forall i :: 0 <= i < |games| ==>
              gameList.value[i] == Game(games[i][2], teamNames[games[i][6].i], teamNames[games[i][7].i], games[i][4])
  {
    var list: seq<Game> := [];
    for i := 0 to |games|
      invariant |list| == i
      invariant forall j :: 0 <= j < i ==> Projectable(games[j], teamNames)
      invariant forall j :: 0 <= j < i ==>
                  list[j] == Game(games[j][2], teamNames[games[j][6].i], teamNames[games[j][7].i], games[j][4])
    {
      var game := games[i];
      if !Projectable(game, teamNames) {
        return None;
      }
      list := list + [Game(game[2], teamNames[game[6].i], teamNames[game[7].i], game[4])];
    }
    return Some(list);
  }

  // ---------------------------------------------------------------------------------------
  // get_last5_games_stats

  /** One row of the league game log: a team's line in one game. */
  datatype GameLogRow = GameLogRow(teamId: int, wl: string, plusMinus: real, tov: real, fga: real, fta: real,
                                   reb: real, ast: real)

  /** `df[df["TEAM_ID"] == team_id]`: the rows of one team, in log order. */
  function TeamRows(log: seq<GameLogRow>, teamId: int): (rows: seq<GameLogRow>)
    ensures |rows| <= |log|
    ensures forall r :: r in rows ==> r in log && r.teamId == teamId
    ensures forall r :: r in log && r.teamId == teamId ==> r in rows
  {
    if log == [] then []
    else
      var rest := TeamRows(log[1..], teamId);
      if log[0].teamId == teamId then [log[0]] + rest else rest
  }

  /** Filtering keeps log order: the rows of a concatenation are the rows of each part, in turn. */
  lemma {:induction false} TeamRowsAppend(a: seq<GameLogRow>, b: seq<GameLogRow>, teamId: int)
    ensures TeamRows(a + b, teamId) == TeamRows(a, teamId) + TeamRows(b, teamId)
  {
    if a != [] {
      assert (a + b)[1..] == a[1..] + b;
      TeamRowsAppend(a[1..], b, teamId);
    } else {
      assert a + b == b;
    }
  }

  /** A log holding only the team's own rows is kept whole and in order. */
  lemma {:induction false} TeamRowsOfOneTeam(log: seq<GameLogRow>, teamId: int)
    requires forall i :: 0 <= i < |log| ==> log[i].teamId == teamId
    ensures TeamRows(log, teamId) == log
  {
    if log != [] {
      TeamRowsOfOneTeam(log[1..], teamId);
    }
  }

  /** `.head(5)` of the team's rows: its first five games in the log, or all of them if fewer. */
  function RecentGames(log: seq<GameLogRow>, teamId: int): (games: seq<GameLogRow>)
    ensures |games| <= 5 && |games| <= |TeamRows(log, teamId)|
    ensures games == TeamRows(log, teamId)[..|games|]
    ensures |games| == 5 || games == TeamRows(log, teamId)
  {
    var rows := TeamRows(log, teamId);
    if |rows| <= 5 then rows else rows[..5]
  }

  /** The numeric columns of the game log. */
  function PlusMinusOf(g: GameLogRow): real { g.plusMinus }
  function TovOf(g: GameLogRow): real { g.tov }
  function FgaOf(g: GameLogRow): real { g.fga }
  function FtaOf(g: GameLogRow): real { g.fta }
  function RebOf(g: GameLogRow): real { g.reb }
  function AstOf(g: GameLogRow): real { g.ast }

  /** The column sum `team_games[col].sum()`. */
  function SumOf(games: seq<GameLogRow>, col: GameLogRow -> real): real {
    if games == [] then 0.0 else SumOf(games[..|games| - 1], col) + col(games[|games| - 1])
  }

  /** A column sum of non-negative entries is non-negative. */
  lemma {:induction false} SumOfNonNegative(games: seq<GameLogRow>, col: GameLogRow -> real)
    requires forall i :: 0 <= i < |games| ==> col(games[i]) >= 0.0
    ensures SumOf(games, col) >= 0.0
  {
    if games != [] {
      SumOfNonNegative(games[..|games| - 1], col);
    }
  }

  /** The number of games whose WL is "W". */
  function Wins(games: seq<GameLogRow>): (n: nat)
    ensures n <= |games|
  {
    if games == [] then 0 else Wins(games[..|games| - 1]) + (if games[|games| - 1].wl == "W" then 1 else 0)
  }

  /** The dictionary `get_last5_games_stats` returns when the team has games in the log. */
  datatype Last5 = Last5(wPct: real, netRating: real, turnoverPct: Float, reb: real, ast: real)

  /** The unguarded last-five turnover rate: `100 * sum(TOV) / (sum(FGA) + 0.44 * sum(FTA) + sum(TOV))`. */
  function Last5TurnoverPct(games: seq<GameLogRow>): Float {
    var tov := SumOf(games, TovOf);
    Div(100.0 * tov, SumOf(games, FgaOf) + 0.44 * SumOf(games, FtaOf) + tov)
  }

  /**
   * The aggregates `get_last5_games_stats` computes from one downloaded log: None (the empty
   * dict) when the team has no game in it; otherwise the share of wins, the mean plus-minus,
   * the turnover rate over the summed totals, and the mean rebounds and assists, all over at
   * most its first five games.
   */
  function Last5FromLog(log: seq<GameLogRow>, teamId: int): (r: Option<Last5>)
    ensures r.None? <==> forall row :: row in log ==> row.teamId != teamId
    ensures r.Some? ==> 0.0 <= r.value.wPct <= 1.0
  {
    var games := RecentGames(log, teamId);
    if games == [] then
      assert forall row :: row in log && row.teamId == teamId ==> row in TeamRows(log, teamId);
      None
    else
      var n := |games| as real;
      assert games[0] in TeamRows(log, teamId);
      Fraction(Wins(games) as real, n);
      Some(Last5(Wins(games) as real / n, SumOf(games, PlusMinusOf) / n, Last5TurnoverPct(games),
                 SumOf(games, RebOf) / n, SumOf(games, AstOf) / n))
  }

  /**
   * For non-negative counts the last-five turnover rate is never infinite: it is a percentage
   * in [0, 100], or NaN exactly when all three totals are zero.
   */
  lemma Last5TurnoverPctBounds(games: seq<GameLogRow>)
    requires forall i :: 0 <= i < |games| ==> games[i].tov >= 0.0 && games[i].fga >= 0.0 && games[i].fta >= 0.0
    ensures var t := Last5TurnoverPct(games);
      || (t.Num? && 0.0 <= t.v <= 100.0)
      || (t == NaN && SumOf(games, TovOf) == SumOf(games, FgaOf) == SumOf(games, FtaOf) == 0.0)
  {
    var tov := SumOf(games, TovOf);
    var fga := SumOf(games, FgaOf);
    var fta := SumOf(games, FtaOf);
    SumOfNonNegative(games, TovOf);
    SumOfNonNegative(games, FgaOf);
    SumOfNonNegative(games, FtaOf);
    var d := fga + 0.44 * fta + tov;
    if d != 0.0 {
      Percentage(tov, d);
    }
  }

  /** A part of a positive whole, as a percentage of it, lies in [0, 100]. */
  lemma Percentage(part: real, whole: real)
    requires 0.0 <= part <= whole && whole > 0.0
    ensures 0.0 <= 100.0 * part / whole <= 100.0
  {
    var q := part / whole;
    Fraction(part, whole);
    assert q * whole == part;
    assert (100.0 * q) * whole == 100.0 * part;
  }

  /** A part of a positive whole, as a fraction of it, lies in [0, 1]. */
  lemma Fraction(part: real, whole: real)
    requires 0.0 <= part <= whole && whole > 0.0
    ensures 0.0 <= part / whole <= 1.0
  {
    assert part / whole * whole == part;
  }

  /** Attempts at downloading the league game log before giving up. */
  const MaxAttempts: nat := 3

  /**
   * What `get_last5_games_stats` returns for the attempt outcomes `fetch`: the aggregates of
   * the first log that downloads, or None (the empty dict) when no attempt succeeds.
   */
  function Last5Stats(fetch: nat -> Option<seq<GameLogRow>>, teamId: int): (r: Option<Last5>)
    ensures (forall k :: 0 <= k < MaxAttempts ==> fetch(k).None?) ==> r.None?
    ensures r.Some? ==> 0.0 <= r.value.wPct <= 1.0
  {
    match Attempts.FirstSome(fetch, 0, MaxAttempts)
    case None => None
    case Some(log) => Last5FromLog(log, teamId)
  }

  /**
   * `get_last5_games_stats`: up to three attempts; a download that raises moves on to the next
   * attempt, the first one that succeeds decides the result. The delay between attempts is not
   * modelled.
   */
  method GetLast5GamesStats(fetch: nat -> Option<seq<GameLogRow>>, teamId: int) returns (last5: Option<Last5>)
    ensures last5 == Last5Stats(fetch, teamId)
  {
    for attempt := 0 to MaxAttempts
      invariant Attempts.FirstSome(fetch, attempt, MaxAttempts) == Attempts.FirstSome(fetch, 0, MaxAttempts)
    {
      var log := fetch(attempt);
      if log.Some? {
        return Last5FromLog(log.value, teamId);
      }
    }
    return None;
  }

  /**
   * When attempt `k` is the first whose download succeeds, `get_last5_games_stats` returns the
   * aggregates of that log: the earlier failures leave no trace and no later attempt is made.
   */
  lemma Last5StatsOfFirstSuccess(fetch: nat -> Option<seq<GameLogRow>>, teamId: int, k: nat)
    requires k < MaxAttempts && fetch(k).Some?
    requires forall j :: 0 <= j < k ==> fetch(j).None?
    ensures Last5Stats(fetch, teamId) == Last5FromLog(fetch(k).value, teamId)
  {
    Attempts.FirstSomeIs(fetch, 0, MaxAttempts, k);
  }

  /** When all three downloads raise, the result is the empty dict. */
  lemma Last5StatsAllFail(fetch: nat -> Option<seq<GameLogRow>>, teamId: int)
    requires forall k :: 0 <= k < MaxAttempts ==> fetch(k).None?
    ensures Last5Stats(fetch, teamId).None?
  {
  }

  // ---------------------------------------------------------------------------------------
  // fetch_team_stats

  /** One row of the league dashboard: a team's season totals. */
  datatype SeasonRow = SeasonRow(teamId: int, teamName: string, gp: int, wPct: real, plusMinus: real,
                                 fga: real, fta: real, tov: real, reb: real, ast: real)

  /** The possession estimate `FGA + 0.44 * FTA + TOV`. */
  function Possessions(fga: real, fta: real, tov: real): real {
    fga + 0.44 * fta + tov
  }

  /** The guarded season turnover rate: turnovers per 100 estimated possessions, or 0. */
  function SeasonTurnoverPct(fga: real, fta: real, tov: real): (r: real)
    ensures Possessions(fga, fta, tov) > 0.0 ==> r * Possessions(fga, fta, tov) == 100.0 * tov
    ensures Possessions(fga, fta, tov) <= 0.0 ==> r == 0.0
  {
    var p := Possessions(fga, fta, tov);
    if p > 0.0 then 100.0 * tov / p else 0.0
  }

  /** For non-negative counts the season turnover rate is a percentage. */
  lemma SeasonTurnoverPctBounds(fga: real, fta: real, tov: real)
    requires fga >= 0.0 && fta >= 0.0 && tov >= 0.0
    ensures 0.0 <= SeasonTurnoverPct(fga, fta, tov) <= 100.0
  {
    var p := Possessions(fga, fta, tov);
    if p > 0.0 {
      Percentage(tov, p);
      assert SeasonTurnoverPct(fga, fta, tov) == 100.0 * tov / p;
    }
  }

  /** The guarded season net rating: plus-minus per game, or 0 when no game was played. */
  function SeasonNetRating(plusMinus: real, gp: int): (r: real)
    ensures gp != 0 ==> r * gp as real == plusMinus
    ensures gp == 0 ==> r == 0.0
  {
    if gp != 0 then plusMinus / gp as real else 0.0
  }

  /** A team's record: statistic keys to values. */
  type Record = map<Column, Float>

  /** The value a season record stores under a season key. */
  function SeasonValue(row: SeasonRow, c: Column): Float
    requires c in SeasonColumns
  {
    match c
    case WinPct => Num(row.wPct)
    case NetRating => Num(SeasonNetRating(row.plusMinus, row.gp))
    case TurnoverPct => Num(SeasonTurnoverPct(row.fga, row.fta, row.tov))
    case PlusMinus => Num(row.plusMinus)
    case Tov => Num(row.tov)
    case Fga => Num(row.fga)
    case Fta => Num(row.fta)
    case Reb => Num(row.reb)
    case Ast => Num(row.ast)
  }

  /** The value the last-five merge stores under a last-five key. */
  function Last5Value(last5: Last5, c: Column): Float
    requires c in Last5Columns
  {
    match c
    case WinPctLast5 => Num(last5.wPct)
    case NetRatingLast5 => Num(last5.netRating)
    case TurnoverPctLast5 => last5.turnoverPct
    case RebLast5 => Num(last5.reb)
    case AstLast5 => Num(last5.ast)
  }

  /** The nine season entries `stats[team]` starts with. */
  function SeasonRecord(row: SeasonRow): (rec: Record)
    ensures rec.Keys == SeasonColumns
  {
    map c | c in SeasonColumns :: SeasonValue(row, c)
  }

  /** The five `_LAST5` entries added to an existing record; the other entries stay. */
  function WithLast5(rec: Record, last5: Last5): (r: Record)
    ensures r.Keys == rec.Keys + Last5Columns
    ensures forall c :: c in rec && c !in Last5Columns ==> r[c] == rec[c]
    ensures forall c :: c in Last5Columns ==> r[c] == Last5Value(last5, c)
  {
    map c | c in rec.Keys + Last5Columns :: if c in Last5Columns then Last5Value(last5, c) else rec[c]
  }

  /**
   * A team's final record: the season entries, plus the last-five entries exactly when
   * last-five data exists.
   */
  function TeamRecord(row: SeasonRow, last5: Option<Last5>): (rec: Record)
    ensures rec.Keys == SeasonColumns + (if last5.Some? then Last5Columns else {})
    ensures forall c :: c in SeasonColumns ==> rec[c] == SeasonValue(row, c)
    ensures last5.Some? ==> forall c :: c in Last5Columns ==> rec[c] == Last5Value(last5.value, c)
  {
    ColumnsDisjoint();
    match last5
    case None => SeasonRecord(row)
    case Some(l) => WithLast5(SeasonRecord(row), l)
  }

  /**
   * The last-five data a row receives: only when `get_team_id` found a truthy (non-zero) id,
   * and then whatever `get_last5_games_stats` returns for that id.
   */
  function Last5For(teamId: Option<int>, fetch: nat -> Option<seq<GameLogRow>>): Option<Last5> {
    match teamId
    case Some(id) => if id != 0 then Last5Stats(fetch, id) else None
    case None => None
  }

  /** The (TEAM_NAME, record) pairs the loop stores, row by row; `fetch(i)` serves row `i`. */
  function StatsPairs(aliases: map<string, string>, teams: seq<Teams.Team>, rows: seq<SeasonRow>,
                      fetch: nat -> nat -> Option<seq<GameLogRow>>): (pairs: seq<(string, Record)>)
    ensures |pairs| == |rows|
    ensures forall i :: 0 <= i < |rows| ==> pairs[i].0 == rows[i].teamName
    ensures forall i :: 0 <= i < |rows| ==>
              pairs[i] == (rows[i].teamName, TeamRecord(rows[i], Last5For(Teams.TeamIdOf(aliases, teams, rows[i].teamName), fetch(i))))
  {
    seq(|rows|, i requires 0 <= i < |rows| =>
      (rows[i].teamName, TeamRecord(rows[i], Last5For(Teams.TeamIdOf(aliases, teams, rows[i].teamName), fetch(i)))))
  }

  /**
   * `fetch_team_stats` without its cache: None when the dashboard request raises; otherwise one
   * entry per distinct TEAM_NAME (the raw name, not normalised), holding the record built from
   * the last row with that name. `fetch(i)` gives the outcomes of the game-log attempts made
   * while processing row `i`.
   */
  method FetchTeamStats(response: Option<seq<SeasonRow>>, aliases: map<string, string>, teams: seq<Teams.Team>,
                        fetch: nat -> nat -> Option<seq<GameLogRow>>)
    returns (stats: Option<map<string, Record>>)
    ensures response.None? <==> stats.None?
    ensures response.Some? ==> stats == Some(Dicts.FromPairs(StatsPairs(aliases, teams, response.value, fetch)))
    ensures response.Some? ==> stats.value.Keys == set i | 0 <= i < |response.value| :: response.value[i].teamName
  {
    if response.None? {
      return None;
    }
    var rows := response.value;
    ghost var pairs := StatsPairs(aliases, teams, rows, fetch);
    var table: map<string, Record> := map[];
    for i := 0 to |rows|
      invariant table == Dicts.FromPairs(pairs[..i])
    {
      assert pairs[..i + 1][..i] == pairs[..i];
      var teamId := Teams.GetTeamId(aliases, teams, rows[i].teamName);
      table := AddTeam(table, rows[i], teamId, fetch(i));
    }
    assert pairs[..|rows|] == pairs;
    StatsKeys(aliases, teams, rows, fetch);
    return Some(table);
  }

  /**
   * The rest of one iteration, once `get_team_id` has answered `teamId`: store the season
   * record under the row's TEAM_NAME, then, when the id is truthy and its last-five data is
   * non-empty, add the five `_LAST5` entries to that record in place.
   */
  method AddTeam(table: map<string, Record>, row: SeasonRow, teamId: Option<int>, fetch: nat -> Option<seq<GameLogRow>>)
    returns (table': map<string, Record>)
    ensures table' == table[row.teamName := TeamRecord(row, Last5For(teamId, fetch))]
  {
    table' := table[row.teamName := SeasonRecord(row)];
    if teamId.Some? && teamId.value != 0 {
      var last5 := GetLast5GamesStats(fetch, teamId.value);
      if last5.Some? {
        table' := table'[row.teamName := WithLast5(table'[row.teamName], last5.value)];
      }
    }
  }

  /** The stats dictionary has exactly the TEAM_NAMEs of the rows as keys. */
  lemma StatsKeys(aliases: map<string, string>, teams: seq<Teams.Team>, rows: seq<SeasonRow>,
                  fetch: nat -> nat -> Option<seq<GameLogRow>>)
    ensures Dicts.FromPairs(StatsPairs(aliases, teams, rows, fetch)).Keys == set i | 0 <= i < |rows| :: rows[i].teamName
  {
    NamesAreKeys(StatsPairs(aliases, teams, rows, fetch), rows);
  }

  /** Pairs listing the rows' TEAM_NAMEs, in order, build a dict with exactly those keys. */
  lemma {:induction false} NamesAreKeys(pairs: seq<(string, Record)>, rows: seq<SeasonRow>)
    requires |pairs| == |rows|
    requires forall i :: 0 <= i < |rows| ==> pairs[i].0 == rows[i].teamName
    ensures Dicts.FromPairs(pairs).Keys == set i | 0 <= i < |rows| :: rows[i].teamName
  {
    Dicts.FromPairsKeys(pairs);
    var listed := set i | 0 <= i < |pairs| :: pairs[i].0;
    var names := set i | 0 <= i < |rows| :: rows[i].teamName;
    forall k | k in names
      ensures k in listed
    {
      var i :| 0 <= i < |rows| && rows[i].teamName == k;
      assert pairs[i].0 == k;
    }
    assert listed == names;
  }
}
