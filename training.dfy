/**
 * The training data of the win-probability model (sports_analytics_dashboard/ml_model.py):
 * the season string, the retry wrapper around the last-five fetch, the per-team frame built
 * column by column and cell by cell, the WIN label, and the null-dropping and column
 * selection that precede the fit. The fit itself is not part of this model.
 */
module Training {
  import opened Wrappers
  import opened Floats
  import opened Columns
  import opened Text
  import Attempts
  import Seqs
  import Teams
  import Stats

  /** `get_current_season` of this file: the October rule, written out once more. */
  function CurrentSeason(year: int, month: int): (s: string)
    ensures s == Teams.CurrentSeason(year, month)
  {
    if month >= 10 then IntToString(year) + "-" + DropTwo(IntToString(year + 1))
    else IntToString(year - 1) + "-" + DropTwo(IntToString(year))
  }

  /** The training season string is the dashboard's season string for every date. */
  lemma SameSeasonRule(year: int, month: int)
    ensures CurrentSeason(year, month) == Teams.CurrentSeason(year, month)
  {
  }

  // ---------------------------------------------------------------------------------------
  // retry_get_last5_games_stats

  /** The default number of attempts. */
  const DefaultRetries: nat := 3

  /**
   * What each call of `get_last5_games_stats(team_id)` returns, call by call: `downloads(k)`
   * holds the outcomes of the game-log downloads made during call `k`.
   */
  function CallResults(downloads: nat -> nat -> Option<seq<Stats.GameLogRow>>, teamId: int): nat -> Option<Stats.Last5> {
    (k: nat) => Stats.Last5Stats(downloads(k), teamId)
  }

  /**
   * `retry_get_last5_games_stats`: at most `retries` calls; the first non-empty result is
   * returned at once, and the empty dict (None) when every call comes back empty. `calls`
   * counts the calls made. The delay between calls is not modelled.
   */
  method RetryGetLast5GamesStats(downloads: nat -> nat -> Option<seq<Stats.GameLogRow>>, teamId: int, retries: nat)
    returns (result: Option<Stats.Last5>, ghost calls: nat)
    ensures result == Attempts.FirstSome(CallResults(downloads, teamId), 0, retries)
    ensures calls <= retries
    ensures result.Some? ==> 1 <= calls && result == CallResults(downloads, teamId)(calls - 1)
    ensures result.None? ==> calls == retries
    ensures forall k :: 0 <= k < calls - 1 ==> CallResults(downloads, teamId)(k).None?
  {
    ghost var results := CallResults(downloads, teamId);
    calls := 0;
    for attempt := 0 to retries
      invariant calls == attempt
      invariant Attempts.FirstSome(results, attempt, retries) == Attempts.FirstSome(results, 0, retries)
      invariant forall k :: 0 <= k < attempt ==> results(k).None?
    {
      var last5 := Stats.GetLast5GamesStats(downloads(attempt), teamId);
      calls := calls + 1;
      assert results(attempt) == last5;
      if last5.Some? {
        return last5, calls;
      }
      assert Attempts.FirstSome(results, attempt, retries) == Attempts.FirstSome(results, attempt + 1, retries);
    }
    return None, calls;
  }

  // ---------------------------------------------------------------------------------------
  // fetch_historical_data

  /**
   * One row of the training frame: the identifying columns kept from the dashboard row and
   * the statistic cells. A column missing from `cells` holds None (null).
   */
  datatype FrameRow = FrameRow(teamId: int, teamName: string, gp: int, cells: Stats.Record)

  /**
   * The value a training column takes from the team's dashboard row: the raw counts, and the
   * two derived rates with no zero guard.
   */
  function TrainingValue(raw: Stats.SeasonRow, c: Column): Float
    requires c in SeasonColumns
  {
    match c
    case WinPct => Num(raw.wPct)
    case NetRating => Div(raw.plusMinus, raw.gp as real)
    case TurnoverPct => Scale(100.0, Div(raw.tov, Stats.Possessions(raw.fga, raw.fta, raw.tov)))
    case PlusMinus => Num(raw.plusMinus)
    case Tov => Num(raw.tov)
    case Fga => Num(raw.fga)
    case Fta => Num(raw.fta)
    case Reb => Num(raw.reb)
    case Ast => Num(raw.ast)
  }

  /**
   * The frame row before the loop: the selected columns and the two derived rates; REB, AST
   * and the five `_LAST5` columns are still None.
   */
  function Derived(raw: Stats.SeasonRow): (row: FrameRow)
    ensures row.cells.Keys == SeasonColumns - {Reb, Ast}
  {
    FrameRow(raw.teamId, raw.teamName, raw.gp,
             map c | c in SeasonColumns && c != Reb && c != Ast :: TrainingValue(raw, c))
  }

  /**
   * One iteration of the loop on a frame row: the five `_LAST5` cells when last-five data
   * came back, then REB and AST copied from the dashboard row in every case.
   */
  function Fill(row: FrameRow, raw: Stats.SeasonRow, last5: Option<Stats.Last5>): FrameRow {
    var cells := if last5.Some? then Stats.WithLast5(row.cells, last5.value) else row.cells;
    row.(cells := cells[Reb := Num(raw.reb)][Ast := Num(raw.ast)])
  }

  /**
   * Filling a row keeps its identifying columns and its other cells, adds the `_LAST5` cells
   * exactly when last-five data came back, and sets REB and AST from the dashboard row.
   */
  lemma FillCells(row: FrameRow, raw: Stats.SeasonRow, last5: Option<Stats.Last5>)
    ensures var r := Fill(row, raw, last5);
      && r.teamId == row.teamId && r.teamName == row.teamName && r.gp == row.gp
      && r.cells.Keys == row.cells.Keys + {Reb, Ast} + (if last5.Some? then Last5Columns else {})
      && r.cells[Reb] == Num(raw.reb) && r.cells[Ast] == Num(raw.ast)
      && (forall c :: c in row.cells && c !in Last5Columns && c != Reb && c != Ast ==> r.cells[c] == row.cells[c])
      && (last5.Some? ==> forall c :: c in Last5Columns ==> r.cells[c] == Stats.Last5Value(last5.value, c))
  {
  }

  /** The last-five data a row receives: only for a truthy id, through the retry wrapper. */
  function LastFiveFor(teamId: Option<int>, downloads: nat -> nat -> Option<seq<Stats.GameLogRow>>): Option<Stats.Last5> {
    match teamId
    case Some(id) => if id != 0 then Attempts.FirstSome(CallResults(downloads, id), 0, DefaultRetries) else None
    case None => None
  }

  /** What `get_team_id` answers for the TEAM_NAME of each row. */
  function TeamIds(aliases: map<string, string>, teams: seq<Teams.Team>, rows: seq<Stats.SeasonRow>): (ids: seq<Option<int>>)
    ensures |ids| == |rows|
    ensures forall i :: 0 <= i < |rows| ==> ids[i] == Teams.TeamIdOf(aliases, teams, rows[i].teamName)
  {
    seq(|rows|, i requires 0 <= i < |rows| => Teams.TeamIdOf(aliases, teams, rows[i].teamName))
  }

  /** The frame before the loop: the derived columns of each dashboard row. */
  function DerivedFrame(rows: seq<Stats.SeasonRow>): (frame: seq<FrameRow>)
    ensures |frame| == |rows|
    ensures forall i :: 0 <= i < |rows| ==> frame[i] == Derived(rows[i])
  {
    seq(|rows|, i requires 0 <= i < |rows| => Derived(rows[i]))
  }

  /**
   * The frame after the loop, given the frame before it and the id found for each row;
   * `downloads(i)` gives the outcomes of the fetches made for row `i`.
   */
  function FilledFrame(frame: seq<FrameRow>, rows: seq<Stats.SeasonRow>, ids: seq<Option<int>>,
                       downloads: nat -> nat -> nat -> Option<seq<Stats.GameLogRow>>): (filled: seq<FrameRow>)
    requires |frame| == |rows| && |ids| == |rows|
    ensures |filled| == |rows|
    ensures forall i :: 0 <= i < |rows| ==> filled[i] == Fill(frame[i], rows[i], LastFiveFor(ids[i], downloads(i)))
  {
    seq(|rows|, i requires 0 <= i < |rows| => Fill(frame[i], rows[i], LastFiveFor(ids[i], downloads(i))))
  }

  /** A labelled training row. */
  datatype TrainingRow = TrainingRow(frame: FrameRow, win: int)

  /** `WIN = (NET_RATING > 0).astype(int)` on one row; a missing or NaN rating compares false. */
  function Labelled(row: FrameRow): (t: TrainingRow)
    ensures t.frame == row
    ensures t.win == 0 || t.win == 1
  {
    TrainingRow(row, if NetRating in row.cells && Positive(row.cells[NetRating]) then 1 else 0)
  }

  /** The WIN column added to every row of a frame. */
  function LabelAll(frame: seq<FrameRow>): (rows: seq<TrainingRow>)
    ensures |rows| == |frame|
    ensures forall i :: 0 <= i < |frame| ==> rows[i] == Labelled(frame[i])
  {
    seq(|frame|, i requires 0 <= i < |frame| => Labelled(frame[i]))
  }

  /** What `fetch_historical_data` returns for a dashboard response. */
  function HistoricalData(rows: seq<Stats.SeasonRow>, aliases: map<string, string>, teams: seq<Teams.Team>,
                          downloads: nat -> nat -> nat -> Option<seq<Stats.GameLogRow>>): (data: seq<TrainingRow>)
    ensures |data| == |rows|
    ensures forall i :: 0 <= i < |rows| ==>
              data[i] == Labelled(Fill(Derived(rows[i]), rows[i], LastFiveFor(Teams.TeamIdOf(aliases, teams, rows[i].teamName), downloads(i))))
  {
    LabelAll(FilledFrame(DerivedFrame(rows), rows, TeamIds(aliases, teams, rows), downloads))
  }

  /**
   * `fetch_historical_data` over the dashboard rows of the season: the frame is built with
   * the derived columns, then filled cell by cell row by row, then labelled.
   */
  method FetchHistoricalData(rows: seq<Stats.SeasonRow>, aliases: map<string, string>, teams: seq<Teams.Team>,
                             downloads: nat -> nat -> nat -> Option<seq<Stats.GameLogRow>>)
    returns (data: seq<TrainingRow>)
    ensures data == HistoricalData(rows, aliases, teams, downloads)
  {
    var df := new FrameRow[|rows|](i requires 0 <= i < |rows| => Derived(rows[i]));
    assert df[..] == DerivedFrame(rows);
    FillFrame(df, rows, aliases, teams, downloads);
    data := LabelAll(df[..]);
  }

  /** The loop of `fetch_historical_data` over the frame: every row is filled in place, in order. */
  method FillFrame(df: array<FrameRow>, rows: seq<Stats.SeasonRow>, aliases: map<string, string>, teams: seq<Teams.Team>,
                   downloads: nat -> nat -> nat -> Option<seq<Stats.GameLogRow>>)
    requires df.Length == |rows|
    modifies df
    ensures df[..] == FilledFrame(old(df[..]), rows, TeamIds(aliases, teams, rows), downloads)
  {
    ghost var ids := TeamIds(aliases, teams, rows);
    ghost var filled := FilledFrame(df[..], rows, ids, downloads);
    ghost var initial := df[..];
    for idx := 0 to |rows|
      invariant forall j :: 0 <= j < idx ==> df[j] == filled[j]
      invariant forall j :: idx <= j < |rows| ==> df[j] == initial[j]
    {
      var teamId := Teams.GetTeamId(aliases, teams, rows[idx].teamName);
      assert filled[idx] == Fill(df[idx], rows[idx], LastFiveFor(teamId, downloads(idx)));
      FillRow(df, idx, rows[idx], teamId, downloads(idx));
    }
    assert df[..] == filled;
  }

  /**
   * The body of the loop, once `get_team_id` has answered `teamId`: write the `_LAST5` cells
   * of row `idx` when the id is truthy and the retry wrapper returns data, then its REB and
   * AST cells.
   */
  method FillRow(df: array<FrameRow>, idx: nat, raw: Stats.SeasonRow, teamId: Option<int>,
                 downloads: nat -> nat -> Option<seq<Stats.GameLogRow>>)
    requires idx < df.Length
    modifies df
    ensures df[idx] == Fill(old(df[idx]), raw, LastFiveFor(teamId, downloads))
    ensures forall j :: 0 <= j < df.Length && j != idx ==> df[j] == old(df[j])
  {
    if teamId.Some? && teamId.value != 0 {
      var last5, _ := RetryGetLast5GamesStats(downloads, teamId.value, DefaultRetries);
      if last5.Some? {
        df[idx] := df[idx].(cells := Stats.WithLast5(df[idx].cells, last5.value));
      }
    }
    df[idx] := df[idx].(cells := df[idx].cells[Reb := Num(raw.reb)]);
    df[idx] := df[idx].(cells := df[idx].cells[Ast := Num(raw.ast)]);
  }

  /**
   * Every training row has the nine season columns, REB and AST taken from the dashboard
   * row, and the five `_LAST5` columns exactly when its last-five data came back.
   */
  lemma HistoricalColumns(raw: Stats.SeasonRow, last5: Option<Stats.Last5>)
    ensures var t := Labelled(Fill(Derived(raw), raw, last5));
      && t.frame.teamName == raw.teamName
      && t.frame.cells.Keys == SeasonColumns + (if last5.Some? then Last5Columns else {})
      && t.frame.cells[Reb] == Num(raw.reb) && t.frame.cells[Ast] == Num(raw.ast)
  {
    FillCells(Derived(raw), raw, last5);
    FilledKeys(raw, last5);
  }

  /**
   * The WIN label of a training row is 1 exactly when the unguarded plus-minus per game is
   * positive: for a team with no game that means a positive plus-minus (an infinite rating),
   * and 0/0 is NaN, which labels 0.
   */
  lemma WinIffPositiveNetRating(raw: Stats.SeasonRow, last5: Option<Stats.Last5>)
    ensures var t := Labelled(Fill(Derived(raw), raw, last5));
      t.win == 1 <==> if raw.gp != 0 then raw.plusMinus / raw.gp as real > 0.0 else raw.plusMinus > 0.0
  {
    FilledKeys(raw, last5);
    FilledSeasonCells(raw, last5);
  }

  /**
   * Where the dashboard's zero guards do not fire, a training row holds exactly the record the
   * dashboard builds from the same row and last-five data.
   */
  lemma TrainingCellsMatchDashboard(raw: Stats.SeasonRow, last5: Option<Stats.Last5>)
    requires raw.gp != 0 && Stats.Possessions(raw.fga, raw.fta, raw.tov) > 0.0
    ensures Fill(Derived(raw), raw, last5).cells == Stats.TeamRecord(raw, last5)
  {
    FilledCellsAgree(raw, last5, Fill(Derived(raw), raw, last5).cells, Stats.TeamRecord(raw, last5));
  }

  /** The cells of a filled row and the dashboard record have the same keys and the same values. */
  lemma FilledCellsAgree(raw: Stats.SeasonRow, last5: Option<Stats.Last5>, cells: Stats.Record, record: Stats.Record)
    requires raw.gp != 0 && Stats.Possessions(raw.fga, raw.fta, raw.tov) > 0.0
    requires cells == Fill(Derived(raw), raw, last5).cells && record == Stats.TeamRecord(raw, last5)
    ensures cells.Keys == record.Keys
    ensures forall c :: c in cells ==> cells[c] == record[c]
  {
    FilledKeys(raw, last5);
    assert forall c :: c in SeasonColumns ==> cells[c] == record[c] by {
      FilledSeasonCells(raw, last5);
      forall c | c in SeasonColumns
        ensures cells[c] == record[c]
      {
        SeasonCellMatches(raw, c);
      }
    }
    assert forall c :: c in cells && c !in SeasonColumns ==> cells[c] == record[c] by {
      FillCells(Derived(raw), raw, last5);
    }
  }

  /** A filled row holds exactly the season keys, and the last-five keys when data came back. */
  lemma FilledKeys(raw: Stats.SeasonRow, last5: Option<Stats.Last5>)
    ensures Fill(Derived(raw), raw, last5).cells.Keys == SeasonColumns + (if last5.Some? then Last5Columns else {})
  {
    FillCells(Derived(raw), raw, last5);
  }

  /** A filled row holds the season columns as this file computes them. */
  lemma FilledSeasonCells(raw: Stats.SeasonRow, last5: Option<Stats.Last5>)
    ensures forall c :: c in SeasonColumns ==> Fill(Derived(raw), raw, last5).cells[c] == TrainingValue(raw, c)
  {
    FillCells(Derived(raw), raw, last5);
    ColumnsDisjoint();
  }

  /** One season column, unguarded and guarded, when the guards do not fire. */
  lemma SeasonCellMatches(raw: Stats.SeasonRow, c: Column)
    requires c in SeasonColumns
    requires raw.gp != 0 && Stats.Possessions(raw.fga, raw.fta, raw.tov) > 0.0
    ensures TrainingValue(raw, c) == Stats.SeasonValue(raw, c)
  {
    if c == TurnoverPct {
      var p := Stats.Possessions(raw.fga, raw.fta, raw.tov);
      assert 100.0 * (raw.tov / p) == 100.0 * raw.tov / p;
    }
  }

  /**
   * Without the guards the training rates differ: a team with no game gets a net rating that
   * is not a number at all, where the dashboard stores 0.
   */
  lemma UnguardedNetRatingWithoutGames(raw: Stats.SeasonRow)
    requires raw.gp == 0
    ensures !TrainingValue(raw, NetRating).Num?
    ensures Stats.SeasonValue(raw, NetRating) == Num(0.0)
  {
  }

  // ---------------------------------------------------------------------------------------
  // train_model

  /** A row `dropna` keeps: every column present and none NaN (infinities are not null). */
  predicate Complete(row: TrainingRow) {
    && (forall c: Column :: c in row.frame.cells)
    && (forall c :: c in row.frame.cells ==> row.frame.cells[c] != NaN)
  }

  /** `df.dropna()`: the complete rows, in frame order. */
  function DropNa(rows: seq<TrainingRow>): (kept: seq<TrainingRow>)
    ensures |kept| <= |rows|
    ensures forall i :: 0 <= i < |kept| ==> Complete(kept[i])
  {
    if rows == [] then []
    else
      var last := rows[|rows| - 1];
      DropNa(rows[..|rows| - 1]) + (if Complete(last) then [last] else [])
  }

  /** The rows kept are exactly the complete rows of the frame. */
  lemma {:induction false} DropNaMembers(rows: seq<TrainingRow>)
    ensures forall r :: r in DropNa(rows) <==> r in rows && Complete(r)
  {
    if rows != [] {
      var init := rows[..|rows| - 1];
      DropNaMembers(init);
      assert rows == init + [rows[|rows| - 1]];
    }
  }

  /** The number of training rows is the number of complete rows of the frame. */
  lemma {:induction false} DropNaCount(rows: seq<TrainingRow>)
    ensures |DropNa(rows)| == Seqs.CountWhere(rows, Complete)
  {
    if rows != [] {
      DropNaCount(rows[..|rows| - 1]);
      Seqs.CountWhereStep(rows, Complete);
    }
  }

  /** The frame keeps all its rows exactly when every one of them is complete. */
  lemma {:induction false} DropNaKeepsComplete(rows: seq<TrainingRow>)
    requires forall i :: 0 <= i < |rows| ==> Complete(rows[i])
    ensures DropNa(rows) == rows
  {
    if rows != [] {
      DropNaKeepsComplete(rows[..|rows| - 1]);
      assert rows[..|rows| - 1] + [rows[|rows| - 1]] == rows;
    }
  }

  /** The feature columns of `X`, in order. */
  const TrainingColumns: seq<Column> := [
    WinPct, NetRating, TurnoverPct, PlusMinus, Tov,
    Fga, Fta, Reb, Ast, WinPctLast5, NetRatingLast5,
    TurnoverPctLast5, RebLast5, AstLast5
  ]

  /** `X`: the fourteen feature values of each kept row, none of them NaN. */
  function FeatureMatrix(kept: seq<TrainingRow>): (x: seq<seq<Float>>)
    requires forall i :: 0 <= i < |kept| ==> Complete(kept[i])
    ensures |x| == |kept|
    ensures forall i :: 0 <= i < |kept| ==> x[i] == FeatureRow(kept[i])
  {
    seq(|kept|, i requires 0 <= i < |kept| => FeatureRow(kept[i]))
  }

  /** The fourteen feature values of one complete row. */
  function FeatureRow(row: TrainingRow): (x: seq<Float>)
    requires Complete(row)
    ensures |x| == |TrainingColumns|
    ensures forall j :: 0 <= j < |TrainingColumns| ==> x[j] == row.frame.cells[TrainingColumns[j]] && x[j] != NaN
  {
    seq(|TrainingColumns|, j requires 0 <= j < |TrainingColumns| =>
      assert TrainingColumns[j] in row.frame.cells; row.frame.cells[TrainingColumns[j]])
  }

  /** `y`: the WIN label of each kept row. */
  function Labels(kept: seq<TrainingRow>): (y: seq<int>)
    ensures |y| == |kept|
    ensures forall i :: 0 <= i < |kept| ==> y[i] == kept[i].win
  {
    seq(|kept|, i requires 0 <= i < |kept| => kept[i].win)
  }

  /**
   * The training set `train_model` hands to the fit: one feature vector and one label per
   * complete row, aligned row for row.
   */
  function TrainingSet(data: seq<TrainingRow>): (xy: (seq<seq<Float>>, seq<int>))
    ensures |xy.0| == |xy.1| == Seqs.CountWhere(data, Complete)
    ensures forall i :: 0 <= i < |xy.0| ==> |xy.0[i]| == |TrainingColumns|
    ensures |xy.0| == |DropNa(data)|
    ensures forall i :: 0 <= i < |xy.0| ==> xy.0[i] == FeatureRow(DropNa(data)[i]) && xy.1[i] == DropNa(data)[i].win
  {
    var kept := DropNa(data);
    DropNaCount(data);
    (FeatureMatrix(kept), Labels(kept))
  }
}
