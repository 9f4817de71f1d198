/**
 * The repository's first predictor (the root `predictor.py`): its own five-entry name
 * mapping, a normalisation without whitespace stripping, a net-rating table built from the
 * league dashboard rows, and a winner chosen by comparing the two net ratings.
 */
module LegacyPredictor {
  import opened Wrappers
  import Dicts
  import Teams

  /** `team_name_mapping`: five short forms and their full names. */
  const TeamNameMapping: map<string, string> := map[
    "LA Clippers" := "Los Angeles Clippers",
    "NY Knicks" := "New York Knicks",
    "SA Spurs" := "San Antonio Spurs",
    "GS Warriors" := "Golden State Warriors",
    "OKC Thunder" := "Oklahoma City Thunder"
  ]

  /**
   * `normalize_team_name`: a mapped short form becomes its full name; any other string,
   * surrounding whitespace included, comes back unchanged.
   */
  function NormalizeTeamName(teamName: string): (r: string)
    ensures teamName in TeamNameMapping ==> r == TeamNameMapping[teamName]
    ensures teamName !in TeamNameMapping ==> r == teamName
  {
    if teamName in TeamNameMapping then TeamNameMapping[teamName] else teamName
  }

  /** No full name of the mapping is itself a short form of it. */
  lemma MappingValuesAreNotKeys()
    ensures forall k :: k in TeamNameMapping ==> TeamNameMapping[k] !in TeamNameMapping
  {
    forall k | k in TeamNameMapping
      ensures TeamNameMapping[k] !in TeamNameMapping
    {
      assert |TeamNameMapping[k]| > 11;
    }
  }

  /** Normalising twice is normalising once, because no full name is again a short form. */
  lemma NormalizeIdempotent(teamName: string)
    ensures NormalizeTeamName(NormalizeTeamName(teamName)) == NormalizeTeamName(teamName)
  {
    MappingValuesAreNotKeys();
  }

  /**
   * The two mappings disagree on the Clippers: this one turns "LA Clippers" into "Los Angeles
   * Clippers", while the dashboard's alias table turns "Los Angeles Clippers" into "LA Clippers".
   */
  lemma ClippersMappedOppositeWays()
    ensures NormalizeTeamName("LA Clippers") == "Los Angeles Clippers"
    ensures Teams.Normalize(Teams.AliasTable(), "Los Angeles Clippers") == "LA Clippers"
  {
    ShortClippersIsLosAngeles();
    Teams.LosAngelesClippersIsClippers();
  }

  lemma ShortClippersIsLosAngeles()
    ensures NormalizeTeamName("LA Clippers") == "Los Angeles Clippers"
  {
  }

  /** Without stripping, a short form with a leading space is not recognised. */
  lemma PaddedNameUnchanged()
    ensures NormalizeTeamName(" LA Clippers") == " LA Clippers"
  {
    assert |" LA Clippers"| == 12;
  }

  /** The columns of one dashboard row that the script reads: 1, 7 and 8. */
  datatype DashboardRow = DashboardRow(teamName: string, column7: real, column8: real)

  /** `team_stats[normalize_team_name(team[1])] = {"net_rating": team[7] - team[8]}`, row by row. */
  function NetRatingPairs(rows: seq<DashboardRow>): (pairs: seq<(string, real)>)
    ensures |pairs| == |rows|
    ensures forall i :: 0 <= i < |rows| ==>
      pairs[i] == (NormalizeTeamName(rows[i].teamName), rows[i].column7 - rows[i].column8)
  {
    seq(|rows|, i requires 0 <= i < |rows| => (NormalizeTeamName(rows[i].teamName), rows[i].column7 - rows[i].column8))
  }

  /**
   * The table `fetch_team_stats` returns for a dashboard response: empty when the request
   * failed, the net ratings by normalised name otherwise (a later row overwrites an earlier
   * row of the same name).
   */
  function TeamStats(response: Option<seq<DashboardRow>>): (teamStats: map<string, real>)
    ensures response.None? ==> teamStats == map[]
    ensures response.Some? ==>
              teamStats.Keys == set j | 0 <= j < |response.value| :: NormalizeTeamName(response.value[j].teamName)
  {
    match response
    case None => map[]
    case Some(rows) =>
      var pairs := NetRatingPairs(rows);
      Dicts.FromPairsKeys(pairs);
      assert (set j | 0 <= j < |pairs| :: pairs[j].0) == set j | 0 <= j < |rows| :: NormalizeTeamName(rows[j].teamName);
      Dicts.FromPairs(pairs)
  }

  /**
   * `fetch_team_stats`: request the dashboard of the current season (the same October rule
   * as the dashboard's `get_current_season`), then fill the table row by row; a failed
   * request gives the empty table. `dashboard(season)` is the response for `season`.
   */
  method FetchTeamStats(dashboard: string -> Option<seq<DashboardRow>>, year: int, month: int)
    returns (teamStats: map<string, real>)
    ensures teamStats == TeamStats(dashboard(Teams.CurrentSeason(year, month)))
  {
    var response := dashboard(Teams.CurrentSeason(year, month));
    if response.None? {
      return map[];
    }
    teamStats := NetRatings(response.value);
  }

  /** The loop of `fetch_team_stats`: one entry per row, under the row's normalised name. */
  method NetRatings(rows: seq<DashboardRow>) returns (teamStats: map<string, real>)
    ensures teamStats == Dicts.FromPairs(NetRatingPairs(rows))
  {
    ghost var pairs := NetRatingPairs(rows);
    teamStats := map[];
    for i := 0 to |rows|
      invariant teamStats == Dicts.FromPairs(pairs[..i])
    {
      assert pairs[..i + 1][..i] == pairs[..i];
      var teamName := NormalizeTeamName(rows[i].teamName);
      teamStats := teamStats[teamName := rows[i].column7 - rows[i].column8];
    }
    assert pairs[..|rows|] == pairs;
  }

  /**
   * The keys of the table are exactly the normalised names of the rows, and each holds the
   * net rating of the last row with that name.
   */
  lemma {:induction false} TeamStatsEntries(rows: seq<DashboardRow>, i: nat)
    requires i < |rows|
    requires forall j :: i < j < |rows| ==> NormalizeTeamName(rows[j].teamName) != NormalizeTeamName(rows[i].teamName)
    ensures TeamStats(Some(rows)).Keys == set j | 0 <= j < |rows| :: NormalizeTeamName(rows[j].teamName)
    ensures TeamStats(Some(rows))[NormalizeTeamName(rows[i].teamName)] == rows[i].column7 - rows[i].column8
  {
    var pairs := NetRatingPairs(rows);
    Dicts.FromPairsKeys(pairs);
    assert (set j | 0 <= j < |pairs| :: pairs[j].0) == set j | 0 <= j < |rows| :: NormalizeTeamName(rows[j].teamName);
    Dicts.FromPairsLastWins(pairs, i);
  }

  /** The string returned when either team has no stats. */
  const InsufficientData := "Unknown (insufficient data)"

  /**
   * The decision of `predict_winner` over a stats table: the sentinel when either normalised
   * name is missing, otherwise the home team exactly when its net rating is strictly greater.
   */
  function Winner(teamStats: map<string, real>, homeTeam: string, awayTeam: string): (winner: string)
    ensures var home, away := NormalizeTeamName(homeTeam), NormalizeTeamName(awayTeam);
      winner == InsufficientData || winner == home || winner == away
  {
    var home := NormalizeTeamName(homeTeam);
    var away := NormalizeTeamName(awayTeam);
    if home !in teamStats || away !in teamStats then InsufficientData
    else if teamStats[home] > teamStats[away] then home
    else away
  }

  /** `predict_winner`: fetch the table for the date's season, then decide. */
  method PredictWinner(dashboard: string -> Option<seq<DashboardRow>>, year: int, month: int,
                       homeTeam: string, awayTeam: string)
    returns (winner: string)
    ensures winner == Winner(TeamStats(dashboard(Teams.CurrentSeason(year, month))), homeTeam, awayTeam)
  {
    var teamStats := FetchTeamStats(dashboard, year, month);
    var home := NormalizeTeamName(homeTeam);
    var away := NormalizeTeamName(awayTeam);
    if home !in teamStats || away !in teamStats {
      return InsufficientData;
    }
    var homeNet := teamStats[home];
    var awayNet := teamStats[away];
    winner := if homeNet > awayNet then home else away;
  }

  /** Either team missing from the table gives the sentinel. */
  lemma MissingTeamIsInsufficient(teamStats: map<string, real>, homeTeam: string, awayTeam: string)
    requires NormalizeTeamName(homeTeam) !in teamStats || NormalizeTeamName(awayTeam) !in teamStats
    ensures Winner(teamStats, homeTeam, awayTeam) == InsufficientData
  {
  }

  /** A failed request leaves the table empty, so every prediction is the sentinel. */
  lemma FailedFetchIsInsufficient(homeTeam: string, awayTeam: string)
    ensures Winner(TeamStats(None), homeTeam, awayTeam) == InsufficientData
  {
  }

  /**
   * With both teams present, the home team is named exactly when its net rating is strictly
   * greater; otherwise (a tie included) the away team is named.
   */
  lemma HomeWinsIffGreater(teamStats: map<string, real>, homeTeam: string, awayTeam: string)
    requires NormalizeTeamName(homeTeam) in teamStats && NormalizeTeamName(awayTeam) in teamStats
    requires NormalizeTeamName(homeTeam) != NormalizeTeamName(awayTeam)
    ensures var home, away := NormalizeTeamName(homeTeam), NormalizeTeamName(awayTeam);
      && (Winner(teamStats, homeTeam, awayTeam) == home <==> teamStats[home] > teamStats[away])
      && (Winner(teamStats, homeTeam, awayTeam) == away <==> teamStats[home] <= teamStats[away])
  {
  }

  /**
   * Swapping home and away does not change the named winner when the net ratings differ: the
   * decision depends on the ratings, not on the side. On a tie the away team wins either way,
   * so the named winner changes.
   */
  lemma WinnerSymmetricUnlessTied(teamStats: map<string, real>, homeTeam: string, awayTeam: string)
    requires NormalizeTeamName(homeTeam) in teamStats && NormalizeTeamName(awayTeam) in teamStats
    ensures var home, away := NormalizeTeamName(homeTeam), NormalizeTeamName(awayTeam);
      && (teamStats[home] != teamStats[away] ==> Winner(teamStats, homeTeam, awayTeam) == Winner(teamStats, awayTeam, homeTeam))
      && (teamStats[home] == teamStats[away] ==>
            Winner(teamStats, homeTeam, awayTeam) == away && Winner(teamStats, awayTeam, homeTeam) == home)
  {
  }
}
