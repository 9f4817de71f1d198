/**
 * The free-throw possession experiment (sports_analytics_dashboard/test.py): find a team's
 * recent games on the daily scoreboards, count the free throws after which possession
 * changed, turn the counts into a free-throw possession factor, and recompute a team's
 * turnover percentage with that factor.
 */
module FreeThrows {
  import opened Wrappers
  import opened Text
  import Seqs
  import Teams

  // ---------------------------------------------------------------------------------------
  // Play-by-play rows and get_free_throw_data

  /**
   * One play-by-play row, reduced to the columns the script reads: EVENTMSGTYPE, PLAYER1_ID
   * and the two descriptions, each of which may be None.
   */
  datatype PlayEvent = PlayEvent(eventMsgType: int, player1Id: int,
                                 homeDescription: Option<string>, visitorDescription: Option<string>)

  /** Event type 3 marks a free throw. */
  predicate IsFreeThrow(e: PlayEvent) {
    e.eventMsgType == 3
  }

  /** `get_free_throw_data`: the rows of type 3, in play-by-play order. */
  function FreeThrowData(pbp: seq<PlayEvent>): (freeThrows: seq<PlayEvent>)
    ensures forall e :: e in freeThrows <==> e in pbp && IsFreeThrow(e)
    ensures |freeThrows| == Seqs.CountWhere(pbp, IsFreeThrow)
  {
    if pbp == [] then []
    else
      var init := pbp[..|pbp| - 1];
      var last := pbp[|pbp| - 1];
      assert pbp == init + [last];
      Seqs.CountWhereStep(pbp, IsFreeThrow);
      FreeThrowData(init) + if IsFreeThrow(last) then [last] else []
  }

  /** Filtering keeps play-by-play order: the free throws of a concatenation are those of each part, in turn. */
  lemma {:induction false} FreeThrowDataAppend(a: seq<PlayEvent>, b: seq<PlayEvent>)
    ensures FreeThrowData(a + b) == FreeThrowData(a) + FreeThrowData(b)
  {
    if b == [] {
      assert a + b == a;
    } else {
      var init := b[..|b| - 1];
      assert (a + b)[..|a + b| - 1] == a + init;
      assert (a + b)[|a + b| - 1] == b[|b| - 1];
      FreeThrowDataAppend(a, init);
    }
  }

  /** A play-by-play made only of free throws is kept whole and in order. */
  lemma {:induction false} FreeThrowDataOfFreeThrows(pbp: seq<PlayEvent>)
    requires forall i :: 0 <= i < |pbp| ==> IsFreeThrow(pbp[i])
    ensures FreeThrowData(pbp) == pbp
  {
    if pbp != [] {
      var init, last := pbp[..|pbp| - 1], pbp[|pbp| - 1];
      assert pbp == init + [last];
      FreeThrowDataOfFreeThrows(init);
      FreeThrowDataSnoc(init, last);
    }
  }

  /** A free throw appended to the play-by-play is appended to its free throws. */
  lemma FreeThrowDataSnoc(init: seq<PlayEvent>, last: PlayEvent)
    requires IsFreeThrow(last)
    ensures FreeThrowData(init + [last]) == FreeThrowData(init) + [last]
  {
    var pbp := init + [last];
    assert pbp[..|pbp| - 1] == init;
  }

  // ---------------------------------------------------------------------------------------
  // count_possession_changing_fts

  /** Python truthiness of a description: present and non-empty. */
  predicate Truthy(d: Option<string>) {
    d.Some? && d.value != ""
  }

  /** `row["HOMEDESCRIPTION"] or row["VISITORDESCRIPTION"]`. */
  function EventDescription(e: PlayEvent): (d: Option<string>)
    ensures Truthy(e.homeDescription) ==> d == e.homeDescription
    ensures !Truthy(e.homeDescription) ==> d == e.visitorDescription
  {
    if Truthy(e.homeDescription) then e.homeDescription else e.visitorDescription
  }

  /** The last free throw of a trip to the line: its description says "1 of 1", "2 of 2" or "3 of 3". */
  predicate IsFinalFreeThrow(e: PlayEvent) {
    var d := EventDescription(e);
    Truthy(d) && (Contains(d.value, "1 of 1") || Contains(d.value, "2 of 2") || Contains(d.value, "3 of 3"))
  }

  /** Python's `str` of a description: a missing one reads "None". */
  function Str(d: Option<string>): string {
    match d
    case None => "None"
    case Some(s) => s
  }

  /** "MISS" appears in the home or the visitor description (read through `str`). */
  predicate Missed(e: PlayEvent) {
    Contains(Str(e.homeDescription), "MISS") || Contains(Str(e.visitorDescription), "MISS")
  }

  /** A missing description never reads as a miss: "None" does not contain "MISS". */
  lemma MissingDescriptionIsNoMiss()
    ensures !Contains(Str(None), "MISS")
  {
    var s := Str(None);
    forall i | 0 <= i <= |s| - |"MISS"|
      ensures !OccursAt(s, "MISS", i)
    {
      assert s[i..i + 4][0] == 'N';
    }
  }

  /** The loop's three variables: the counter, the previous row's shooter and the stored free throw. */
  datatype Tracker = Tracker(possessionEndFts: nat, currentShooter: Option<int>, lastFreeThrow: Option<PlayEvent>)

  /**
   * One iteration: store the row when it is a final free throw; count one when a free throw
   * is stored, the shooter is a new one and the stored free throw was missed; remember the
   * shooter.
   */
  function Step(t: Tracker, row: PlayEvent): Tracker {
    var lastFreeThrow := if IsFinalFreeThrow(row) then Some(row) else t.lastFreeThrow;
    var ends := lastFreeThrow.Some? && Some(row.player1Id) != t.currentShooter && Missed(lastFreeThrow.value);
    Tracker(if ends then t.possessionEndFts + 1 else t.possessionEndFts, Some(row.player1Id), lastFreeThrow)
  }

  /** The variables after the loop has visited `rows`; the count grows by at most one per row. */
  function Track(rows: seq<PlayEvent>): (t: Tracker)
    ensures t.possessionEndFts <= |rows|
    ensures rows == [] ==> t.possessionEndFts == 0
  {
    if rows == [] then Tracker(0, None, None) else Step(Track(rows[..|rows| - 1]), rows[|rows| - 1])
  }

  /** `count_possession_changing_fts`: the loop over the free throws of one game. */
  method CountPossessionChangingFts(freeThrows: seq<PlayEvent>) returns (possessionEndFts: nat)
    ensures possessionEndFts == Track(freeThrows).possessionEndFts
    ensures possessionEndFts <= |freeThrows|
  {
    possessionEndFts := 0;
    var currentShooter: Option<int> := None;
    var lastFreeThrow: Option<PlayEvent> := None;
    for i := 0 to |freeThrows|
      invariant possessionEndFts == Track(freeThrows[..i]).possessionEndFts
      invariant currentShooter == Track(freeThrows[..i]).currentShooter
      invariant lastFreeThrow == Track(freeThrows[..i]).lastFreeThrow
    {
      assert freeThrows[..i + 1][..i] == freeThrows[..i];
      var row := freeThrows[i];
      var shooter := row.player1Id;
      if IsFinalFreeThrow(row) {
        lastFreeThrow := Some(row);
      }
      if lastFreeThrow.Some? && Some(shooter) != currentShooter {
        if Missed(lastFreeThrow.value) {
          possessionEndFts := possessionEndFts + 1;
        }
      }
      currentShooter := Some(shooter);
    }
    assert freeThrows[..|freeThrows|] == freeThrows;
  }

  /** Row `k` is the most recent final free throw among `rows`. */
  predicate LastFinalAt(rows: seq<PlayEvent>, k: int) {
    0 <= k < |rows| && IsFinalFreeThrow(rows[k]) && forall m :: k < m < |rows| ==> !IsFinalFreeThrow(rows[m])
  }

  /**
   * What the loop remembers: the shooter of the previous row, and as the stored free throw
   * the most recent final free throw seen (none while there has been none).
   */
  lemma {:induction false} TrackRemembers(rows: seq<PlayEvent>)
    ensures Track(rows).currentShooter == if rows == [] then None else Some(rows[|rows| - 1].player1Id)
    ensures Track(rows).lastFreeThrow.None? <==> forall k :: 0 <= k < |rows| ==> !IsFinalFreeThrow(rows[k])
    ensures Track(rows).lastFreeThrow.Some? ==> exists k :: LastFinalAt(rows, k) && Track(rows).lastFreeThrow.value == rows[k]
  {
    if rows != [] {
      var init := rows[..|rows| - 1];
      var n := |rows| - 1;
      TrackRemembers(init);
      assert forall k :: 0 <= k < n ==> init[k] == rows[k];
      if IsFinalFreeThrow(rows[n]) {
        assert LastFinalAt(rows, n);
      } else if Track(init).lastFreeThrow.Some? {
        var k :| LastFinalAt(init, k) && Track(init).lastFreeThrow.value == init[k];
        assert LastFinalAt(rows, k);
      }
    }
  }

  /** The most recent final free throw among `rows` exists and was missed. */
  predicate LastFinalMissed(rows: seq<PlayEvent>) {
    exists k :: 0 <= k < |rows| && LastFinalAt(rows, k) && Missed(rows[k])
  }

  /** There is only one most recent final free throw. */
  lemma LastFinalUnique(rows: seq<PlayEvent>, k: int, k': int)
    requires LastFinalAt(rows, k) && LastFinalAt(rows, k')
    ensures k == k'
  {
  }

  /**
   * Row `i` ends a possession: its shooter differs from the previous row's (the first row
   * always counts as a new shooter), and the most recent final free throw up to and
   * including row `i` was missed.
   */
  predicate EndsPossession(rows: seq<PlayEvent>, i: int)
    requires 0 <= i < |rows|
  {
    (i == 0 || rows[i - 1].player1Id != rows[i].player1Id) && LastFinalMissed(rows[..i + 1])
  }

  /** The rows among `rows` that end a possession. */
  function PossessionEnds(rows: seq<PlayEvent>): set<int> {
    set i | 0 <= i < |rows| && EndsPossession(rows, i)
  }

  /** The stored free throw is present and missed exactly when the most recent final free throw was missed. */
  lemma StoredMissIffLastFinalMissed(rows: seq<PlayEvent>)
    ensures (Track(rows).lastFreeThrow.Some? && Missed(Track(rows).lastFreeThrow.value)) <==> LastFinalMissed(rows)
  {
    TrackRemembers(rows);
    if LastFinalMissed(rows) {
      var k :| LastFinalAt(rows, k) && Missed(rows[k]);
      assert Track(rows).lastFreeThrow.Some?;
      var k' :| LastFinalAt(rows, k') && Track(rows).lastFreeThrow.value == rows[k'];
      LastFinalUnique(rows, k, k');
    }
  }

  /** The rows of a prefix that end a possession are those of the whole sequence before its end. */
  lemma PossessionEndsOfPrefix(rows: seq<PlayEvent>)
    requires rows != []
    ensures PossessionEnds(rows) == PossessionEnds(rows[..|rows| - 1])
      + if EndsPossession(rows, |rows| - 1) then {|rows| - 1} else {}
  {
    var init := rows[..|rows| - 1];
    forall i | 0 <= i < |init|
      ensures EndsPossession(rows, i) <==> EndsPossession(init, i)
    {
      assert rows[..i + 1] == init[..i + 1];
    }
  }

  /**
   * The counter counts the rows that end a possession: the loop adds one exactly at each row
   * whose shooter is new and whose most recent final free throw was missed.
   */
  lemma {:induction false} CountIsPossessionEnds(rows: seq<PlayEvent>)
    ensures Track(rows).possessionEndFts == |PossessionEnds(rows)|
  {
    if rows != [] {
      var init := rows[..|rows| - 1];
      var n := |rows| - 1;
      CountIsPossessionEnds(init);
      TrackRemembers(init);
      StoredMissIffLastFinalMissed(rows);
      assert rows[..n + 1] == rows;
      PossessionEndsOfPrefix(rows);
      assert n !in PossessionEnds(init);
    }
  }

  // ---------------------------------------------------------------------------------------
  // team_id_map and get_last_n_games

  /** `team_id_map`: the ten teams the script knows by id. */
  const TeamIdMap: map<int, string> := map[
    1610612764 := "Washington Wizards",
    1610612737 := "Atlanta Hawks",
    1610612738 := "Boston Celtics",
    1610612751 := "Brooklyn Nets",
    1610612749 := "Milwaukee Bucks",
    1610612752 := "New York Knicks",
    1610612753 := "Orlando Magic",
    1610612755 := "Philadelphia 76ers",
    1610612761 := "Toronto Raptors",
    1610612741 := "Chicago Bulls"
  ]

  /** `team_id_map.get(team_id, f"Team {team_id}")` over an id table `teamIds` (the script reads `TeamIdMap`). */
  function TeamLabel(teamIds: map<int, string>, teamId: int): (name: string)
    ensures teamId in teamIds ==> name == teamIds[teamId]
    ensures teamId !in teamIds ==> name == "Team " + IntToString(teamId)
  {
    if teamId in teamIds then teamIds[teamId] else "Team " + IntToString(teamId)
  }

  /** One scoreboard row, reduced to the columns the script reads: 2 (GAME_ID), 6 and 7 (home and visitor team ids). */
  datatype ScoreboardGame = ScoreboardGame(gameId: string, homeTeamId: int, awayTeamId: int)

  /** `team_name in [home_team, away_team]`. */
  predicate Involves(teamIds: map<int, string>, teamName: string, game: ScoreboardGame) {
    teamName == TeamLabel(teamIds, game.homeTeamId) || teamName == TeamLabel(teamIds, game.awayTeamId)
  }

  /** The test of the search, as a function of the game. */
  function Involving(teamIds: map<int, string>, teamName: string): ScoreboardGame -> bool {
    game => Involves(teamIds, teamName, game)
  }

  /** The ids of one day's games that pass `involves`, in scoreboard order. */
  function MatchesOn(games: seq<ScoreboardGame>, involves: ScoreboardGame -> bool): (ids: seq<string>)
    ensures |ids| <= |games|
  {
    if games == [] then []
    else
      var last := games[|games| - 1];
      MatchesOn(games[..|games| - 1], involves) + if involves(last) then [last.gameId] else []
  }

  /** Every id found on a day belongs to one of that day's games that passes the test. */
  lemma {:induction false} MatchesOnSound(games: seq<ScoreboardGame>, involves: ScoreboardGame -> bool, id: string)
    requires id in MatchesOn(games, involves)
    ensures exists g :: g in games && involves(g) && g.gameId == id
  {
    var init := games[..|games| - 1];
    if id in MatchesOn(init, involves) {
      MatchesOnSound(init, involves, id);
      var g :| g in init && involves(g) && g.gameId == id;
      assert g in games;
    } else {
      assert games[|games| - 1] in games;
    }
  }

  /** The matching ids of the first `days` days searched (today, yesterday, ...), day by day. */
  function MatchesThrough(scoreboards: nat -> seq<ScoreboardGame>, involves: ScoreboardGame -> bool, days: nat): seq<string> {
    if days == 0 then [] else MatchesThrough(scoreboards, involves, days - 1) + MatchesOn(scoreboards(days - 1), involves)
  }

  /** `range(num_games * 3)`: the number of days searched. */
  function DaysSearched(numGames: int): nat {
    if numGames > 0 then numGames * 3 else 0
  }

  /** The first `n` elements of `s`, or all of them when there are fewer. */
  function Take(s: seq<string>, n: int): (r: seq<string>)
    ensures r <= s
    ensures |r| == if n <= 0 then 0 else if n < |s| then n else |s|
  {
    if n <= 0 then [] else if n < |s| then s[..n] else s
  }

  /**
   * What `get_last_n_games` returns: the first `num_games` ids of games involving the team,
   * in search order (today first, each day's games in scoreboard order), or all of them when
   * the days searched hold fewer.
   */
  function LastNGames(teamIds: map<int, string>, teamName: string, numGames: int,
                      scoreboards: nat -> seq<ScoreboardGame>): (games: seq<string>)
    ensures |games| <= if numGames > 0 then numGames else 0
    ensures games <= MatchesThrough(scoreboards, Involving(teamIds, teamName), DaysSearched(numGames))
  {
    Take(MatchesThrough(scoreboards, Involving(teamIds, teamName), DaysSearched(numGames)), numGames)
  }

  /** The matches of a prefix of a day are a prefix of that day's matches. */
  lemma {:induction false} MatchesOnPrefix(games: seq<ScoreboardGame>, involves: ScoreboardGame -> bool, j: nat)
    requires j <= |games|
    ensures MatchesOn(games[..j], involves) <= MatchesOn(games, involves)
    decreases |games| - j
  {
    if j < |games| {
      MatchesOnPrefix(games, involves, j + 1);
      assert games[..j + 1][..j] == games[..j];
    } else {
      assert games[..j] == games;
    }
  }

  /** Searching more days only extends the list of matches. */
  lemma {:induction false} MatchesThroughPrefix(scoreboards: nat -> seq<ScoreboardGame>, involves: ScoreboardGame -> bool,
                                                days: nat, days': nat)
    requires days <= days'
    ensures MatchesThrough(scoreboards, involves, days) <= MatchesThrough(scoreboards, involves, days')
    decreases days' - days
  {
    if days < days' {
      MatchesThroughPrefix(scoreboards, involves, days, days' - 1);
    }
  }

  /** Every id found belongs to a game of a searched day that passes the test. */
  lemma {:induction false} MatchesThroughSound(scoreboards: nat -> seq<ScoreboardGame>, involves: ScoreboardGame -> bool,
                                               days: nat, id: string)
    requires id in MatchesThrough(scoreboards, involves, days)
    ensures exists d, g :: 0 <= d < days && g in scoreboards(d) && involves(g) && g.gameId == id
  {
    if id in MatchesThrough(scoreboards, involves, days - 1) {
      MatchesThroughSound(scoreboards, involves, days - 1, id);
    } else {
      MatchesOnSound(scoreboards(days - 1), involves, id);
    }
  }

  /**
   * At most `num_games` ids come back, each the id of a game of a searched day that involves
   * the team.
   */
  lemma LastNGamesSound(teamIds: map<int, string>, teamName: string, numGames: int, scoreboards: nat -> seq<ScoreboardGame>)
    ensures |LastNGames(teamIds, teamName, numGames, scoreboards)| <= if numGames > 0 then numGames else 0
    ensures forall id :: id in LastNGames(teamIds, teamName, numGames, scoreboards) ==>
      exists d, g :: 0 <= d < DaysSearched(numGames) && g in scoreboards(d) && Involves(teamIds, teamName, g) && g.gameId == id
  {
    var involves := Involving(teamIds, teamName);
    forall id | id in LastNGames(teamIds, teamName, numGames, scoreboards)
      ensures exists d, g :: 0 <= d < DaysSearched(numGames) && g in scoreboards(d) && Involves(teamIds, teamName, g) && g.gameId == id
    {
      MatchesThroughSound(scoreboards, involves, DaysSearched(numGames), id);
      var d, g :| 0 <= d < DaysSearched(numGames) && g in scoreboards(d) && involves(g) && g.gameId == id;
      assert Involves(teamIds, teamName, g);
    }
  }

  /**
   * `get_last_n_games`: scan `num_games * 3` days, newest first, appending the id of every
   * game that involves the team, and return as soon as `num_games` ids have been collected.
   * `scoreboards(i)` is the scoreboard of the day `i` days before today.
   */
  method GetLastNGames(teamIds: map<int, string>, teamName: string, numGames: int, scoreboards: nat -> seq<ScoreboardGame>)
    returns (gameIds: seq<string>)
    ensures gameIds == LastNGames(teamIds, teamName, numGames, scoreboards)
  {
    gameIds := CollectGames(Involving(teamIds, teamName), numGames, scoreboards);
  }

  /** The two loops of `get_last_n_games`, for any test of the games. */
  method CollectGames(involves: ScoreboardGame -> bool, numGames: int, scoreboards: nat -> seq<ScoreboardGame>)
    returns (gameIds: seq<string>)
    ensures gameIds == Take(MatchesThrough(scoreboards, involves, DaysSearched(numGames)), numGames)
  {
    gameIds := [];
    for day := 0 to DaysSearched(numGames)
      invariant gameIds == MatchesThrough(scoreboards, involves, day)
      invariant |gameIds| < numGames || DaysSearched(numGames) == 0
    {
      var games := scoreboards(day);
      var scanned;
      gameIds, scanned := ScanDay(involves, numGames, games, gameIds);
      if |gameIds| >= numGames {
        FoundEnough(involves, numGames, scoreboards, day, scanned);
        return;
      }
      assert games[..scanned] == games;
    }
  }

  /**
   * The inner loop of `get_last_n_games` over one day's games, after `found` ids: append the
   * id of every game that passes the test, and stop after the game that brings the count to
   * `num_games`. `scanned` is the number of games looked at.
   */
  method ScanDay(involves: ScoreboardGame -> bool, numGames: int, games: seq<ScoreboardGame>, found: seq<string>)
    returns (gameIds: seq<string>, scanned: nat)
    requires |found| < numGames
    ensures scanned <= |games|
    ensures gameIds == found + MatchesOn(games[..scanned], involves)
    ensures |gameIds| <= numGames
    ensures |gameIds| < numGames ==> scanned == |games|
  {
    gameIds := found;
    for j := 0 to |games|
      invariant gameIds == found + MatchesOn(games[..j], involves)
      invariant |gameIds| < numGames
    {
      assert games[..j + 1][..j] == games[..j];
      if involves(games[j]) {
        gameIds := gameIds + [games[j].gameId];
      }
      if |gameIds| >= numGames {
        return gameIds, j + 1;
      }
    }
    scanned := |games|;
  }

  /** Once `num_games` ids are collected part-way through a day, they are the first `num_games` matches. */
  lemma FoundEnough(involves: ScoreboardGame -> bool, numGames: int, scoreboards: nat -> seq<ScoreboardGame>, day: nat, j: nat)
    requires day < DaysSearched(numGames) && j <= |scoreboards(day)|
    requires |MatchesThrough(scoreboards, involves, day) + MatchesOn(scoreboards(day)[..j], involves)| == numGames
    ensures MatchesThrough(scoreboards, involves, day) + MatchesOn(scoreboards(day)[..j], involves)
         == Take(MatchesThrough(scoreboards, involves, DaysSearched(numGames)), numGames)
  {
    var found := MatchesThrough(scoreboards, involves, day) + MatchesOn(scoreboards(day)[..j], involves);
    MatchesOnPrefix(scoreboards(day), involves, j);
    MatchesThroughPrefix(scoreboards, involves, day + 1, DaysSearched(numGames));
    var all := MatchesThrough(scoreboards, involves, DaysSearched(numGames));
    assert found <= all;
  }

  // ---------------------------------------------------------------------------------------
  // get_average_ft_possession_factor

  /** The factor used when the games hold no free throws at all. */
  const DefaultFtPossessionFactor: real := 0.44

  /** The free-throw tables of the games, in order. */
  function FreeThrowTables(gameIds: seq<string>, playByPlay: string -> seq<PlayEvent>): (tables: seq<seq<PlayEvent>>)
    ensures |tables| == |gameIds|
    ensures forall i :: 0 <= i < |gameIds| ==> tables[i] == FreeThrowData(playByPlay(gameIds[i]))
  {
    seq(|gameIds|, i requires 0 <= i < |gameIds| => FreeThrowData(playByPlay(gameIds[i])))
  }

  /** `total_fts`: the free throws of all the games. */
  function TotalFreeThrows(tables: seq<seq<PlayEvent>>): nat {
    if tables == [] then 0 else TotalFreeThrows(tables[..|tables| - 1]) + |tables[|tables| - 1]|
  }

  /** `possession_ending_fts`: the possession-ending free throws of all the games, never more than all of them. */
  function TotalPossessionEnding(tables: seq<seq<PlayEvent>>): (n: nat)
    ensures n <= TotalFreeThrows(tables)
  {
    if tables == [] then 0
    else TotalPossessionEnding(tables[..|tables| - 1]) + Track(tables[|tables| - 1]).possessionEndFts
  }

  /** `ending / total` for `ending <= total` free throws: a share between 0 and 1. */
  function Share(ending: nat, total: nat): (r: real)
    requires ending <= total && total > 0
    ensures 0.0 <= r <= 1.0
    ensures r * total as real == ending as real
  {
    ending as real / total as real
  }

  /**
   * The possession factor of the games: 0.44 without free throws, otherwise the share of
   * free throws that ended a possession.
   */
  function PossessionFactor(tables: seq<seq<PlayEvent>>): (factor: real)
    ensures TotalFreeThrows(tables) == 0 ==> factor == DefaultFtPossessionFactor
    ensures TotalFreeThrows(tables) > 0 ==>
              0.0 <= factor <= 1.0
    ensures TotalFreeThrows(tables) > 0 ==> factor == TotalPossessionEnding(tables) as real / TotalFreeThrows(tables) as real
  {
    var total := TotalFreeThrows(tables);
    if total == 0 then DefaultFtPossessionFactor else Share(TotalPossessionEnding(tables), total)
  }

  /**
   * The factor is 0.44 without free throws; otherwise it is the share of possession-ending
   * free throws, between 0 and 1.
   */
  lemma PossessionFactorBounds(tables: seq<seq<PlayEvent>>)
    ensures TotalFreeThrows(tables) == 0 ==> PossessionFactor(tables) == DefaultFtPossessionFactor
    ensures TotalFreeThrows(tables) > 0 ==>
      && 0.0 <= PossessionFactor(tables) <= 1.0
      && PossessionFactor(tables) == Share(TotalPossessionEnding(tables), TotalFreeThrows(tables))
  {
  }

  /**
   * `get_average_ft_possession_factor`: find the games, then add up the free throws and the
   * possession-ending free throws of each. `playByPlay(id)` is the play-by-play of game `id`.
   */
  method GetAverageFtPossessionFactor(teamIds: map<int, string>, teamName: string, numGames: int, scoreboards: nat -> seq<ScoreboardGame>,
                                      playByPlay: string -> seq<PlayEvent>)
    returns (factor: real)
    ensures factor == PossessionFactor(FreeThrowTables(LastNGames(teamIds, teamName, numGames, scoreboards), playByPlay))
  {
    var gameIds := GetLastNGames(teamIds, teamName, numGames, scoreboards);
    factor := GamesFactor(gameIds, playByPlay);
  }

  /** The loop of `get_average_ft_possession_factor` over the games found, and the division after it. */
  method GamesFactor(gameIds: seq<string>, playByPlay: string -> seq<PlayEvent>) returns (factor: real)
    ensures factor == PossessionFactor(FreeThrowTables(gameIds, playByPlay))
  {
    ghost var tables := FreeThrowTables(gameIds, playByPlay);
    var totalFts: nat := 0;
    var possessionEndingFts: nat := 0;
    for i := 0 to |gameIds|
      invariant totalFts == TotalFreeThrows(tables[..i])
      invariant possessionEndingFts == TotalPossessionEnding(tables[..i])
    {
      var freeThrows := FreeThrowData(playByPlay(gameIds[i]));
      var count := CountPossessionChangingFts(freeThrows);
      assert TotalFreeThrows(tables[..i + 1]) == totalFts + |freeThrows| by {
        assert tables[..i + 1][..i] == tables[..i] && tables[i] == freeThrows;
      }
      assert TotalPossessionEnding(tables[..i + 1]) == possessionEndingFts + count by {
        assert tables[..i + 1][..i] == tables[..i] && tables[i] == freeThrows;
      }
      possessionEndingFts := possessionEndingFts + count;
      totalFts := totalFts + |freeThrows|;
    }
    assert tables[..|gameIds|] == tables;
    if totalFts == 0 {
      return DefaultFtPossessionFactor;
    }
    return Share(possessionEndingFts, totalFts);
  }

  // ---------------------------------------------------------------------------------------
  // fetch_team_stats

  /** The season requested: always the one that started the year before `year`. */
  function StatsSeason(year: int): (s: string)
    ensures forall month :: month < 10 ==> s == Teams.CurrentSeason(year, month)
  {
    Teams.SeasonLabel(year - 1)
  }

  /** The season requested is the current season exactly before October. */
  lemma StatsSeasonIsCurrentBeforeOctober(year: int, month: int)
    requires 1001 <= year <= 9998
    ensures StatsSeason(year) == Teams.CurrentSeason(year, month) <==> month < 10
  {
    Teams.CurrentSeasonStartYear(year, month);
    Teams.SeasonLabelShape(year - 1);
  }

  /** One dashboard row, reduced to the columns the script reads: 1 (name), 2 (GP), 8 (FGA), 14 (FTA), 20 (TOV). */
  datatype LeagueRow = LeagueRow(teamName: string, gp: int, fga: real, fta: real, tov: real)

  /** The record stored for the team. */
  datatype TovStats = TovStats(gp: int, tovPerGame: real, ftaPerGame: real, fgaPerGame: real,
                               ftPossFactor: real, tovPercentage: real)

  /** `total / gp if gp > 0 else 0`. */
  function PerGame(total: real, gp: int): (r: real)
    ensures gp <= 0 ==> r == 0.0
    ensures gp > 0 ==> r * gp as real == total
  {
    if gp > 0 then total / gp as real else 0.0
  }

  /** `(tov / denominator) * 100 if denominator > 0 else 0`, with `denominator = tov + fga + factor * fta`. */
  function TovPercentage(tovPerGame: real, fgaPerGame: real, ftaPerGame: real, factor: real): (pct: real)
    ensures tovPerGame + fgaPerGame + factor * ftaPerGame <= 0.0 ==> pct == 0.0
    ensures tovPerGame + fgaPerGame + factor * ftaPerGame > 0.0 ==>
      pct * (tovPerGame + fgaPerGame + factor * ftaPerGame) == tovPerGame * 100.0
  {
    var denominator := tovPerGame + fgaPerGame + factor * ftaPerGame;
    if denominator > 0.0 then (tovPerGame / denominator) * 100.0 else 0.0
  }

  /** The record computed from one row with the given possession factor. */
  function RowStats(row: LeagueRow, factor: real): (st: TovStats)
    ensures st.gp == row.gp && st.ftPossFactor == factor
    ensures row.gp > 0 ==>
              && st.tovPerGame * row.gp as real == row.tov && st.ftaPerGame * row.gp as real == row.fta
              && st.fgaPerGame * row.gp as real == row.fga
    ensures row.gp <= 0 ==> st.tovPerGame == 0.0 && st.ftaPerGame == 0.0 && st.fgaPerGame == 0.0 && st.tovPercentage == 0.0
  {
    var tovPerGame := PerGame(row.tov, row.gp);
    var ftaPerGame := PerGame(row.fta, row.gp);
    var fgaPerGame := PerGame(row.fga, row.gp);
    TovStats(row.gp, tovPerGame, ftaPerGame, fgaPerGame, factor, TovPercentage(tovPerGame, fgaPerGame, ftaPerGame, factor))
  }

  /** With non-negative counts and factor the turnover percentage lies between 0 and 100. */
  lemma TovPercentageBounds(row: LeagueRow, factor: real)
    requires row.tov >= 0.0 && row.fga >= 0.0 && row.fta >= 0.0 && factor >= 0.0
    ensures 0.0 <= RowStats(row, factor).tovPercentage <= 100.0
  {
    var st := RowStats(row, factor);
    PerGameNonNegative(row.tov, row.gp);
    PerGameNonNegative(row.fga, row.gp);
    PerGameNonNegative(row.fta, row.gp);
    ProductNonNegative(factor, st.ftaPerGame);
    var d := st.tovPerGame + st.fgaPerGame + factor * st.ftaPerGame;
    if d > 0.0 {
      PercentageBound(st.tovPercentage, st.tovPerGame, d);
    }
  }

  /** A non-negative total gives a non-negative per-game value. */
  lemma PerGameNonNegative(total: real, gp: int)
    requires total >= 0.0
    ensures PerGame(total, gp) >= 0.0
  {
    if gp > 0 {
      var g := gp as real;
      assert g > 0.0;
      assert total / g >= 0.0;
    }
  }

  lemma ProductNonNegative(a: real, b: real)
    requires a >= 0.0 && b >= 0.0
    ensures a * b >= 0.0
  {
  }

  /** A share `n` of a positive whole `d`, scaled to a percentage, lies between 0 and 100. */
  lemma PercentageBound(p: real, n: real, d: real)
    requires d > 0.0 && 0.0 <= n <= d && p * d == n * 100.0
    ensures 0.0 <= p <= 100.0
  {
  }

  /**
   * Dividing each count by GP cancels out: with games played the percentage is the one
   * computed from the season totals.
   */
  lemma TovPercentageFromTotals(row: LeagueRow, factor: real)
    requires row.gp > 0 && row.tov + row.fga + factor * row.fta > 0.0
    ensures RowStats(row, factor).tovPercentage == row.tov / (row.tov + row.fga + factor * row.fta) * 100.0
  {
    var g := row.gp as real;
    var st := RowStats(row, factor);
    var total := row.tov + row.fga + factor * row.fta;
    assert st.tovPerGame + st.fgaPerGame + factor * st.ftaPerGame == total / g;
  }

  /** Without games played every per-game value and the percentage are 0. */
  lemma NoGamesNoRates(row: LeagueRow, factor: real)
    requires row.gp <= 0
    ensures var st := RowStats(row, factor);
      st.tovPerGame == 0.0 && st.ftaPerGame == 0.0 && st.fgaPerGame == 0.0 && st.tovPercentage == 0.0
  {
  }

  /** The last row whose name contains `team_name`: the row whose record the loop leaves in place. */
  function LastMatch(teamName: string, rows: seq<LeagueRow>): Option<LeagueRow> {
    if rows == [] then None
    else if Contains(rows[|rows| - 1].teamName, teamName) then Some(rows[|rows| - 1])
    else LastMatch(teamName, rows[..|rows| - 1])
  }

  /** No row exactly when no row name contains the team name; otherwise the last such row. */
  lemma {:induction false} LastMatchIsLast(teamName: string, rows: seq<LeagueRow>)
    ensures LastMatch(teamName, rows).None? <==> forall k :: 0 <= k < |rows| ==> !Contains(rows[k].teamName, teamName)
    ensures LastMatch(teamName, rows).Some? ==>
      exists k :: 0 <= k < |rows| && Contains(rows[k].teamName, teamName)
        && (forall m :: k < m < |rows| ==> !Contains(rows[m].teamName, teamName))
        && LastMatch(teamName, rows).value == rows[k]
  {
    if rows != [] {
      var init := rows[..|rows| - 1];
      var n := |rows| - 1;
      LastMatchIsLast(teamName, init);
      assert forall k :: 0 <= k < n ==> init[k] == rows[k];
      if Contains(rows[n].teamName, teamName) {
        assert LastMatch(teamName, rows).value == rows[n];
      } else if LastMatch(teamName, init).Some? {
        var k :| 0 <= k < |init| && Contains(init[k].teamName, teamName)
          && (forall m :: k < m < |init| ==> !Contains(init[m].teamName, teamName))
          && LastMatch(teamName, init).value == init[k];
        assert rows[k] == init[k];
      }
    }
  }

  /**
   * The record `fetch_team_stats` returns for the rows: that of the last row whose name
   * contains `team_name` (a later match overwrites an earlier one), or none.
   */
  function MatchedStats(teamName: string, rows: seq<LeagueRow>, factor: real): (r: Option<TovStats>)
    ensures r.None? <==> forall k :: 0 <= k < |rows| ==> !Contains(rows[k].teamName, teamName)
    ensures r.Some? ==>
              exists k :: 0 <= k < |rows| && Contains(rows[k].teamName, teamName)
                          && (forall m :: k < m < |rows| ==> !Contains(rows[m].teamName, teamName))
                          && r.value == RowStats(rows[k], factor)
  {
    LastMatchIsLast(teamName, rows);
    match LastMatch(teamName, rows)
    case None => None
    case Some(row) => Some(RowStats(row, factor))
  }

  /**
   * `fetch_team_stats`: request the dashboard for `StatsSeason(year)` (a failed request gives
   * the empty result), then store the record of every row whose name contains `team_name`,
   * recomputing the possession factor for each, and return the record under the team's name.
   */
  method FetchTeamStats(teamIds: map<int, string>, teamName: string, numGames: int, year: int, dashboard: string -> Option<seq<LeagueRow>>,
                        scoreboards: nat -> seq<ScoreboardGame>, playByPlay: string -> seq<PlayEvent>)
    returns (stats: Option<TovStats>)
    ensures dashboard(StatsSeason(year)).None? ==> stats.None?
    ensures dashboard(StatsSeason(year)).Some? ==>
      stats == MatchedStats(teamName, dashboard(StatsSeason(year)).value,
                            PossessionFactor(FreeThrowTables(LastNGames(teamIds, teamName, numGames, scoreboards), playByPlay)))
  {
    var response := dashboard(StatsSeason(year));
    if response.None? {
      return None;
    }
    stats := StoreMatchingRows(teamIds, teamName, numGames, response.value, scoreboards, playByPlay);
  }

  /**
   * The loop of `fetch_team_stats`: every row whose name contains `team_name` overwrites the
   * record stored under the team's name; the record stored last is returned, if any.
   */
  method StoreMatchingRows(teamIds: map<int, string>, teamName: string, numGames: int, rows: seq<LeagueRow>,
                           scoreboards: nat -> seq<ScoreboardGame>, playByPlay: string -> seq<PlayEvent>)
    returns (stats: Option<TovStats>)
    ensures stats == MatchedStats(teamName, rows,
                                  PossessionFactor(FreeThrowTables(LastNGames(teamIds, teamName, numGames, scoreboards), playByPlay)))
  {
    ghost var factor := PossessionFactor(FreeThrowTables(LastNGames(teamIds, teamName, numGames, scoreboards), playByPlay));
    var teamStats: map<string, TovStats> := map[];
    ghost var last: Option<LeagueRow> := None;
    for i := 0 to |rows|
      invariant last == LastMatch(teamName, rows[..i])
      invariant teamStats.Keys == if last.None? then {} else {teamName}
      invariant last.Some? ==> teamStats[teamName] == RowStats(last.value, factor)
    {
      assert LastMatch(teamName, rows[..i + 1])
          == if Contains(rows[i].teamName, teamName) then Some(rows[i]) else LastMatch(teamName, rows[..i]) by {
        assert rows[..i + 1][..i] == rows[..i];
      }
      teamStats := StoreIfMatching(teamStats, rows[i], teamIds, teamName, numGames, scoreboards, playByPlay);
      if Contains(rows[i].teamName, teamName) {
        last := Some(rows[i]);
      }
    }
    assert rows[..|rows|] == rows;
    stats := if teamName in teamStats then Some(teamStats[teamName]) else None;
  }

  /** One iteration: a matching row stores its record, with the possession factor fetched anew. */
  method StoreIfMatching(teamStats: map<string, TovStats>, row: LeagueRow, teamIds: map<int, string>, teamName: string,
                         numGames: int, scoreboards: nat -> seq<ScoreboardGame>, playByPlay: string -> seq<PlayEvent>)
    returns (stored: map<string, TovStats>)
    ensures Contains(row.teamName, teamName) ==>
              stored == teamStats[teamName := RowStats(row, PossessionFactor(FreeThrowTables(
                                                     LastNGames(teamIds, teamName, numGames, scoreboards), playByPlay)))]
    ensures !Contains(row.teamName, teamName) ==> stored == teamStats
  {
    stored := teamStats;
    if Contains(row.teamName, teamName) {
      var ftPossessionFactor := GetAverageFtPossessionFactor(teamIds, teamName, numGames, scoreboards, playByPlay);
      stored := stored[teamName := RowStats(row, ftPossessionFactor)];
    }
  }
}
