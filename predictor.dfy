/**
 * The win-probability predictor (sports_analytics_dashboard/predictor.py): the feature vector
 * of a team, the guard chain of `predict_win_probability` and the lazily fetched `team_stats`
 * global. The trained classifier is a parameter: a function from the fourteen feature values
 * to the probability `predict_proba` gives for class 1.
 */
module Predictor {
  import opened Wrappers
  import opened Floats
  import opened Columns
  import Teams
  import Stats
  import Training

  /** A probability as `predict_proba` reports it. */
  type Probability = r: real | 0.0 <= r <= 1.0

  /** The loaded model: feature values to the probability of a win. */
  type Classifier = seq<real> -> Probability

  /** The feature keys, in the order the model is given them. */
  const Features: seq<Column> := [
    WinPct, NetRating, TurnoverPct,
    PlusMinus, Tov, Fga, Fta, Reb, Ast,
    WinPctLast5, NetRatingLast5, TurnoverPctLast5, RebLast5, AstLast5
  ]

  /** Inference asks for the features in exactly the order the model was trained on. */
  lemma FeaturesMatchTraining()
    ensures Features == Training.TrainingColumns
  {
  }

  /** The fourteen features are distinct and are all the statistic columns there are. */
  lemma FeaturesAreAllColumns()
    ensures |Features| == 14
    ensures forall i, j :: 0 <= i < j < |Features| ==> Features[i] != Features[j]
    ensures forall c: Column :: c in Features
  {
    forall c: Column ensures c in Features {
      match c
      case WinPct => assert Features[0] == c;
      case NetRating => assert Features[1] == c;
      case TurnoverPct => assert Features[2] == c;
      case PlusMinus => assert Features[3] == c;
      case Tov => assert Features[4] == c;
      case Fga => assert Features[5] == c;
      case Fta => assert Features[6] == c;
      case Reb => assert Features[7] == c;
      case Ast => assert Features[8] == c;
      case WinPctLast5 => assert Features[9] == c;
      case NetRatingLast5 => assert Features[10] == c;
      case TurnoverPctLast5 => assert Features[11] == c;
      case RebLast5 => assert Features[12] == c;
      case AstLast5 => assert Features[13] == c;
    }
  }

  /**
   * `get_features`: the team's value for each key, in key order, None where the record has no
   * such key.
   */
  function GetFeatures(team: string, stats: map<string, Stats.Record>, featureKeys: seq<Column>)
    : (features: seq<Option<Float>>)
    requires team in stats
    ensures |features| == |featureKeys|
    ensures forall i :: 0 <= i < |featureKeys| ==>
              features[i] == if featureKeys[i] in stats[team] then Some(stats[team][featureKeys[i]]) else None
  {
    seq(|featureKeys|, i requires 0 <= i < |featureKeys| =>
      if featureKeys[i] in stats[team] then Some(stats[team][featureKeys[i]]) else None)
  }

  /** `any(f is None for f in features)`. */
  predicate HasMissing(features: seq<Option<Float>>) {
    exists i :: 0 <= i < |features| && features[i].None?
  }

  /** A feature vector is missing nothing exactly when the record has every key asked for. */
  lemma MissingIffKeyAbsent(team: string, stats: map<string, Stats.Record>, featureKeys: seq<Column>)
    requires team in stats
    ensures HasMissing(GetFeatures(team, stats, featureKeys)) <==> exists i :: 0 <= i < |featureKeys| && featureKeys[i] !in stats[team]
  {
    var features := GetFeatures(team, stats, featureKeys);
    if HasMissing(features) {
      var i :| 0 <= i < |features| && features[i].None?;
      assert featureKeys[i] !in stats[team];
    }
  }

  /** A record that has every season and last-five key yields a complete feature vector. */
  lemma FullRecordHasAllFeatures(team: string, stats: map<string, Stats.Record>)
    requires team in stats
    requires SeasonColumns + Last5Columns <= stats[team].Keys
    ensures !HasMissing(GetFeatures(team, stats, Features))
  {
    ColumnsCover();
    MissingIffKeyAbsent(team, stats, Features);
  }

  /** Every feature is present and finite, so the classifier accepts the vector. */
  predicate AllFinite(features: seq<Option<Float>>) {
    forall i :: 0 <= i < |features| ==> features[i].Some? && features[i].value.Num?
  }

  /** The numbers of a finite feature vector, as the classifier receives them. */
  function Values(features: seq<Option<Float>>): (xs: seq<real>)
    requires AllFinite(features)
    ensures |xs| == |features|
    ensures forall i :: 0 <= i < |features| ==> features[i] == Some(Num(xs[i]))
  {
    seq(|features|, i requires 0 <= i < |features| => features[i].value.v)
  }

  /** The dictionary `predict_win_probability` returns. */
  datatype Prediction = Prediction(winner: string, homeTeam: string, homeProb: Float, awayTeam: string,
                                   awayProb: Float, modelInput: map<string, seq<Option<Float>>>)

  /**
   * The raw probabilities normalised to a head-to-head pair: each divided by their sum. A zero
   * sum divides by zero, which numpy answers with NaN rather than raising.
   */
  function HeadToHead(homeProb: real, awayProb: real): (r: (Float, Float))
    ensures homeProb + awayProb > 0.0 ==> r.0.Num? && r.1.Num? && r.0.v + r.1.v == 1.0
    ensures homeProb + awayProb > 0.0 ==> (Greater(r.0, r.1) <==> homeProb > awayProb)
    ensures homeProb + awayProb > 0.0 ==>
              r.0.v * (homeProb + awayProb) == homeProb && r.1.v * (homeProb + awayProb) == awayProb
    ensures homeProb == 0.0 && awayProb == 0.0 ==> r == (NaN, NaN)
  {
    var total := homeProb + awayProb;
    var home := Div(homeProb, total);
    var away := Div(awayProb, total);
    if total > 0.0 then
      assert home.v * total == homeProb && away.v * total == awayProb;
      assert (home.v + away.v) * total == home.v * total + away.v * total;
      assert (home.v - away.v) * total == home.v * total - away.v * total;
      PositiveFactor(home.v - away.v, total);
      assert (home.v - away.v) * total == homeProb - awayProb;
      assert Greater(home, away) <==> home.v > away.v;
      assert Greater(home, away) <==> homeProb > awayProb;
      (home, away)
    else (home, away)
  }

  /** With a positive factor, a product is positive exactly when the other factor is. */
  lemma PositiveFactor(d: real, t: real)
    requires t > 0.0
    ensures d * t > 0.0 <==> d > 0.0
  {
    if d <= 0.0 {
      assert d * t == -((-d) * t);
    }
  }

  /**
   * The classifier's verdict on two complete feature vectors: normalised probabilities as
   * percentages (unrounded) and the home team as winner only when its share is strictly larger.
   */
  function Decide(classify: Classifier, home: string, away: string, homeFeatures: seq<Option<Float>>,
                  awayFeatures: seq<Option<Float>>): (p: Prediction)
    requires AllFinite(homeFeatures) && AllFinite(awayFeatures)
    ensures p.homeTeam == home && p.awayTeam == away
    ensures p.winner == if Greater(p.homeProb, p.awayProb) then home else away
    ensures p.modelInput == map[home := homeFeatures, away := awayFeatures]
    ensures var hp, ap := classify(Values(homeFeatures)), classify(Values(awayFeatures));
      hp + ap > 0.0 ==>
        && p.homeProb.Num? && p.homeProb.v * (hp + ap) == 100.0 * hp
        && p.awayProb.Num? && p.awayProb.v * (hp + ap) == 100.0 * ap
  {
    var shares := HeadToHead(classify(Values(homeFeatures)), classify(Values(awayFeatures)));
    GreaterScale(100.0, shares.0, shares.1);
    Prediction(if Greater(shares.0, shares.1) then home else away,
               home, Scale(100.0, shares.0), away, Scale(100.0, shares.1),
               map[home := homeFeatures, away := awayFeatures])
  }

  /**
   * `predict_win_probability` over the global `team_stats` and `model` and an alias table:
   * None when either global is missing, when a normalised name has no stats, when a feature is
   * missing, or when a feature is not finite (the classifier raises and the broad `except`
   * answers None); otherwise the classifier's verdict on the two normalised teams.
   */
  function PredictWinProbability(teamStats: Option<map<string, Stats.Record>>, model: Option<Classifier>,
                                 aliases: map<string, string>, homeTeam: string, awayTeam: string)
    : (r: Option<Prediction>)
    ensures teamStats.None? || model.None? ==> r.None?
    ensures (teamStats.Some? && (Teams.Normalize(aliases, homeTeam) !in teamStats.value
                                 || Teams.Normalize(aliases, awayTeam) !in teamStats.value)) ==> r.None?
    ensures r.Some? ==>
              && teamStats.Some? && model.Some?
              && r.value.homeTeam == Teams.Normalize(aliases, homeTeam) && r.value.homeTeam in teamStats.value
              && r.value.awayTeam == Teams.Normalize(aliases, awayTeam) && r.value.awayTeam in teamStats.value
              && r.value.modelInput == map[r.value.homeTeam := GetFeatures(r.value.homeTeam, teamStats.value, Features),
                                          r.value.awayTeam := GetFeatures(r.value.awayTeam, teamStats.value, Features)]
              && r.value.winner == if Greater(r.value.homeProb, r.value.awayProb) then r.value.homeTeam else r.value.awayTeam
    ensures r.None? <==>
              || teamStats.None? || model.None?
              || Teams.Normalize(aliases, homeTeam) !in teamStats.value
              || Teams.Normalize(aliases, awayTeam) !in teamStats.value
              || (var hf := GetFeatures(Teams.Normalize(aliases, homeTeam), teamStats.value, Features);
                  var af := GetFeatures(Teams.Normalize(aliases, awayTeam), teamStats.value, Features);
                  HasMissing(hf) || HasMissing(af) || !AllFinite(hf) || !AllFinite(af))
    ensures r.Some? ==>
              var hf := GetFeatures(r.value.homeTeam, teamStats.value, Features);
              var af := GetFeatures(r.value.awayTeam, teamStats.value, Features);
              && !HasMissing(hf) && !HasMissing(af) && AllFinite(hf) && AllFinite(af)
              && r.value == Decide(model.value, r.value.homeTeam, r.value.awayTeam, hf, af)
  {
    if teamStats.None? then None
    else if model.None? then None
    else
      var stats := teamStats.value;
      var home := Teams.Normalize(aliases, homeTeam);
      var away := Teams.Normalize(aliases, awayTeam);
      if home !in stats then None
      else if away !in stats then None
      else
        var homeFeatures := GetFeatures(home, stats, Features);
        var awayFeatures := GetFeatures(away, stats, Features);
        if HasMissing(homeFeatures) || HasMissing(awayFeatures) then None
        else if !AllFinite(homeFeatures) || !AllFinite(awayFeatures) then None
        else Some(Decide(model.value, home, away, homeFeatures, awayFeatures))
  }

  /** A team whose record lacks one of the fourteen keys gets no prediction. */
  lemma MissingFeatureGivesNone(teamStats: Option<map<string, Stats.Record>>, model: Option<Classifier>,
                                aliases: map<string, string>, homeTeam: string, awayTeam: string, team: string, i: nat)
    requires team == Teams.Normalize(aliases, homeTeam) || team == Teams.Normalize(aliases, awayTeam)
    requires teamStats.Some? && team in teamStats.value
    requires i < |Features| && Features[i] !in teamStats.value[team]
    ensures PredictWinProbability(teamStats, model, aliases, homeTeam, awayTeam).None?
  {
    MissingIffKeyAbsent(team, teamStats.value, Features);
  }

  /**
   * Whenever the raw probabilities do not both vanish, the two reported percentages add up to
   * 100 and the home team wins exactly when its raw probability is strictly larger; a tie goes
   * to the away team.
   */
  lemma WinnerByRawProbability(classify: Classifier, home: string, away: string, homeFeatures: seq<Option<Float>>,
                               awayFeatures: seq<Option<Float>>)
    requires AllFinite(homeFeatures) && AllFinite(awayFeatures)
    requires classify(Values(homeFeatures)) + classify(Values(awayFeatures)) > 0.0
    ensures var p := Decide(classify, home, away, homeFeatures, awayFeatures);
      && p.homeProb.Num? && p.awayProb.Num? && p.homeProb.v + p.awayProb.v == 100.0
      && (classify(Values(homeFeatures)) > classify(Values(awayFeatures)) ==> p.winner == home)
      && (classify(Values(homeFeatures)) <= classify(Values(awayFeatures)) ==> p.winner == away)
  {
    var hp := classify(Values(homeFeatures));
    var ap := classify(Values(awayFeatures));
    var shares := HeadToHead(hp, ap);
    GreaterScale(100.0, shares.0, shares.1);
    assert 100.0 * shares.0.v + 100.0 * shares.1.v == 100.0 * (shares.0.v + shares.1.v);
  }

  /** When both raw probabilities are zero the shares are NaN and the away team is named winner. */
  lemma ZeroProbabilitiesFavourAway(classify: Classifier, home: string, away: string,
                                    homeFeatures: seq<Option<Float>>, awayFeatures: seq<Option<Float>>)
    requires AllFinite(homeFeatures) && AllFinite(awayFeatures)
    requires classify(Values(homeFeatures)) == 0.0 && classify(Values(awayFeatures)) == 0.0
    ensures var p := Decide(classify, home, away, homeFeatures, awayFeatures);
      p.homeProb == NaN && p.awayProb == NaN && p.winner == away
  {
  }

  /**
   * The `team_stats` global of the module: filled at import time, fetched again by
   * `get_team_stats` only while it is still None.
   */
  class StatsCache {
    var teamStats: Option<map<string, Stats.Record>>

    /** Module import: `team_stats = fetch_team_stats()`. */
    constructor (fetched: Option<map<string, Stats.Record>>)
      ensures teamStats == fetched
    {
      teamStats := fetched;
    }

    /**
     * `get_team_stats`: a missing global is replaced by a fresh fetch (`fetched`); a present
     * one is returned unchanged and is never fetched again.
     */
    method GetTeamStats(fetched: Option<map<string, Stats.Record>>) returns (stats: Option<map<string, Stats.Record>>)
      modifies this
      ensures old(teamStats).Some? ==> teamStats == old(teamStats)
      ensures old(teamStats).None? ==> teamStats == fetched
      ensures stats == teamStats
    {
      if teamStats.None? {
        teamStats := fetched;
      }
      stats := teamStats;
    }
  }
}
