/**
 * The statistic columns shared by the season records (sports_analytics_dashboard/nba.py), the
 * training frame (sports_analytics_dashboard/ml_model.py) and the feature vector of the
 * predictor (sports_analytics_dashboard/predictor.py). Each column is spelled as a string key
 * in the source; `Name` gives that spelling.
 */
module Columns {

  datatype Column =
    | WinPct | NetRating | TurnoverPct | PlusMinus | Tov | Fga | Fta | Reb | Ast
    | WinPctLast5 | NetRatingLast5 | TurnoverPctLast5 | RebLast5 | AstLast5

  /** The dictionary key or data-frame column name of each statistic. */
  function Name(c: Column): string {
    match c
    case WinPct => "W_PCT"
    case NetRating => "NET_RATING"
    case TurnoverPct => "TURNOVER_PCT"
    case PlusMinus => "PLUS_MINUS"
    case Tov => "TOV"
    case Fga => "FGA"
    case Fta => "FTA"
    case Reb => "REB"
    case Ast => "AST"
    case WinPctLast5 => "W_PCT_LAST5"
    case NetRatingLast5 => "NET_RATING_LAST5"
    case TurnoverPctLast5 => "TURNOVER_PCT_LAST5"
    case RebLast5 => "REB_LAST5"
    case AstLast5 => "AST_LAST5"
  }

  /** The nine keys every season record carries. */
  const SeasonColumns: set<Column> := {WinPct, NetRating, TurnoverPct, PlusMinus, Tov, Fga, Fta, Reb, Ast}

  /** The five keys added from the last five games. */
  const Last5Columns: set<Column> := {WinPctLast5, NetRatingLast5, TurnoverPctLast5, RebLast5, AstLast5}

  /** No key is both a season key and a last-five key. */
  lemma ColumnsDisjoint()
    ensures SeasonColumns * Last5Columns == {}
  {
  }

  /** Season and last-five keys together are all fourteen statistics. */
  lemma ColumnsCover()
    ensures forall c: Column :: c in SeasonColumns + Last5Columns
  {
    forall c: Column ensures c in SeasonColumns + Last5Columns {
      match c
      case WinPct | NetRating | TurnoverPct | PlusMinus | Tov | Fga | Fta | Reb | Ast =>
      case WinPctLast5 | NetRatingLast5 | TurnoverPctLast5 | RebLast5 | AstLast5 =>
    }
  }

  /** Distinct statistics have distinct keys, so no record entry overwrites another. */
  lemma NameInjective(a: Column, b: Column)
    ensures Name(a) == Name(b) ==> a == b
  {
  }
}
