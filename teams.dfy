/**
 * Team-name canonicalisation and team lookup (sports_analytics_dashboard/utils.py): the alias
 * table, `normalize_team_name`, `get_team_id` over the team list, the id-to-name dictionary
 * and `get_current_season`.
 */
module Teams {
  import opened Wrappers
  import opened Text
  import Dicts

  /** One entry of the static team list: `{"id": ..., "full_name": ...}`. */
  datatype Team = Team(id: int, fullName: string)

  /** The alias dictionary literal, entry by entry in source order, its repeated keys included. */
  const AliasEntries: seq<(string, string)> := [
    ("NY Knicks", "New York Knicks"),
    ("SA Spurs", "San Antonio Spurs"),
    ("GS Warriors", "Golden State Warriors"),
    ("OKC Thunder", "Oklahoma City Thunder"),
    ("Los Angeles Clippers", "LA Clippers"),
    ("NOP", "New Orleans Pelicans"),
    ("NYK", "New York Knicks"),
    ("SAS", "San Antonio Spurs"),
    ("GSW", "Golden State Warriors"),
    ("OKC", "Oklahoma City Thunder"),
    ("ATL", "Atlanta Hawks"),
    ("BKN", "Brooklyn Nets"),
    ("BOS", "Boston Celtics"),
    ("CHA", "Charlotte Hornets"),
    ("CHI", "Chicago Bulls"),
    ("CLE", "Cleveland Cavaliers"),
    ("DAL", "Dallas Mavericks"),
    ("DEN", "Denver Nuggets"),
    ("DET", "Detroit Pistons"),
    ("GSW", "Golden State Warriors"),
    ("HOU", "Houston Rockets"),
    ("IND", "Indiana Pacers"),
    ("LAC", "LA Clippers"),
    ("LAL", "Los Angeles Lakers"),
    ("MEM", "Memphis Grizzlies"),
    ("MIA", "Miami Heat"),
    ("MIL", "Milwaukee Bucks"),
    ("MIN", "Minnesota Timberwolves"),
    ("NO", "New Orleans Pelicans"),
    ("NOP", "New Orleans Pelicans"),
    ("NY", "New York Knicks"),
    ("NYK", "New York Knicks"),
    ("OKC", "Oklahoma City Thunder"),
    ("ORL", "Orlando Magic"),
    ("PHI", "Philadelphia 76ers"),
    ("PHX", "Phoenix Suns"),
    ("POR", "Portland Trail Blazers"),
    ("SAC", "Sacramento Kings"),
    ("SAS", "San Antonio Spurs"),
    ("TOR", "Toronto Raptors"),
    ("UTA", "Utah Jazz"),
    ("WAS", "Washington Wizards")
  ]

  /** The dictionary Python builds from that literal: later entries overwrite earlier ones. */
  function AliasTable(): map<string, string> {
    Dicts.FromPairs(AliasEntries)
  }

  /** The alias keys that are longer than a three-letter abbreviation. */
  const ShortForms: set<string> := {"NY Knicks", "SA Spurs", "GS Warriors", "OKC Thunder", "Los Angeles Clippers"}

  /** Every key of the literal is an abbreviation of at most three letters or one of the short forms. */
  lemma AliasKeysAreAbbreviations()
    ensures forall i :: 0 <= i < |AliasEntries| ==> |AliasEntries[i].0| <= 3 || AliasEntries[i].0 in ShortForms
  {
  }

  /** Every value of the literal is a name of at least nine characters and not a short form. */
  lemma AliasValuesAreLong()
    ensures forall i :: 0 <= i < |AliasEntries| ==> |AliasEntries[i].1| >= 9 && AliasEntries[i].1 !in ShortForms
  {
    // One lemma per block of entries keeps each proof small.
    AliasValuesAreLongFrom0();
    AliasValuesAreLongFrom14();
    AliasValuesAreLongFrom28();
  }

  lemma AliasValuesAreLongFrom0()
    ensures forall i :: 0 <= i < 14 ==> |AliasEntries[i].1| >= 9 && AliasEntries[i].1 !in ShortForms
  {
  }

  lemma AliasValuesAreLongFrom14()
    ensures forall i :: 14 <= i < 28 ==> |AliasEntries[i].1| >= 9 && AliasEntries[i].1 !in ShortForms
  {
  }

  lemma AliasValuesAreLongFrom28()
    ensures forall i :: 28 <= i < |AliasEntries| ==> |AliasEntries[i].1| >= 9 && AliasEntries[i].1 !in ShortForms
  {
  }

  /** No value of the literal has surrounding whitespace. */
  lemma AliasValuesAreTrimmed()
    ensures forall i :: 0 <= i < |AliasEntries| ==> Trimmed(AliasEntries[i].1)
  {
    AliasValuesAreTrimmedFrom0();
    AliasValuesAreTrimmedFrom14();
    AliasValuesAreTrimmedFrom28();
  }

  lemma AliasValuesAreTrimmedFrom0()
    ensures forall i :: 0 <= i < 14 ==> Trimmed(AliasEntries[i].1)
  {
  }

  lemma AliasValuesAreTrimmedFrom14()
    ensures forall i :: 14 <= i < 28 ==> Trimmed(AliasEntries[i].1)
  {
  }

  lemma AliasValuesAreTrimmedFrom28()
    ensures forall i :: 28 <= i < |AliasEntries| ==> Trimmed(AliasEntries[i].1)
  {
  }

  /**
   * A table is canonical when its values are final names: no value is itself a key, and no
   * value has surrounding whitespace.
   */
  predicate Canonical(aliases: map<string, string>) {
    forall k :: k in aliases ==> aliases[k] !in aliases && Trimmed(aliases[k])
  }

  /** The alias dictionary of the source is canonical. */
  lemma AliasTableCanonical()
    ensures Canonical(AliasTable())
  {
    AliasKeysAreAbbreviations();
    AliasValuesAreLong();
    AliasValuesAreTrimmed();
    CanonicalFromEntries(AliasEntries);
  }

  /**
   * A dictionary literal whose keys are abbreviations or short forms, and whose values are
   * longer stripped names that are not short forms, is canonical: no value is again a key.
   */
  lemma CanonicalFromEntries(entries: seq<(string, string)>)
    requires forall i :: 0 <= i < |entries| ==> |entries[i].0| <= 3 || entries[i].0 in ShortForms
    requires forall i :: 0 <= i < |entries| ==> |entries[i].1| >= 9 && entries[i].1 !in ShortForms
    requires forall i :: 0 <= i < |entries| ==> Trimmed(entries[i].1)
    ensures Canonical(Dicts.FromPairs(entries))
  {
    var table := Dicts.FromPairs(entries);
    forall k | k in table
      ensures table[k] !in table && Trimmed(table[k])
    {
      Dicts.FromPairsEntryListed(entries, k);
      if table[k] in table {
        Dicts.FromPairsEntryListed(entries, table[k]);
        assert false;
      }
    }
  }

  /**
   * `normalize_team_name` over an alias dictionary `aliases` (the source reads its module-level
   * `team_name_mapping`, which is `AliasTable()`): strip surrounding whitespace, then replace a
   * known alias by its value; an unknown name comes back stripped and otherwise unchanged.
   */
  function Normalize(aliases: map<string, string>, teamName: string): (r: string)
    ensures Strip(teamName) !in aliases ==> r == Strip(teamName)
    ensures Strip(teamName) in aliases ==> r == aliases[Strip(teamName)]
  {
    var key := Strip(teamName);
    if key in aliases then aliases[key] else key
  }

  /** Over a canonical table, a normalised name is final: not an alias again, and trimmed. */
  lemma NormalizeCanonical(aliases: map<string, string>, teamName: string)
    requires Canonical(aliases)
    ensures Normalize(aliases, teamName) !in aliases && Trimmed(Normalize(aliases, teamName))
  {
  }

  /** Over a canonical table, normalising twice is normalising once. */
  lemma NormalizeIdempotent(aliases: map<string, string>, teamName: string)
    requires Canonical(aliases)
    ensures Normalize(aliases, Normalize(aliases, teamName)) == Normalize(aliases, teamName)
  {
    NormalizeCanonical(aliases, teamName);
    StripTrimmed(Normalize(aliases, teamName));
  }

  /** Two strings differ in length or in one of their first three characters. */
  predicate Differs(a: string, b: string)
    ensures Differs(a, b) ==> a != b
  {
    || |a| != |b|
    || (|a| > 0 && a[0] != b[0])
    || (|a| > 1 && a[1] != b[1])
    || (|a| > 2 && a[2] != b[2])
  }

  /**
   * The last entry of the literal that lists a key decides its value, since later entries
   * overwrite earlier ones; a key without surrounding whitespace then normalises to that value.
   * (The keys written twice, GSW, NOP, NYK, OKC and SAS, repeat the same value.)
   */
  lemma LastAliasWins(i: nat, key: string, value: string)
    requires i < |AliasEntries| && AliasEntries[i] == (key, value) && Trimmed(key)
    requires forall j :: i < j < |AliasEntries| ==> Differs(AliasEntries[j].0, key)
    ensures Normalize(AliasTable(), key) == value
  {
    Dicts.FromPairsLastWins(AliasEntries, i);
    StripTrimmed(key);
  }

  /**
   * The five keys the literal writes twice repeat the same value, so the later entry the
   * dictionary keeps agrees with the earlier one it overwrites.
   */
  lemma RepeatedKeysAgree()
    ensures AliasEntries[8] == AliasEntries[19] == ("GSW", "Golden State Warriors")
    ensures AliasEntries[5] == AliasEntries[29] == ("NOP", "New Orleans Pelicans")
    ensures AliasEntries[6] == AliasEntries[31] == ("NYK", "New York Knicks")
    ensures AliasEntries[9] == AliasEntries[32] == ("OKC", "Oklahoma City Thunder")
    ensures AliasEntries[7] == AliasEntries[38] == ("SAS", "San Antonio Spurs")
    ensures Normalize(AliasTable(), "GSW") == "Golden State Warriors"
    ensures Normalize(AliasTable(), "NOP") == "New Orleans Pelicans"
    ensures Normalize(AliasTable(), "NYK") == "New York Knicks"
    ensures Normalize(AliasTable(), "OKC") == "Oklahoma City Thunder"
    ensures Normalize(AliasTable(), "SAS") == "San Antonio Spurs"
  {
    GswIsWarriors();
    NopIsPelicans();
    NykIsKnicks();
    OkcIsThunder();
    SasIsSpurs();
    GswRepeated();
    NopRepeated();
    NykRepeated();
    OkcRepeated();
    SasRepeated();
  }

  lemma GswIsWarriors()
    ensures Normalize(AliasTable(), "GSW") == "Golden State Warriors"
  {
    LastAliasWins(19, "GSW", "Golden State Warriors");
  }

  lemma NopIsPelicans()
    ensures Normalize(AliasTable(), "NOP") == "New Orleans Pelicans"
  {
    LastAliasWins(29, "NOP", "New Orleans Pelicans");
  }

  lemma OkcIsThunder()
    ensures Normalize(AliasTable(), "OKC") == "Oklahoma City Thunder"
  {
    LastAliasWins(32, "OKC", "Oklahoma City Thunder");
  }

  lemma SasIsSpurs()
    ensures Normalize(AliasTable(), "SAS") == "San Antonio Spurs"
  {
    LastAliasWins(38, "SAS", "San Antonio Spurs");
  }

  lemma GswRepeated()
    ensures AliasEntries[8] == AliasEntries[19] == ("GSW", "Golden State Warriors")
  {
  }

  lemma NopRepeated()
    ensures AliasEntries[5] == AliasEntries[29] == ("NOP", "New Orleans Pelicans")
  {
  }

  lemma NykRepeated()
    ensures AliasEntries[6] == AliasEntries[31] == ("NYK", "New York Knicks")
  {
  }

  lemma OkcRepeated()
    ensures AliasEntries[9] == AliasEntries[32] == ("OKC", "Oklahoma City Thunder")
  {
  }

  lemma SasRepeated()
    ensures AliasEntries[7] == AliasEntries[38] == ("SAS", "San Antonio Spurs")
  {
  }

  /** "NYK", "NY" and "NY Knicks" all normalise to "New York Knicks", which is canonical. */
  lemma KnicksAliasesConverge()
    ensures Normalize(AliasTable(), "NYK") == Normalize(AliasTable(), "NY") == Normalize(AliasTable(), "NY Knicks")
         == Normalize(AliasTable(), "New York Knicks") == "New York Knicks"
  {
    // One lookup per lemma: each lookup in the literal table is costly for the solver.
    NykIsKnicks();
    NyIsKnicks();
    NyKnicksIsKnicks();
    KnicksIsCanonical();
  }

  lemma NykIsKnicks()
    ensures Normalize(AliasTable(), "NYK") == "New York Knicks"
  {
    LastAliasWins(31, "NYK", "New York Knicks");
  }

  lemma NyIsKnicks()
    ensures Normalize(AliasTable(), "NY") == "New York Knicks"
  {
    LastAliasWins(30, "NY", "New York Knicks");
  }

  lemma NyKnicksIsKnicks()
    ensures Normalize(AliasTable(), "NY Knicks") == "New York Knicks"
  {
    LastAliasWins(0, "NY Knicks", "New York Knicks");
  }

  lemma KnicksIsCanonical()
    ensures Normalize(AliasTable(), "New York Knicks") == "New York Knicks"
  {
    CanonicalNameIsFixed("New York Knicks");
  }

  /** "LAC" and "Los Angeles Clippers" normalise to "LA Clippers", which is canonical. */
  lemma ClippersAliasesConverge()
    ensures Normalize(AliasTable(), "LAC") == Normalize(AliasTable(), "Los Angeles Clippers")
         == Normalize(AliasTable(), "LA Clippers") == "LA Clippers"
  {
    LacIsClippers();
    LosAngelesClippersIsClippers();
    ClippersIsCanonical();
  }

  lemma LacIsClippers()
    ensures Normalize(AliasTable(), "LAC") == "LA Clippers"
  {
    LastAliasWins(22, "LAC", "LA Clippers");
  }

  lemma LosAngelesClippersIsClippers()
    ensures Normalize(AliasTable(), "Los Angeles Clippers") == "LA Clippers"
  {
    LastAliasWins(4, "Los Angeles Clippers", "LA Clippers");
  }

  lemma ClippersIsCanonical()
    ensures Normalize(AliasTable(), "LA Clippers") == "LA Clippers"
  {
    CanonicalNameIsFixed("LA Clippers");
  }

  /** A trimmed name longer than three characters that is not a short form is not an alias. */
  lemma CanonicalNameIsFixed(name: string)
    requires Trimmed(name) && |name| > 3 && name !in ShortForms
    ensures Normalize(AliasTable(), name) == name
  {
    StripTrimmed(name);
    if name in AliasTable() {
      Dicts.FromPairsEntryListed(AliasEntries, name);
      AliasKeysAreAbbreviations();
      assert false;
    }
  }

  /** A team of the list matches a requested name when both normalise to the same string. */
  predicate NamesMatch(aliases: map<string, string>, team: Team, teamName: string) {
    Normalize(aliases, team.fullName) == Normalize(aliases, teamName)
  }

  /** The normalised full names of the team list, in list order. */
  function TeamKeys(aliases: map<string, string>, teams: seq<Team>): (keys: seq<string>)
    ensures |keys| == |teams|
    ensures forall j :: 0 <= j < |teams| ==> keys[j] == Normalize(aliases, teams[j].fullName)
  {
    seq(|teams|, j requires 0 <= j < |teams| => Normalize(aliases, teams[j].fullName))
  }

  /** Index of the first occurrence of `key` in `keys`, or -1 when it does not occur. */
  function FirstIndex(keys: seq<string>, key: string): (i: int)
    ensures -1 <= i < |keys|
    ensures i == -1 ==> forall j :: 0 <= j < |keys| ==> keys[j] != key
    ensures i >= 0 ==> keys[i] == key && (forall j :: 0 <= j < i ==> keys[j] != key)
  {
    if keys == [] then -1
    else if keys[0] == key then 0
    else
      var k := FirstIndex(keys[1..], key);
      if k == -1 then -1 else k + 1
  }

  /**
   * What `get_team_id` returns: the id of the first team in the list whose normalised full name
   * equals the normalised request, or None when no team matches.
   */
  function TeamIdOf(aliases: map<string, string>, teams: seq<Team>, teamName: string): (r: Option<int>)
    ensures r.None? <==> forall j :: 0 <= j < |teams| ==> !NamesMatch(aliases, teams[j], teamName)
    ensures r.Some? ==> exists i :: 0 <= i < |teams| && r.value == teams[i].id && NamesMatch(aliases, teams[i], teamName)
                          && (forall j :: 0 <= j < i ==> !NamesMatch(aliases, teams[j], teamName))
  {
    var i := FirstIndex(TeamKeys(aliases, teams), Normalize(aliases, teamName));
    if i == -1 then None else Some(teams[i].id)
  }

  /** `get_team_id`: a linear search over the team list that returns at the first match. */
  method GetTeamId(aliases: map<string, string>, teams: seq<Team>, teamName: string) returns (id: Option<int>)
    ensures id == TeamIdOf(aliases, teams, teamName)
  {
    var standardizedName := Normalize(aliases, teamName);
    ghost var keys := TeamKeys(aliases, teams);
    for i := 0 to |teams|
      invariant forall j :: 0 <= j < i ==> keys[j] != standardizedName
    {
      if Normalize(aliases, teams[i].fullName) == standardizedName {
        FirstIndexIs(keys, standardizedName, i);
        return Some(teams[i].id);
      }
    }
    FirstIndexIs(keys, standardizedName, |teams|);
    return None;
  }

  /** The first index is determined by where the key first occurs. */
  lemma FirstIndexIs(keys: seq<string>, key: string, i: nat)
    requires i <= |keys|
    requires forall j :: 0 <= j < i ==> keys[j] != key
    requires i < |keys| ==> keys[i] == key
    ensures FirstIndex(keys, key) == if i < |keys| then i else -1
  {
  }

  /** Over a canonical table, looking a team up by a name or by its normalisation gives the same answer. */
  lemma TeamIdOfNormalized(aliases: map<string, string>, teams: seq<Team>, teamName: string)
    requires Canonical(aliases)
    ensures TeamIdOf(aliases, teams, Normalize(aliases, teamName)) == TeamIdOf(aliases, teams, teamName)
  {
    NormalizeIdempotent(aliases, teamName);
  }

  /** The (id, full name) pairs of the team list, in list order. */
  function IdNamePairs(teams: seq<Team>): (pairs: seq<(int, string)>)
    ensures |pairs| == |teams|
    ensures forall i :: 0 <= i < |teams| ==> pairs[i] == (teams[i].id, teams[i].fullName)
  {
    seq(|teams|, i requires 0 <= i < |teams| => (teams[i].id, teams[i].fullName))
  }

  /**
   * The module-level loop that fills `team_names`: one entry per team id, mapping it to the
   * full name of the last team in the list with that id.
   */
  method BuildTeamNames(teams: seq<Team>) returns (teamNames: map<int, string>)
    ensures teamNames == Dicts.FromPairs(IdNamePairs(teams))
    ensures teamNames.Keys == set i | 0 <= i < |teams| :: teams[i].id
  {
    teamNames := map[];
    for i := 0 to |teams|
      invariant teamNames == Dicts.FromPairs(IdNamePairs(teams[..i]))
    {
      assert IdNamePairs(teams[..i + 1])[..i] == IdNamePairs(teams[..i]);
      teamNames := teamNames[teams[i].id := teams[i].fullName];
    }
    assert teams[..|teams|] == teams;
    var pairs := IdNamePairs(teams);
    forall k | k in teamNames ensures k in set i | 0 <= i < |teams| :: teams[i].id {
      var i :| 0 <= i < |pairs| && pairs[i].0 == k;
      assert teams[i].id == k;
    }
  }

  /** Python's `f"{start}-{str(start + 1)[2:]}"`: the label of the season starting in `start`. */
  function SeasonLabel(start: int): string {
    IntToString(start) + "-" + DropTwo(IntToString(start + 1))
  }

  /** `get_current_season` for the date's year and month: seasons begin in October. */
  function CurrentSeason(year: int, month: int): (s: string)
    ensures 1001 <= year <= 9998 ==>
      && |s| == 7 && s[4] == '-' && AllDigits(s[..4]) && AllDigits(s[5..])
      && DecimalValue(s[..4]) == (if month >= 10 then year else year - 1)
      && DecimalValue(s[5..]) == (DecimalValue(s[..4]) + 1) % 100
  {
    SeasonLabelShape(year);
    SeasonLabelShape(year - 1);
    if month >= 10 then SeasonLabel(year) else SeasonLabel(year - 1)
  }

  /**
   * For a four-digit start year the label reads "YYYY-yy": the start year, a dash and the last
   * two digits of the following year.
   */
  lemma SeasonLabelShape(start: int)
    ensures 1000 <= start <= 9998 ==> var s := SeasonLabel(start);
      && |s| == 7 && s[4] == '-' && AllDigits(s[..4]) && AllDigits(s[5..])
      && DecimalValue(s[..4]) == start && DecimalValue(s[5..]) == (start + 1) % 100
  {
    if 1000 <= start <= 9998 {
      var s := SeasonLabel(start);
      FourDigitSuffix(start);
      FourDigitSuffix(start + 1);
      NatToStringRoundTrip(start);
      assert s[..4] == NatToString(start);
      assert s[5..] == DropTwo(NatToString(start + 1));
    }
  }

  /**
   * The season string names the year it started: the current year from October on, the
   * previous year before October.
   */
  lemma CurrentSeasonStartYear(year: int, month: int)
    requires 1001 <= year <= 9998
    ensures var s := CurrentSeason(year, month);
      && |s| == 7 && s[4] == '-' && AllDigits(s[..4])
      && (month >= 10 <==> DecimalValue(s[..4]) == year)
      && (month < 10 <==> DecimalValue(s[..4]) == year - 1)
  {
    if month >= 10 { SeasonLabelShape(year); } else { SeasonLabelShape(year - 1); }
  }
}
