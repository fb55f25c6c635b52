/**
 * The player-level engine, first half: the team-name lookup, the
 * batting/salary inner join for one year, the performance score, the
 * percentile thresholds and the per-player performance category.
 */
module PlayerJoin {
  import opened Wrappers
  import opened Seqs
  import opened Categories
  import opened Records
  import opened Sorting

  // ---------------------------------------------------------------- names

  /** The name a team row contributes to the lookup: `team.name || team.team_id`. */
  function DisplayName(row: TeamRow): string
  {
    if row.name != "" then row.name else row.teamId
  }

  function TeamRowId(row: TeamRow): string { row.teamId }

  /** `initializeTeamLookup`: team id to display name, last row per id wins. */
  function TeamLookupOf(teamData: seq<TeamRow>): map<string, string>
  {
    Lookup(teamData, TeamRowId, DisplayName)
  }

  /** `getTeamName`: the looked-up name, or the id itself when it is absent or empty. */
  function TeamName(lookup: map<string, string>, teamId: string): (name: string)
    ensures name == teamId || (teamId in lookup && name == lookup[teamId])
    ensures name == "" ==> teamId == ""
  {
    if teamId in lookup && lookup[teamId] != "" then lookup[teamId] else teamId
  }

  /** A team id no team row has resolves to itself. */
  lemma TeamNameFallback(teamData: seq<TeamRow>, teamId: string)
    requires forall i :: 0 <= i < |teamData| ==> teamData[i].teamId != teamId
    ensures TeamName(TeamLookupOf(teamData), teamId) == teamId
  {
    LookupLastWins(teamData, TeamRowId, DisplayName, teamId);
  }

  /** A team id resolves to the display name of the last team row with that id. */
  lemma TeamNameResolution(teamData: seq<TeamRow>, teamId: string, i: nat)
    requires i < |teamData| && teamData[i].teamId == teamId
    requires forall j :: i < j < |teamData| ==> teamData[j].teamId != teamId
    ensures TeamName(TeamLookupOf(teamData), teamId) == DisplayName(teamData[i])
  {
    LookupLastWins(teamData, TeamRowId, DisplayName, teamId);
    var i' :| 0 <= i' < |teamData| && TeamRowId(teamData[i']) == teamId &&
      TeamLookupOf(teamData)[teamId] == DisplayName(teamData[i']) &&
      forall j :: i' < j < |teamData| ==> TeamRowId(teamData[j]) != teamId;
    assert i' == i;
  }

  // ---------------------------------------------------------------- join

  /** `calculatePerformanceScore`: half a point per hit plus a point per double. */
  function PerformanceScore(hits: int, doubles: int): real
  {
    0.5 * (hits as real) + (doubles as real)
  }

  /** The score never drops when hits or doubles grow. */
  lemma PerformanceScoreMonotone(h1: int, d1: int, h2: int, d2: int)
    requires h1 <= h2 && d1 <= d2
    ensures PerformanceScore(h1, d1) <= PerformanceScore(h2, d2)
  {
  }

  /** A player-season present in both the batting and the salary table. */
  datatype JoinedRecord = JoinedRecord(
    playerId: string,
    year: int,
    teamId: string,
    teamName: string,
    hits: int,
    doubles: int,
    performanceScore: real,
    salary: real,
    salaryCategory: SalaryCategory)

  function SalaryPlayerId(row: SalaryRow): string { row.playerId }
  function SalaryAmount(row: SalaryRow): real { row.salary }

  /** `salaryLookup`: player id to the salary of the year's last salary row for that player. */
  function SalaryLookup(salaryData: seq<SalaryRow>, year: int): map<string, real>
  {
    Lookup(Filter(salaryData, SalaryInYear(year)), SalaryPlayerId, SalaryAmount)
  }

  function JoinRow(row: BattingRow, salary: real, year: int, names: map<string, string>): JoinedRecord
  {
    JoinedRecord(row.playerId, year, row.teamId, TeamName(names, row.teamId), row.h, row.doubles,
      PerformanceScore(row.h, row.doubles), salary, CategorizeSalary(salary))
  }

  function HasSalary(salaries: map<string, real>): BattingRow -> bool
  {
    (row: BattingRow) => row.playerId in salaries
  }

  /** The join loop: one record per batting row whose player has a salary, in row order. */
  function JoinRows(rows: seq<BattingRow>, salaries: map<string, real>, year: int, names: map<string, string>): seq<JoinedRecord>
    decreases |rows|
  {
    if rows == [] then []
    else
      var row := rows[|rows| - 1];
      JoinRows(rows[..|rows| - 1], salaries, year, names) +
        (if row.playerId in salaries then [JoinRow(row, salaries[row.playerId], year, names)] else [])
  }

  /** The joined population of `processPlayerData` for one year. */
  function JoinYear(battingData: seq<BattingRow>, salaryData: seq<SalaryRow>, year: int, names: map<string, string>): seq<JoinedRecord>
  {
    JoinRows(Filter(battingData, BattingInYear(year)), SalaryLookup(salaryData, year), year, names)
  }

  /** The join is the map of `JoinRow` over the filtered batting rows. */
  lemma {:induction false} JoinRowsIsMap(rows: seq<BattingRow>, salaries: map<string, real>, year: int, names: map<string, string>)
    ensures var kept := Filter(rows, HasSalary(salaries));
      |JoinRows(rows, salaries, year, names)| == |kept| &&
      forall k :: 0 <= k < |kept| ==>
        JoinRows(rows, salaries, year, names)[k] == JoinRow(kept[k], salaries[kept[k].playerId], year, names)
    decreases |rows|
  {
    if rows != [] {
      var init := rows[..|rows| - 1];
      var row := rows[|rows| - 1];
      JoinRowsIsMap(init, salaries, year, names);
      assert rows == init + [row];
      FilterStep(init, row, HasSalary(salaries));
      var keptInit := Filter(init, HasSalary(salaries));
      var kept := Filter(rows, HasSalary(salaries));
      var joinedInit := JoinRows(init, salaries, year, names);
      var joined := JoinRows(rows, salaries, year, names);
      if row.playerId in salaries {
        assert HasSalary(salaries)(row);
        assert kept == keptInit + [row];
        assert joined == joinedInit + [JoinRow(row, salaries[row.playerId], year, names)];
        forall k | 0 <= k < |kept|
          ensures joined[k] == JoinRow(kept[k], salaries[kept[k].playerId], year, names)
        {
          if k < |keptInit| {
            assert joined[k] == joinedInit[k] && kept[k] == keptInit[k];
          }
        }
      } else {
        assert !HasSalary(salaries)(row);
        assert kept == keptInit && joined == joinedInit;
      }
    }
  }

  /** The batting rows of `year` whose player has a salary row in `year`, in input order. */
  function KeptRows(battingData: seq<BattingRow>, salaryData: seq<SalaryRow>, year: int): seq<BattingRow>
  {
    Filter(Filter(battingData, BattingInYear(year)), HasSalary(SalaryLookup(salaryData, year)))
  }

  /**
   * The inner-join invariant and its order. Record k of the year comes
   * from the k-th batting row of that year whose player has a salary row
   * in that year, and carries that row's player, team and counts and the
   * score `0.5*h + doubles`.
   */
  lemma JoinYearSpec(battingData: seq<BattingRow>, salaryData: seq<SalaryRow>, year: int, names: map<string, string>)
    ensures var joined := JoinYear(battingData, salaryData, year, names);
      var kept := KeptRows(battingData, salaryData, year);
      |joined| == |kept| &&
      forall k :: 0 <= k < |kept| ==>
        kept[k] in battingData && kept[k].year == year &&
        joined[k].playerId == kept[k].playerId && joined[k].teamId == kept[k].teamId &&
        joined[k].year == year &&
        joined[k].hits == kept[k].h && joined[k].doubles == kept[k].doubles &&
        joined[k].performanceScore == 0.5 * (kept[k].h as real) + (kept[k].doubles as real) &&
        joined[k].salaryCategory == CategorizeSalary(joined[k].salary)
  {
    var yearBatting := Filter(battingData, BattingInYear(year));
    var salaries := SalaryLookup(salaryData, year);
    var kept := KeptRows(battingData, salaryData, year);
    JoinRowsIsMap(yearBatting, salaries, year, names);
    forall k | 0 <= k < |kept| ensures kept[k] in battingData && kept[k].year == year {
      assert kept[k] in kept;
    }
  }

  /**
   * The salary a joined record carries is that of the LAST salary row of
   * the year for its player (the lookup is overwritten row by row).
   */
  lemma JoinedSalaryIsLast(battingData: seq<BattingRow>, salaryData: seq<SalaryRow>, year: int, names: map<string, string>, k: nat)
    returns (i: nat)
    requires k < |KeptRows(battingData, salaryData, year)|
    ensures var joined := JoinYear(battingData, salaryData, year, names);
      var kept := KeptRows(battingData, salaryData, year);
      var yearSalaries := Filter(salaryData, SalaryInYear(year));
      k < |joined| && i < |yearSalaries| && yearSalaries[i].playerId == kept[k].playerId &&
      joined[k].salary == yearSalaries[i].salary &&
      forall j :: i < j < |yearSalaries| ==> yearSalaries[j].playerId != kept[k].playerId
  {
    var yearSalaries := Filter(salaryData, SalaryInYear(year));
    var salaries := SalaryLookup(salaryData, year);
    JoinedSalaryAt(battingData, salaryData, year, names, k);
    var kept := KeptRows(battingData, salaryData, year);
    var id := kept[k].playerId;
    LookupLastWins(yearSalaries, SalaryPlayerId, SalaryAmount, id);
    i :| 0 <= i < |yearSalaries| && SalaryPlayerId(yearSalaries[i]) == id &&
      salaries[id] == SalaryAmount(yearSalaries[i]) &&
      forall j :: i < j < |yearSalaries| ==> SalaryPlayerId(yearSalaries[j]) != id;
  }

  /** The k-th joined record carries the looked-up salary of the k-th kept row's player. */
  lemma JoinedSalaryAt(battingData: seq<BattingRow>, salaryData: seq<SalaryRow>, year: int, names: map<string, string>, k: nat)
    requires k < |KeptRows(battingData, salaryData, year)|
    ensures var joined := JoinYear(battingData, salaryData, year, names);
      var kept := KeptRows(battingData, salaryData, year);
      var salaries := SalaryLookup(salaryData, year);
      k < |joined| && kept[k].playerId in salaries && joined[k].salary == salaries[kept[k].playerId]
  {
    var salaries := SalaryLookup(salaryData, year);
    JoinRowsIsMap(Filter(battingData, BattingInYear(year)), salaries, year, names);
    var kept := KeptRows(battingData, salaryData, year);
    assert HasSalary(salaries)(kept[k]);
  }

  /** A batting row of the year drops out of the join exactly when its player has no salary row that year. */
  lemma JoinExcludes(salaryData: seq<SalaryRow>, year: int, row: BattingRow)
    ensures row.playerId !in SalaryLookup(salaryData, year) <==>
      forall i :: 0 <= i < |salaryData| ==> !(salaryData[i].year == year && salaryData[i].playerId == row.playerId)
  {
    var yearSalaries := Filter(salaryData, SalaryInYear(year));
    LookupLastWins(yearSalaries, SalaryPlayerId, SalaryAmount, row.playerId);
    if exists i :: 0 <= i < |salaryData| && salaryData[i].year == year && salaryData[i].playerId == row.playerId {
      var i :| 0 <= i < |salaryData| && salaryData[i].year == year && salaryData[i].playerId == row.playerId;
      assert salaryData[i] in yearSalaries;
      var k :| 0 <= k < |yearSalaries| && yearSalaries[k] == salaryData[i];
    }
    if row.playerId in SalaryLookup(salaryData, year) {
      var k :| 0 <= k < |yearSalaries| && yearSalaries[k].playerId == row.playerId;
      assert yearSalaries[k] in salaryData;
      var i :| 0 <= i < |salaryData| && salaryData[i] == yearSalaries[k];
    }
  }

  // ---------------------------------------------------------------- percentiles

  /** The result of `calculatePerformancePercentiles` for a non-empty score list. */
  datatype Thresholds = Thresholds(low: real, medium: real, high: real, max: real, count: nat, average: real)

  function RealValue(x: real): real { x }

  /** Index of the 33rd percentile: `Math.floor(n * 0.33)`. */
  function MediumIndex(n: nat): nat { (33 * n) / 100 }
  /** Index of the 67th percentile: `Math.floor(n * 0.67)`. */
  function HighIndex(n: nat): nat { (67 * n) / 100 }

  /**
   * `calculatePerformancePercentiles` over the ascending sort of the scores;
   * `None` for an empty list, where the source reads undefined elements and
   * divides by zero.
   */
  function PercentilesOf(scores: seq<real>): (t: Option<Thresholds>)
    ensures t.None? <==> scores == []
  {
    if scores == [] then None
    else
      var sorted := SortAsc(scores);
      var n := |sorted|;
      Some(Thresholds(sorted[0], sorted[MediumIndex(n)], sorted[HighIndex(n)], sorted[n - 1], n,
        SumReal(sorted, RealValue) / (n as real)))
  }

  /**
   * For a non-empty list the thresholds are read at indices 0,
   * floor(0.33n), floor(0.67n) and n-1 of the ascending sort (any sorted
   * permutation of the scores), all in range; `count` is n; hence
   * `low <= medium <= high <= max`, and the average lies in `[low, max]`.
   */
  lemma PercentilesSpec(scores: seq<real>, sorted: seq<real>)
    requires scores != []
    requires SortedAsc(sorted) && multiset(sorted) == multiset(scores)
    ensures var t := PercentilesOf(scores).value; var n := |sorted|;
      n == |scores| && MediumIndex(n) < n && HighIndex(n) < n &&
      t.low == sorted[0] && t.medium == sorted[MediumIndex(n)] &&
      t.high == sorted[HighIndex(n)] && t.max == sorted[n - 1] && t.count == n &&
      t.low <= t.medium <= t.high <= t.max &&
      t.low <= t.average <= t.max
  {
    SortedAscUnique(sorted, SortAsc(scores));
    SortedAscUnique(sorted, SortAsc(sorted));
    assert |sorted| == |multiset(sorted)| == |multiset(scores)| == |scores|;
    assert PercentilesOf(scores) == PercentilesOf(sorted);
    ThresholdsAt(sorted);
  }

  /** The thresholds of an ascending list, read off by position. */
  lemma ThresholdsAt(sorted: seq<real>)
    requires sorted != [] && SortedAsc(sorted)
    ensures var t := PercentilesOf(sorted).value; var n := |sorted|;
      MediumIndex(n) < n && HighIndex(n) < n &&
      t.low == sorted[0] && t.medium == sorted[MediumIndex(n)] &&
      t.high == sorted[HighIndex(n)] && t.max == sorted[n - 1] && t.count == n &&
      t.low <= t.medium <= t.high <= t.max &&
      t.low <= t.average <= t.max
  {
    var n := |sorted|;
    IndicesInRange(n);
    PercentilesOfSorted(sorted);
    AverageOfSorted(sorted);
  }

  /** Sorting an already sorted list changes nothing, so the thresholds are read off it directly. */
  lemma PercentilesOfSorted(sorted: seq<real>)
    requires sorted != [] && SortedAsc(sorted)
    ensures var n := |sorted|;
      MediumIndex(n) < n && HighIndex(n) < n &&
      PercentilesOf(sorted) == Some(Thresholds(sorted[0], sorted[MediumIndex(n)], sorted[HighIndex(n)], sorted[n - 1], n,
        SumReal(sorted, RealValue) / (n as real)))
  {
    IndicesInRange(|sorted|);
    SortedAscUnique(sorted, SortAsc(sorted));
  }

  lemma AverageOfSorted(sorted: seq<real>)
    requires sorted != [] && SortedAsc(sorted)
    ensures sorted[0] <= SumReal(sorted, RealValue) / (|sorted| as real) <= sorted[|sorted| - 1]
  {
    SortedBounds(sorted);
    MeanRealBounds(sorted, RealValue, sorted[0], sorted[|sorted| - 1]);
  }

  lemma SortedBounds(sorted: seq<real>)
    requires sorted != [] && SortedAsc(sorted)
    ensures forall i :: 0 <= i < |sorted| ==> sorted[0] <= RealValue(sorted[i]) <= sorted[|sorted| - 1]
  {
  }

  lemma IndicesInRange(n: nat)
    requires n > 0
    ensures MediumIndex(n) <= HighIndex(n) < n
  {
    assert MediumIndex(n) * 100 <= 33 * n;
    assert HighIndex(n) * 100 <= 67 * n < 100 * n;
  }

  // ---------------------------------------------------------------- categories

  /**
   * `categorizePerformance` against optional thresholds. Without thresholds
   * (an empty year) the source compares against `undefined`, which is
   * always false, so the category is Low.
   */
  function CategorizePerformance(score: real, thresholds: Option<Thresholds>): (c: PerformanceCategory)
    ensures thresholds.None? ==> c == LowPerformance
    ensures thresholds.Some? ==>
      (c == HighPerformance <==> score >= thresholds.value.high) &&
      (c == MediumPerformance <==> thresholds.value.medium <= score < thresholds.value.high)
  {
    match thresholds
    case None => LowPerformance
    case Some(t) => CategorizeByCuts(score, t.medium, t.high)
  }

  /** A joined player with its performance category. */
  datatype PlayerRecord = PlayerRecord(
    playerId: string,
    year: int,
    teamId: string,
    teamName: string,
    hits: int,
    doubles: int,
    performanceScore: real,
    salary: real,
    salaryCategory: SalaryCategory,
    performanceCategory: PerformanceCategory)

  function Classify(j: JoinedRecord, thresholds: Option<Thresholds>): PlayerRecord
  {
    PlayerRecord(j.playerId, j.year, j.teamId, j.teamName, j.hits, j.doubles, j.performanceScore,
      j.salary, j.salaryCategory, CategorizePerformance(j.performanceScore, thresholds))
  }

  function ClassifyAll(joined: seq<JoinedRecord>, thresholds: Option<Thresholds>): (records: seq<PlayerRecord>)
    ensures |records| == |joined|
    ensures forall k :: 0 <= k < |joined| ==> records[k] == Classify(joined[k], thresholds)
    decreases |joined|
  {
    if joined == [] then []
    else ClassifyAll(joined[..|joined| - 1], thresholds) + [Classify(joined[|joined| - 1], thresholds)]
  }

  /** The list `performanceScores`, in join order. */
  function Scores(joined: seq<JoinedRecord>): (s: seq<real>)
    ensures |s| == |joined|
    ensures forall k :: 0 <= k < |joined| ==> s[k] == joined[k].performanceScore
    decreases |joined|
  {
    if joined == [] then []
    else Scores(joined[..|joined| - 1]) + [joined[|joined| - 1].performanceScore]
  }

  /** `performanceStats[year]`. */
  datatype YearStats = YearStats(thresholds: Option<Thresholds>, totalPlayers: nat, rawScores: seq<real>)

  function StatsOf(joined: seq<JoinedRecord>): YearStats
  {
    YearStats(PercentilesOf(Scores(joined)), |joined|, Scores(joined))
  }

  /** What `processPlayerData` returns for one year. */
  function PlayerRecords(battingData: seq<BattingRow>, salaryData: seq<SalaryRow>, year: int, names: map<string, string>): seq<PlayerRecord>
  {
    var joined := JoinYear(battingData, salaryData, year, names);
    ClassifyAll(joined, StatsOf(joined).thresholds)
  }

  /**
   * After `processPlayerData` every record carries the category of its
   * score against that year's thresholds, `totalPlayers` is the number of
   * records, and thresholds exist exactly when some record does.
   */
  lemma ProcessPlayerDataSpec(battingData: seq<BattingRow>, salaryData: seq<SalaryRow>, year: int, names: map<string, string>)
    ensures var joined := JoinYear(battingData, salaryData, year, names);
      var records := PlayerRecords(battingData, salaryData, year, names);
      var stats := StatsOf(joined);
      stats.totalPlayers == |records| &&
      (stats.thresholds.Some? <==> records != []) &&
      forall k :: 0 <= k < |records| ==>
        records[k].performanceScore == joined[k].performanceScore &&
        records[k].salary == joined[k].salary &&
        records[k].performanceCategory ==
          CategorizeByCuts(records[k].performanceScore, stats.thresholds.value.medium, stats.thresholds.value.high)
  {
  }
}
