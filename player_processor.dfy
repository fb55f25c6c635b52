/**
 * The `DataProcessor` class of the player-level engine: an object whose
 * methods rebuild its node, link and detail fields for one season. Each
 * method mirrors the loops of the source and is proved equal to the
 * value-level definitions of the modules it imports, whose properties are
 * proved there.
 */
module PlayerProcessor {
  import opened Wrappers
  import opened Seqs
  import opened Records
  import opened Categories
  import opened Sorting
  import opened Years
  import opened Flows
  import opened PlayerJoin
  import opened PlayerTeams
  import opened PlayerGraph
  import opened PlayerLinks

  /** What `processDataForYear` returns: the empty pair, or the graph with the year's statistics. */
  datatype Snapshot =
    | NoRecords
    | Snapshot(graph: Graph, performanceStats: YearStats)

  /** The graph a season yields from the given team names. */
  function YearGraph(battingData: seq<BattingRow>, salaryData: seq<SalaryRow>, year: int,
                     names: map<string, string>): Graph
  {
    var records := PlayerRecords(battingData, salaryData, year, names);
    if records == [] then EmptyGraph
    else
      var stats := StatsOf(JoinYear(battingData, salaryData, year, names));
      SankeyGraph(PlayerTeams.AggregateByTeam(records, stats.thresholds), records)
  }

  function YearSnapshot(battingData: seq<BattingRow>, salaryData: seq<SalaryRow>, year: int,
                        names: map<string, string>): Snapshot
  {
    if PlayerRecords(battingData, salaryData, year, names) == [] then NoRecords
    else Snapshot(YearGraph(battingData, salaryData, year, names), StatsOf(JoinYear(battingData, salaryData, year, names)))
  }

  /** A season without joined players has the empty graph and no snapshot. */
  lemma YearWithoutRecords(battingData: seq<BattingRow>, salaryData: seq<SalaryRow>, year: int, names: map<string, string>)
    requires PlayerRecords(battingData, salaryData, year, names) == []
    ensures YearGraph(battingData, salaryData, year, names) == EmptyGraph
    ensures YearSnapshot(battingData, salaryData, year, names) == NoRecords
  {
  }

  /** A season with joined players has the graph of its teams and records. */
  lemma YearWithRecords(battingData: seq<BattingRow>, salaryData: seq<SalaryRow>, year: int, names: map<string, string>,
                        teams: seq<TeamAggregate>)
    requires PlayerRecords(battingData, salaryData, year, names) != []
    requires teams == PlayerTeams.AggregateByTeam(PlayerRecords(battingData, salaryData, year, names),
      StatsOf(JoinYear(battingData, salaryData, year, names)).thresholds)
    ensures var records := PlayerRecords(battingData, salaryData, year, names);
      YearGraph(battingData, salaryData, year, names) == SankeyGraph(teams, records) &&
      YearSnapshot(battingData, salaryData, year, names) ==
        Snapshot(SankeyGraph(teams, records), StatsOf(JoinYear(battingData, salaryData, year, names)))
  {
  }

  /**
   * The consistency of a graph: node ids are list positions with matching
   * details and no others, link details are filed under exactly the link
   * ids and agree with their link, and every link joins two existing nodes.
   */
  ghost predicate GraphValid(g: Graph)
  {
    (forall k :: 0 <= k < |g.nodes| ==> g.nodes[k].id == k && k in g.nodeDetails && DetailOf(g.nodeDetails[k], g.nodes[k])) &&
    (forall id :: id in g.nodeDetails ==> id < |g.nodes|) &&
    (forall id: nat :: id in g.linkDetails <==> id < |g.links|) &&
    (forall k :: 0 <= k < |g.links| ==>
      g.links[k].source < |g.nodes| && g.links[k].target < |g.nodes| &&
      g.linkDetails[k].linkId == k && g.linkDetails[k].value == g.links[k].value &&
      g.linkDetails[k].sourceIndex == g.links[k].source && g.linkDetails[k].targetIndex == g.links[k].target &&
      g.nodes[g.links[k].source].name == g.linkDetails[k].source &&
      g.nodes[g.links[k].target].name == g.linkDetails[k].target)
  }

  lemma SankeyGraphValid(teams: seq<TeamAggregate>, records: seq<PlayerRecord>)
    ensures GraphValid(SankeyGraph(teams, records))
  {
    var v := BuildNodes(teams, records);
    var f := TeamFlows(teams);
    BuildNodesValid(teams, records);
    FlowsIndexed(teams, records);
    BuildLinksAll(f.keys, f, v.index, teams, records);
  }

  /** Every graph a season yields is consistent. */
  lemma YearGraphValid(battingData: seq<BattingRow>, salaryData: seq<SalaryRow>, year: int, names: map<string, string>)
    ensures GraphValid(YearGraph(battingData, salaryData, year, names))
  {
    var records := PlayerRecords(battingData, salaryData, year, names);
    if records != [] {
      var stats := StatsOf(JoinYear(battingData, salaryData, year, names));
      SankeyGraphValid(PlayerTeams.AggregateByTeam(records, stats.thresholds), records);
    }
  }

  /** The years listed from the batting table are exactly the years of its rows. */
  lemma BattingYearsMembers(battingData: seq<BattingRow>)
    ensures forall y :: y in MapSeq(battingData, BattingYear) <==> exists i :: 0 <= i < |battingData| && battingData[i].year == y
  {
    var a := MapSeq(battingData, BattingYear);
    forall y | y in a ensures exists i :: 0 <= i < |battingData| && battingData[i].year == y {
      var i :| 0 <= i < |a| && a[i] == y;
      assert battingData[i].year == y;
    }
  }

  /** The years listed from the salary table are exactly the years of its rows. */
  lemma SalaryYearsMembers(salaryData: seq<SalaryRow>)
    ensures forall y :: y in MapSeq(salaryData, SalaryYear) <==> exists j :: 0 <= j < |salaryData| && salaryData[j].year == y
  {
    var b := MapSeq(salaryData, SalaryYear);
    forall y | y in b ensures exists j :: 0 <= j < |salaryData| && salaryData[j].year == y {
      var j :| 0 <= j < |b| && b[j] == y;
      assert salaryData[j].year == y;
    }
  }

  /** `getAvailableYears`: the years with both batting and salary rows, newest first. */
  function AvailableYears(battingData: seq<BattingRow>, salaryData: seq<SalaryRow>): (r: seq<int>)
    ensures forall y :: y in r <==>
      (exists i :: 0 <= i < |battingData| && battingData[i].year == y) &&
      (exists j :: 0 <= j < |salaryData| && salaryData[j].year == y)
    ensures forall i, j :: 0 <= i < j < |r| ==> r[i] > r[j]
  {
    var a := MapSeq(battingData, BattingYear);
    var b := MapSeq(salaryData, SalaryYear);
    var r := CommonYears(a, b);
    BattingYearsMembers(battingData);
    SalaryYearsMembers(salaryData);
    r
  }

  /** Every id of the first pass has an entry, and every entry at least one player. */
  lemma GroupsNonEmpty(records: seq<PlayerRecord>)
    ensures var a := Aggregate(records);
      forall id :: id in a.ids ==> id in a.teams && a.teams[id].players != []
  {
    AggregateSpec(records);
  }

  class DataProcessor {
    var nodes: seq<Node>
    var links: seq<Link>
    var nodeDetails: map<nat, NodeDetail>
    var linkDetails: map<nat, LinkDetail>
    var currentYear: int
    var performanceStats: map<int, YearStats>
    var teamLookup: map<string, string>

    /** The fields as one graph value. */
    function Current(): Graph
      reads this
    {
      Graph(nodes, links, nodeDetails, linkDetails)
    }

    ghost predicate Valid()
      reads this
    {
      GraphValid(Current())
    }

    constructor ()
      ensures Current() == EmptyGraph && Valid()
      ensures currentYear == 2004 && performanceStats == map[] && teamLookup == map[]
    {
      nodes := [];
      links := [];
      nodeDetails := map[];
      linkDetails := map[];
      currentYear := 2004;
      performanceStats := map[];
      teamLookup := map[];
    }

    /** `initializeTeamLookup`: one entry per team row, a later row overwriting an earlier one. */
    method InitializeTeamLookup(teamData: seq<TeamRow>)
      modifies this
      ensures teamLookup == TeamLookupOf(teamData)
      ensures nodes == old(nodes) && links == old(links) && nodeDetails == old(nodeDetails) && linkDetails == old(linkDetails)
      ensures currentYear == old(currentYear)
      ensures performanceStats == old(performanceStats)
    {
      teamLookup := BuildLookup(teamData);
    }

    /** The `forEach` of `initializeTeamLookup`, over a fresh dictionary. */
    static method BuildLookup(teamData: seq<TeamRow>) returns (lookup: map<string, string>)
      ensures lookup == TeamLookupOf(teamData)
    {
      lookup := map[];
      for i := 0 to |teamData|
        invariant lookup == Lookup(teamData[..i], TeamRowId, DisplayName)
      {
        LookupStep(teamData[..i], teamData[i], TeamRowId, DisplayName);
        TakeStep(teamData, i);
        lookup := lookup[teamData[i].teamId := DisplayName(teamData[i])];
      }
      assert teamData[..|teamData|] == teamData;
    }

    /** `getTeamName`. */
    function GetTeamName(teamId: string): (name: string)
      reads this
      ensures name == TeamName(teamLookup, teamId)
    {
      TeamName(teamLookup, teamId)
    }

    /** The `reduce((a, b) => a + b, 0)` over an array of scores. */
    static method SumScores(a: array<real>) returns (sum: real)
      ensures sum == SumReal(a[..], RealValue)
    {
      sum := 0.0;
      for i := 0 to a.Length
        invariant sum == SumReal(a[..i], RealValue)
      {
        SumRealStep(a[..i], a[i], RealValue);
        TakeStep(a[..], i);
        sum := sum + a[i];
      }
      assert a[..a.Length] == a[..];
    }

    /**
     * `calculatePerformancePercentiles` on a copy of the scores: sorts the
     * copy in place and reads the thresholds off it.
     */
    static method CalculatePerformancePercentiles(scores: array<real>) returns (t: Option<Thresholds>)
      modifies scores
      ensures scores[..] == SortAsc(old(scores[..]))
      ensures t == PercentilesOf(old(scores[..]))
    {
      SortInPlace(scores);
      var n := scores.Length;
      if n == 0 {
        return None;
      }
      var sum := SumScores(scores);
      ghost var sorted := scores[..];
      assert scores[0] == sorted[0] && scores[n - 1] == sorted[n - 1];
      assert scores[MediumIndex(n)] == sorted[MediumIndex(n)] && scores[HighIndex(n)] == sorted[HighIndex(n)];
      t := Some(Thresholds(scores[0], scores[MediumIndex(n)], scores[HighIndex(n)], scores[n - 1], n, sum / (n as real)));
    }

    /** The `salaryLookup` loop of `processPlayerData`, over the season's salary rows. */
    static method BuildSalaryLookup(yearSalaries: seq<SalaryRow>) returns (lookup: map<string, real>)
      ensures lookup == Lookup(yearSalaries, SalaryPlayerId, SalaryAmount)
    {
      lookup := map[];
      for i := 0 to |yearSalaries|
        invariant lookup == Lookup(yearSalaries[..i], SalaryPlayerId, SalaryAmount)
      {
        LookupStep(yearSalaries[..i], yearSalaries[i], SalaryPlayerId, SalaryAmount);
        TakeStep(yearSalaries, i);
        lookup := lookup[yearSalaries[i].playerId := yearSalaries[i].salary];
      }
      assert yearSalaries[..|yearSalaries|] == yearSalaries;
    }

    /** The join loop of `processPlayerData`: the records and, in step, the scores. */
    static method JoinPlayers(yearBatting: seq<BattingRow>, salaries: map<string, real>, year: int, names: map<string, string>)
      returns (joined: seq<JoinedRecord>, scores: seq<real>)
      ensures joined == JoinRows(yearBatting, salaries, year, names)
      ensures scores == Scores(joined)
    {
      joined := [];
      scores := [];
      for i := 0 to |yearBatting|
        invariant joined == JoinRows(yearBatting[..i], salaries, year, names)
        invariant scores == Scores(joined)
      {
        var row := yearBatting[i];
        TakeStep(yearBatting, i);
        if row.playerId in salaries {
          var salary := salaries[row.playerId];
          scores := scores + [PerformanceScore(row.h, row.doubles)];
          var joined' := joined + [JoinRow(row, salary, year, names)];
          assert joined'[..|joined|] == joined;
          joined := joined';
        }
      }
      assert yearBatting[..|yearBatting|] == yearBatting;
    }

    /** The classification loop of `processPlayerData`. */
    static method ClassifyPlayers(joined: seq<JoinedRecord>, thresholds: Option<Thresholds>)
      returns (records: seq<PlayerRecord>)
      ensures records == ClassifyAll(joined, thresholds)
    {
      records := [];
      for k := 0 to |joined|
        invariant records == ClassifyAll(joined[..k], thresholds)
      {
        TakeStep(joined, k);
        records := records + [Classify(joined[k], thresholds)];
      }
      assert joined[..|joined|] == joined;
    }

    /**
     * The body of `processPlayerData` on values: the season's salary
     * lookup, the join with its scores, the percentiles of a sorted copy
     * of the scores, and the classified records.
     */
    static method JoinAndClassify(battingData: seq<BattingRow>, salaryData: seq<SalaryRow>, year: int, names: map<string, string>)
      returns (records: seq<PlayerRecord>, stats: YearStats)
      ensures records == PlayerRecords(battingData, salaryData, year, names)
      ensures stats == StatsOf(JoinYear(battingData, salaryData, year, names))
    {
      var yearBatting := Filter(battingData, BattingInYear(year));
      var yearSalaries := Filter(salaryData, SalaryInYear(year));
      var salaryLookup := BuildSalaryLookup(yearSalaries);
      assert salaryLookup == SalaryLookup(salaryData, year);
      var joined, scores := JoinPlayers(yearBatting, salaryLookup, year, names);
      assert joined == JoinYear(battingData, salaryData, year, names);
      var copy := new real[|scores|](k requires 0 <= k < |scores| => scores[k]);
      assert copy[..] == scores;
      var thresholds := CalculatePerformancePercentiles(copy);
      stats := YearStats(thresholds, |joined|, scores);
      records := ClassifyPlayers(joined, thresholds);
    }

    /**
     * `processPlayerData`: the classified records of the season, with the
     * season's statistics stored under `year`.
     */
    method ProcessPlayerData(battingData: seq<BattingRow>, salaryData: seq<SalaryRow>, year: int)
      returns (records: seq<PlayerRecord>)
      modifies this
      ensures records == PlayerRecords(battingData, salaryData, year, teamLookup)
      ensures performanceStats == old(performanceStats)[year := StatsOf(JoinYear(battingData, salaryData, year, teamLookup))]
      ensures nodes == old(nodes) && links == old(links) && nodeDetails == old(nodeDetails) && linkDetails == old(linkDetails)
      ensures currentYear == old(currentYear) && teamLookup == old(teamLookup)
    {
      var stats;
      records, stats := JoinAndClassify(battingData, salaryData, year, teamLookup);
      performanceStats := performanceStats[year := stats];
    }

    /** The thresholds `aggregateByTeam` reads: those stored for the current year. */
    function CurrentThresholds(): Option<Thresholds>
      reads this
      requires currentYear in performanceStats
    {
      performanceStats[currentYear].thresholds
    }

    /** The first pass of `aggregateByTeam`: the teams keyed by id, in order of first appearance. */
    static method GroupByTeam(records: seq<PlayerRecord>) returns (agg: Aggregation)
      ensures agg == Aggregate(records)
    {
      agg := Aggregation([], map[]);
      for i := 0 to |records|
        invariant agg == Aggregate(records[..i])
      {
        var p := records[i];
        TakeStep(records, i);
        var t := if p.teamId in agg.teams then agg.teams[p.teamId] else NewTeam(p);
        agg := Aggregation(if p.teamId in agg.teams then agg.ids else agg.ids + [p.teamId],
          agg.teams[p.teamId := AddPlayer(t, p)]);
      }
      assert records[..|records|] == records;
    }

    /**
     * `aggregateByTeam`: groups the records by team id, then finishes every
     * team against the current year's thresholds.
     */
    method AggregateByTeam(records: seq<PlayerRecord>) returns (teams: seq<TeamAggregate>)
      requires currentYear in performanceStats
      ensures teams == PlayerTeams.AggregateByTeam(records, CurrentThresholds())
    {
      var agg := GroupByTeam(records);
      GroupsNonEmpty(records);
      var thresholds := CurrentThresholds();
      teams := [];
      for k := 0 to |agg.ids|
        invariant |teams| == k
        invariant forall j :: 0 <= j < k ==> teams[j] == Finish(agg.teams[agg.ids[j]], thresholds)
      {
        teams := teams + [Finish(agg.teams[agg.ids[k]], thresholds)];
      }
    }

    /** One more team: its two flows bumped, its three names used. */
    static lemma FlowsStep(teams: seq<TeamAggregate>, i: nat)
      requires i < |teams|
      ensures var t := teams[i];
        TeamFlows(teams[..i + 1]) == Bump(Bump(TeamFlows(teams[..i]), TeamToSalary(t)), SalaryToPerformance(t)) &&
        UsedNames(teams[..i + 1]) ==
          UsedNames(teams[..i]) + {t.teamName, SalaryName(t.teamSalaryCategory), PerformanceName(t.teamPerformanceCategory)}
    {
      TakeStep(teams, i);
    }

    /** The `flows` dictionary and the `usedNodes` set of `processDataForYear`. */
    static method CollectFlows(teams: seq<TeamAggregate>) returns (flows: FlowCounts, used: set<string>)
      ensures flows == TeamFlows(teams) && used == UsedNames(teams)
    {
      flows := NoFlows;
      used := {};
      for i := 0 to |teams|
        invariant flows == TeamFlows(teams[..i]) && used == UsedNames(teams[..i])
      {
        var team := teams[i];
        FlowsStep(teams, i);
        used := used + {team.teamName, SalaryName(team.teamSalaryCategory), PerformanceName(team.teamPerformanceCategory)};
        flows := Bump(Bump(flows, TeamToSalary(team)), SalaryToPerformance(team));
      }
      assert teams[..|teams|] == teams;
    }

    /** The team nodes, pushed onto the empty node list. */
    method AddTeamNodes(teams: seq<TeamAggregate>, used: set<string>) returns (index: map<string, nat>)
      modifies this
      requires nodes == [] && nodeDetails == map[]
      ensures NodeTable(nodes, nodeDetails, index) == TeamNodes(teams, used)
      ensures links == old(links) && linkDetails == old(linkDetails)
      ensures currentYear == old(currentYear) && performanceStats == old(performanceStats) && teamLookup == old(teamLookup)
    {
      index := map[];
      for i := 0 to |teams|
        invariant NodeTable(nodes, nodeDetails, index) == TeamNodes(teams[..i], used)
        invariant links == old(links) && linkDetails == old(linkDetails)
        invariant currentYear == old(currentYear) && performanceStats == old(performanceStats) && teamLookup == old(teamLookup)
      {
        var team := teams[i];
        TakeStep(teams, i);
        if team.teamName in used {
          var id := |nodes|;
          nodes := nodes + [Node(id, team.teamName, TeamKind, |team.players|)];
          nodeDetails := nodeDetails[id := NodeDetail(id, team.teamName, TeamKind,
            Some(TeamInfo(team.teamId, team.avgSalary, team.avgPerformanceScore)), |team.players|, team.players)];
          index := index[team.teamName := id];
        }
      }
      assert teams[..|teams|] == teams;
    }

    /** The salary-range or performance-level nodes, pushed after those already there. */
    method AddCategoryNodes(names: seq<string>, kind: NodeKind, used: set<string>, records: seq<PlayerRecord>,
                            nameOf: PlayerRecord -> string, index0: map<string, nat>)
      returns (index: map<string, nat>)
      modifies this
      ensures NodeTable(nodes, nodeDetails, index) ==
        CategoryNodes(NodeTable(old(nodes), old(nodeDetails), index0), names, kind, used, records, nameOf)
      ensures links == old(links) && linkDetails == old(linkDetails)
      ensures currentYear == old(currentYear) && performanceStats == old(performanceStats) && teamLookup == old(teamLookup)
    {
      index := index0;
      for i := 0 to |names|
        invariant NodeTable(nodes, nodeDetails, index) ==
          CategoryNodes(NodeTable(old(nodes), old(nodeDetails), index0), names[..i], kind, used, records, nameOf)
        invariant links == old(links) && linkDetails == old(linkDetails)
        invariant currentYear == old(currentYear) && performanceStats == old(performanceStats) && teamLookup == old(teamLookup)
      {
        var name := names[i];
        TakeStep(names, i);
        if name in used {
          var players := Filter(records, LabelIs(nameOf, name));
          var id := |nodes|;
          nodes := nodes + [Node(id, name, kind, |players|)];
          nodeDetails := nodeDetails[id := NodeDetail(id, name, kind, None, |players|, players)];
          index := index[name := id];
        }
      }
      assert names[..|names|] == names;
    }

    /** The links, one per flow whose two ends have a node, pushed onto the empty link list. */
    method AddLinks(flows: FlowCounts, index: map<string, nat>, teams: seq<TeamAggregate>, records: seq<PlayerRecord>)
      modifies this
      requires links == [] && linkDetails == map[]
      ensures LinkTable(links, linkDetails) == BuildLinks(flows.keys, flows, index, teams, records)
      ensures nodes == old(nodes) && nodeDetails == old(nodeDetails)
      ensures currentYear == old(currentYear) && performanceStats == old(performanceStats) && teamLookup == old(teamLookup)
    {
      var keys := flows.keys;
      for i := 0 to |keys|
        invariant LinkTable(links, linkDetails) == BuildLinks(keys[..i], flows, index, teams, records)
        invariant nodes == old(nodes) && nodeDetails == old(nodeDetails)
        invariant currentYear == old(currentYear) && performanceStats == old(performanceStats) && teamLookup == old(teamLookup)
      {
        var key := keys[i];
        BuildLinksStep(keys, i, flows, index, teams, records);
        if key.0 in index && key.1 in index {
          var linkId := |links|;
          var value := CountOf(flows, key);
          links := links + [Link(index[key.0], index[key.1], value)];
          var players := LinkPlayers(key.0, key.1, teams, records);
          linkDetails := linkDetails[linkId := LinkDetail(linkId, key.0, key.1, index[key.0], index[key.1],
            value, |players|, players)];
        }
      }
      assert keys[..|keys|] == keys;
    }

    /**
     * The graph half of `processDataForYear`: collects the flows and used
     * names of the teams, then pushes the team, salary-range and
     * performance-level nodes and the links onto the emptied fields.
     */
    method RebuildGraph(teams: seq<TeamAggregate>, records: seq<PlayerRecord>)
      modifies this
      requires nodes == [] && links == [] && nodeDetails == map[] && linkDetails == map[]
      ensures Current() == SankeyGraph(teams, records)
      ensures currentYear == old(currentYear) && performanceStats == old(performanceStats) && teamLookup == old(teamLookup)
    {
      var flows, used := CollectFlows(teams);
      var index := AddTeamNodes(teams, used);
      index := AddCategoryNodes(SalaryRanges, SalaryKind, used, records, SalaryLabel, index);
      assert NodeTable(nodes, nodeDetails, index) == SalaryStage(teams, records);
      index := AddCategoryNodes(PerformanceLevels, PerformanceKind, used, records, PerformanceLabel, index);
      assert NodeTable(nodes, nodeDetails, index) == BuildNodes(teams, records);
      AddLinks(flows, index, teams, records);
    }

    /** The four graph fields emptied, as `processDataForYear` starts. */
    method ClearGraph()
      modifies this
      ensures Current() == EmptyGraph
      ensures currentYear == old(currentYear) && performanceStats == old(performanceStats) && teamLookup == old(teamLookup)
    {
      nodes := [];
      links := [];
      nodeDetails := map[];
      linkDetails := map[];
    }

    /**
     * `processDataForYear` after the team names are loaded: empties the
     * graph fields, makes `year` current, and rebuilds the graph of that
     * season from the current team names.
     */
    method LoadYear(battingData: seq<BattingRow>, salaryData: seq<SalaryRow>, year: int)
      returns (snapshot: Snapshot)
      modifies this
      ensures teamLookup == old(teamLookup) && currentYear == year
      ensures performanceStats == old(performanceStats)[year := StatsOf(JoinYear(battingData, salaryData, year, teamLookup))]
      ensures Current() == YearGraph(battingData, salaryData, year, teamLookup)
      ensures snapshot == YearSnapshot(battingData, salaryData, year, teamLookup)
    {
      ClearGraph();
      var records := ProcessPlayerData(battingData, salaryData, year);
      // The source sets the year first; nothing in between reads it.
      currentYear := year;
      snapshot := BuildYear(battingData, salaryData, year, records);
    }

    /** The rest of `processDataForYear` once the records are joined: nothing, or the graph of their teams. */
    method BuildYear(battingData: seq<BattingRow>, salaryData: seq<SalaryRow>, year: int, records: seq<PlayerRecord>)
      returns (snapshot: Snapshot)
      modifies this
      requires records == PlayerRecords(battingData, salaryData, year, teamLookup)
      requires Current() == EmptyGraph && currentYear == year
      requires year in performanceStats && performanceStats[year] == StatsOf(JoinYear(battingData, salaryData, year, teamLookup))
      ensures teamLookup == old(teamLookup) && currentYear == old(currentYear) && performanceStats == old(performanceStats)
      ensures Current() == YearGraph(battingData, salaryData, year, teamLookup)
      ensures snapshot == YearSnapshot(battingData, salaryData, year, teamLookup)
    {
      if records == [] {
        YearWithoutRecords(battingData, salaryData, year, teamLookup);
        snapshot := NoRecords;
      } else {
        var teams := AggregateByTeam(records);
        RebuildGraph(teams, records);
        YearWithRecords(battingData, salaryData, year, teamLookup, teams);
        snapshot := Snapshot(Current(), performanceStats[year]);
      }
    }

    /**
     * `processDataForYear`: reloads the team names when team rows are
     * given, makes `year` current, and rebuilds the graph of that season;
     * the fields are left empty when the season has no joined player.
     */
    method ProcessDataForYear(battingData: seq<BattingRow>, salaryData: seq<SalaryRow>, teamData: seq<TeamRow>, year: int)
      returns (snapshot: Snapshot)
      modifies this
      ensures teamLookup == if teamData != [] then TeamLookupOf(teamData) else old(teamLookup)
      ensures currentYear == year
      ensures performanceStats == old(performanceStats)[year := StatsOf(JoinYear(battingData, salaryData, year, teamLookup))]
      ensures Current() == YearGraph(battingData, salaryData, year, teamLookup)
      ensures snapshot == YearSnapshot(battingData, salaryData, year, teamLookup)
      ensures Valid()
    {
      if teamData != [] {
        InitializeTeamLookup(teamData);
      }
      snapshot := LoadYear(battingData, salaryData, year);
      YearGraphValid(battingData, salaryData, year, teamLookup);
    }

    /** `updateYear`: `processDataForYear` with the year given first. */
    method UpdateYear(year: int, battingData: seq<BattingRow>, salaryData: seq<SalaryRow>, teamData: seq<TeamRow>)
      returns (snapshot: Snapshot)
      modifies this
      ensures teamLookup == if teamData != [] then TeamLookupOf(teamData) else old(teamLookup)
      ensures currentYear == year
      ensures performanceStats == old(performanceStats)[year := StatsOf(JoinYear(battingData, salaryData, year, teamLookup))]
      ensures Current() == YearGraph(battingData, salaryData, year, teamLookup)
      ensures snapshot == YearSnapshot(battingData, salaryData, year, teamLookup)
      ensures Valid()
    {
      snapshot := ProcessDataForYear(battingData, salaryData, teamData, year);
    }

    /** `getNodeDetails`: the details of an existing node, `None` (the source's `null`) otherwise. */
    function GetNodeDetails(nodeId: nat): (r: Option<NodeDetail>)
      reads this
      ensures Valid() ==> (r.Some? <==> nodeId < |nodes|)
      ensures Valid() && r.Some? ==> DetailOf(r.value, nodes[nodeId])
    {
      if nodeId in nodeDetails then Some(nodeDetails[nodeId]) else None
    }

    /** `getLinkDetails`: the details of an existing link, `None` otherwise. */
    function GetLinkDetails(linkId: nat): (r: Option<LinkDetail>)
      reads this
      ensures Valid() ==> (r.Some? <==> linkId < |links|)
      ensures Valid() && r.Some? ==>
        r.value.linkId == linkId && r.value.value == links[linkId].value &&
        nodes[links[linkId].source].name == r.value.source && nodes[links[linkId].target].name == r.value.target
    {
      if linkId in linkDetails then Some(linkDetails[linkId]) else None
    }

    /** `getPerformanceStats`: the statistics stored for `year`, `None` otherwise. */
    function GetPerformanceStats(year: int): (r: Option<YearStats>)
      reads this
      ensures r.Some? <==> year in performanceStats
      ensures r.Some? ==> r.value == performanceStats[year]
    {
      if year in performanceStats then Some(performanceStats[year]) else None
    }
  }
}
