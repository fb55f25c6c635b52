/**
 * The `DataProcessor` class of the team-level engine (`dataProcessor.js`):
 * an object whose `processDataForYear` rebuilds its node and link lists
 * for one season. Each loop of the source is a method proved equal to the
 * value-level definition in `TeamEngine`, whose properties are proved
 * there.
 */
module TeamProcessor {
  import opened Wrappers
  import opened Seqs
  import opened Records
  import opened Categories
  import opened Years
  import opened Flows
  import opened TeamEngine
  import PlayerJoin
  import G = PlayerGraph
  import L = PlayerLinks

  /** The years listed from the team table are exactly the years of its rows. */
  lemma TeamYearsMembers(teamData: seq<TeamRow>)
    ensures forall y :: y in MapSeq(teamData, TeamYear) <==> exists i :: 0 <= i < |teamData| && teamData[i].year == y
  {
    var a := MapSeq(teamData, TeamYear);
    forall y | y in a ensures exists i :: 0 <= i < |teamData| && teamData[i].year == y {
      var i :| 0 <= i < |a| && a[i] == y;
      assert teamData[i].year == y;
    }
  }

  /** The years listed from the salary table are exactly the years of its rows. */
  lemma SalaryYearsMembers(salaryData: seq<SalaryRow>)
    ensures forall y :: y in MapSeq(salaryData, SalaryYear) <==> exists j :: 0 <= j < |salaryData| && salaryData[j].year == y
  {
    var b := MapSeq(salaryData, SalaryYear);
    forall y | y in b ensures exists j :: 0 <= j < |salaryData| && salaryData[j].year == y {
      var j :| 0 <= j < |b| && b[j] == y;
      assert salaryData[j].year == y;
    }
  }

  /** `getAvailableYears`: the years of both tables, newest first. */
  function AvailableYears(teamData: seq<TeamRow>, salaryData: seq<SalaryRow>): (r: seq<int>)
    ensures forall y :: y in r <==>
      (exists i :: 0 <= i < |teamData| && teamData[i].year == y) &&
      (exists j :: 0 <= j < |salaryData| && salaryData[j].year == y)
    ensures forall i, j :: 0 <= i < j < |r| ==> r[i] > r[j]
  {
    var a := MapSeq(teamData, TeamYear);
    var b := MapSeq(salaryData, SalaryYear);
    var r := CommonYears(a, b);
    TeamYearsMembers(teamData);
    SalaryYearsMembers(salaryData);
    r
  }

  /** What the `forEach` has built after the entries of `prefix`. */
  ghost predicate Collected(prefix: seq<TeamEntry>, flows: FlowCounts, names: seq<string>, ids: map<string, string>)
  {
    flows == EntryFlows(prefix) &&
    names == Distinct(MapSeq(prefix, EntryName)) &&
    ids == Lookup(prefix, EntryName, EntryTeamId)
  }

  /** One more team row: two bumps, its name appended when new, its id recorded. */
  lemma CollectStep(prefix: seq<TeamEntry>, e: TeamEntry, flows: FlowCounts, names: seq<string>, ids: map<string, string>)
    requires Collected(prefix, flows, names, ids)
    ensures Collected(prefix + [e], Bump(Bump(flows, TeamToSalary(e)), SalaryToPerformance(e)),
      if e.name in names then names else names + [e.name], ids[e.name := e.teamId])
  {
    EntryFlowsStep(prefix, e);
    MapSeqStep(prefix, e, EntryName);
    DistinctStep(MapSeq(prefix, EntryName), e.name);
    LookupStep(prefix, e, EntryName, EntryTeamId);
  }

  /** The names a node loop pushes: those that are used, in list order. */
  function UsedOnly(names: seq<string>, used: set<string>): seq<string>
    decreases |names|
  {
    if names == [] then []
    else
      var name := names[|names| - 1];
      UsedOnly(names[..|names| - 1], used) + (if name in used then [name] else [])
  }

  /** They are the used names of the list, filtered. */
  lemma {:induction false} UsedOnlyIsFilter(names: seq<string>, used: set<string>)
    ensures UsedOnly(names, used) == Filter(names, G.InSet(used))
    decreases |names|
  {
    if names != [] {
      var init := names[..|names| - 1];
      assert names == init + [names[|names| - 1]];
      UsedOnlyIsFilter(init, used);
      FilterStep(init, names[|names| - 1], G.InSet(used));
    }
  }

  /** One step of the name filter behind the node loops. */
  lemma UsedOnlyStep(names: seq<string>, i: nat, used: set<string>)
    requires i < |names|
    ensures names[i] in used ==> UsedOnly(names[..i + 1], used) == UsedOnly(names[..i], used) + [names[i]]
    ensures names[i] !in used ==> UsedOnly(names[..i + 1], used) == UsedOnly(names[..i], used)
  {
    var pre := names[..i + 1];
    assert pre[..|pre| - 1] == names[..i];
    assert pre[|pre| - 1] == names[i];
    assert UsedOnly(names[..i], used) + [] == UsedOnly(names[..i], used);
  }

  /** One step of the team-node loop. */
  lemma TeamNodeStep(names: seq<string>, i: nat, ids: map<string, string>, used: set<string>)
    requires i < |names|
    requires HaveIds(names, ids)
    requires names[i] in used
    ensures HaveIds(UsedOnly(names[..i], used), ids)
    ensures HaveIds(UsedOnly(names[..i + 1], used), ids)
    ensures names[i] in ids
    ensures TeamRun(UsedOnly(names[..i + 1], used), ids) ==
      TeamRun(UsedOnly(names[..i], used), ids) +
      [Node(|UsedOnly(names[..i], used)|, names[i], G.TeamKind, Some(ids[names[i]]))]
  {
    var before := UsedOnly(names[..i], used);
    UsedOnlyStep(names, i, used);
    UsedOnlyHaveIds(names[..i], ids, used);
    UsedOnlyHaveIds(names[..i + 1], ids, used);
    TeamRunStep(before, ids, names[i]);
  }

  lemma UsedOnlyHaveIds(names: seq<string>, ids: map<string, string>, used: set<string>)
    requires HaveIds(names, ids)
    ensures HaveIds(UsedOnly(names, used), ids)
  {
    UsedOnlyIsFilter(names, used);
    FilteredNamesHaveIds(names, ids, G.InSet(used));
  }

  /** One step of a category-node loop. */
  lemma CategoryNodeStep(start: nat, names: seq<string>, i: nat, kind: G.NodeKind, used: set<string>)
    requires i < |names|
    requires names[i] in used
    ensures CategoryRun(start, UsedOnly(names[..i + 1], used), kind) ==
      CategoryRun(start, UsedOnly(names[..i], used), kind) +
      [Node(start + |UsedOnly(names[..i], used)|, names[i], kind, None)]
  {
    UsedOnlyStep(names, i, used);
    CategoryRunStep(start, UsedOnly(names[..i], used), kind, names[i]);
  }

  /** One step of a category-node loop, on the nodes pushed after `ns0`. */
  lemma PushCategoryStep(ns0: seq<Node>, names: seq<string>, i: nat, kind: G.NodeKind, used: set<string>)
    requires i < |names|
    ensures var ns := ns0 + CategoryRun(|ns0|, UsedOnly(names[..i], used), kind);
      ns0 + CategoryRun(|ns0|, UsedOnly(names[..i + 1], used), kind) ==
        if names[i] in used then ns + [Node(|ns|, names[i], kind, None)] else ns
  {
    var run := CategoryRun(|ns0|, UsedOnly(names[..i], used), kind);
    if names[i] in used {
      CategoryNodeStep(|ns0|, names, i, kind, used);
      var n := Node(|ns0| + |run|, names[i], kind, None);
      assert ns0 + (run + [n]) == (ns0 + run) + [n];
    } else {
      UsedOnlyStep(names, i, used);
    }
  }

  lemma NodeIndexStep(nodes: seq<Node>, n: Node)
    ensures NodeIndex(nodes + [n]) == NodeIndex(nodes)[n.name := n.id]
  {
    LookupStep(nodes, n, NodeName, NodeId);
  }

  /** The three node loops, run on the season's names, build its node list. */
  lemma NodesOfSeason(es: seq<TeamEntry>, names: seq<string>, ids: map<string, string>, used: set<string>, nodes: seq<Node>)
    requires names == TeamNames(es) && ids == TeamIdsByName(es) && used == UsedNodes(es)
    requires HaveIds(UsedOnly(names, used), ids)
    requires nodes == Layout(UsedOnly(names, used), ids,
      UsedOnly(G.SalaryRanges, used), UsedOnly(G.PerformanceLevels, used))
    ensures nodes == NodeList(es)
  {
    UsedOnlyIsFilter(names, used);
    UsedOnlyIsFilter(G.SalaryRanges, used);
    UsedOnlyIsFilter(G.PerformanceLevels, used);
  }

  /** What `getCurrentData` returns. */
  datatype CurrentData = CurrentData(nodes: seq<Node>, links: seq<L.Link>, year: int)

  class DataProcessor {
    var nodes: seq<Node>
    var links: seq<L.Link>
    var currentYear: int

    /** The node and link fields as one graph value. */
    function Current(): TeamGraph
      reads this
    {
      TeamGraph(nodes, links)
    }

    constructor ()
      ensures nodes == [] && links == [] && currentYear == 2015
    {
      nodes := [];
      links := [];
      currentYear := 2015;
    }

    /**
     * `processTeamSalaries`: groups the season's salary rows by team, in
     * order of first appearance, then averages each group.
     */
    static method ProcessTeamSalaries(salaryData: seq<SalaryRow>, year: int) returns (avg: map<string, real>)
      ensures avg == TeamAvgSalaries(salaryData, year)
    {
      var yearSalaries := Filter(salaryData, SalaryInYear(year));
      var ids: seq<string> := [];
      var lists: map<string, seq<real>> := map[];
      for i := 0 to |yearSalaries|
        invariant SalaryGroups(ids, lists) == GroupSalaries(yearSalaries[..i])
      {
        var row := yearSalaries[i];
        TakeStep(yearSalaries, i);
        GroupSalariesStep(yearSalaries[..i], row);
        if row.teamId !in lists {
          ids := ids + [row.teamId];
          lists := lists[row.teamId := []];
        }
        lists := lists[row.teamId := lists[row.teamId] + [row.salary]];
      }
      assert yearSalaries[..|yearSalaries|] == yearSalaries;
      assert yearSalaries == YearSalaries(salaryData, year);
      GroupSalariesSpec(yearSalaries);
      avg := AverageGroups(ids, lists);
      AveragesOfGroups(salaryData, year, avg);
    }

    /** The second loop of `processTeamSalaries`: one mean per grouped team. */
    static method AverageGroups(ids: seq<string>, lists: map<string, seq<real>>)
      returns (avg: map<string, real>)
      requires forall id :: id in lists <==> id in ids
      requires forall id :: id in lists ==> lists[id] != []
      ensures forall id :: id in avg <==> id in lists
      ensures forall id :: id in avg ==> avg[id] == Mean(lists[id])
    {
      avg := map[];
      for j := 0 to |ids|
        invariant forall id :: id in avg <==> id in ids[..j]
        invariant forall id :: id in avg ==> id in lists && avg[id] == Mean(lists[id])
      {
        var id := ids[j];
        TakeStep(ids, j);
        var salaries := lists[id];
        var total := SumSalaries(salaries);
        avg := avg[id := total / (|salaries| as real)];
      }
      assert ids[..|ids|] == ids;
    }

    /** The `reduce((sum, sal) => sum + sal, 0)` over one team's salaries. */
    static method SumSalaries(salaries: seq<real>) returns (total: real)
      ensures total == SumReal(salaries, PlayerJoin.RealValue)
    {
      total := 0.0;
      for k := 0 to |salaries|
        invariant total == SumReal(salaries[..k], PlayerJoin.RealValue)
      {
        SumRealStep(salaries[..k], salaries[k], PlayerJoin.RealValue);
        TakeStep(salaries, k);
        total := total + salaries[k];
      }
      assert salaries[..|salaries|] == salaries;
    }

    /**
     * The `yearTeamData.forEach` of `processDataForYear`: the `teams` Map
     * (its keys in insertion order and its values) and the `flows`
     * dictionary, one Team -> Salary and one Salary -> Performance bump per row.
     */
    static method CollectTeamFlows(yearTeamData: seq<TeamRow>, teamSalaries: map<string, real>)
      returns (flows: FlowCounts, names: seq<string>, ids: map<string, string>)
      ensures var es := Entries(yearTeamData, teamSalaries);
        flows == EntryFlows(es) && names == TeamNames(es) && ids == TeamIdsByName(es)
    {
      ghost var es := Entries(yearTeamData, teamSalaries);
      flows := NoFlows;
      names := [];
      ids := map[];
      for i := 0 to |yearTeamData|
        invariant Collected(es[..i], flows, names, ids)
      {
        var team := yearTeamData[i];
        var teamName := PlayerJoin.DisplayName(team);
        var winPercentage := WinPercentage(team.w, team.l);
        var avgSalary := AvgSalaryOf(teamSalaries, team.teamId);
        var salaryCategory := CategorizeSalary(avgSalary);
        var performanceCategory := CategorizeWinPercentage(winPercentage);
        var e := TeamEntry(teamName, team.teamId, salaryCategory, performanceCategory);
        assert e == es[i];
        TakeStep(es, i);
        CollectStep(es[..i], e, flows, names, ids);
        if teamName !in names {
          names := names + [teamName];
        }
        ids := ids[teamName := team.teamId];
        var teamToSalary := TeamToSalary(e);
        flows := Bump(flows, teamToSalary);
        var salaryToPerformance := SalaryToPerformance(e);
        flows := Bump(flows, salaryToPerformance);
      }
      assert es[..|yearTeamData|] == es;
    }

    /** `usedNodes`: both ends of every flow key. */
    static method UsedEndpoints(keys: seq<FlowKey>) returns (used: set<string>)
      ensures used == Endpoints(keys)
    {
      used := {};
      for i := 0 to |keys|
        invariant used == Endpoints(keys[..i])
      {
        TakeStep(keys, i);
        used := used + {keys[i].0, keys[i].1};
      }
      assert keys[..|keys|] == keys;
    }

    /** The used team nodes, in the Map's key order, pushed onto an empty node list. */
    static method PushTeamNodes(names: seq<string>, ids: map<string, string>, used: set<string>)
      returns (ns: seq<Node>, index: map<string, nat>)
      requires HaveIds(names, ids)
      ensures HaveIds(UsedOnly(names, used), ids)
      ensures ns == TeamRun(UsedOnly(names, used), ids)
      ensures index == NodeIndex(ns)
    {
      ns, index := [], map[];
      for i := 0 to |names|
        invariant HaveIds(UsedOnly(names[..i], used), ids)
        invariant ns == TeamRun(UsedOnly(names[..i], used), ids)
        invariant index == NodeIndex(ns)
      {
        var name := names[i];
        if name in used {
          TeamNodeStep(names, i, ids, used);
          var n := Node(|ns|, name, G.TeamKind, Some(ids[name]));
          NodeIndexStep(ns, n);
          ns := ns + [n];
          index := index[name := n.id];
        } else {
          UsedOnlyStep(names, i, used);
        }
      }
      assert names[..|names|] == names;
    }

    /** The used salary-range or performance-level nodes, pushed after those of `ns0`. */
    static method PushCategoryNodes(ns0: seq<Node>, names: seq<string>, kind: G.NodeKind, used: set<string>,
                                    index0: map<string, nat>)
      returns (ns: seq<Node>, index: map<string, nat>)
      requires index0 == NodeIndex(ns0)
      ensures ns == ns0 + CategoryRun(|ns0|, UsedOnly(names, used), kind)
      ensures index == NodeIndex(ns)
    {
      ns, index := ns0, index0;
      for i := 0 to |names|
        invariant ns == ns0 + CategoryRun(|ns0|, UsedOnly(names[..i], used), kind)
        invariant index == NodeIndex(ns)
      {
        var name := names[i];
        PushCategoryStep(ns0, names, i, kind, used);
        if name in used {
          var n := Node(|ns|, name, kind, None);
          NodeIndexStep(ns, n);
          ns := ns + [n];
          index := index[name := n.id];
        }
      }
      assert names[..|names|] == names;
    }

    /** The three node loops of `processDataForYear`, on the empty node list. */
    method AddNodes(names: seq<string>, ids: map<string, string>, used: set<string>) returns (index: map<string, nat>)
      modifies this
      requires nodes == []
      requires HaveIds(names, ids)
      ensures HaveIds(UsedOnly(names, used), ids)
      ensures nodes == Layout(UsedOnly(names, used), ids, UsedOnly(G.SalaryRanges, used), UsedOnly(G.PerformanceLevels, used))
      ensures index == NodeIndex(nodes)
      ensures links == old(links) && currentYear == old(currentYear)
    {
      ghost var t := UsedOnly(names, used);
      ghost var s := UsedOnly(G.SalaryRanges, used);
      ghost var p := UsedOnly(G.PerformanceLevels, used);
      var n0, n1, n2;
      n0, index := PushTeamNodes(names, ids, used);
      n1, index := PushCategoryNodes(n0, G.SalaryRanges, G.SalaryKind, used, index);
      assert |n1| == |t| + |s|;
      n2, index := PushCategoryNodes(n1, G.PerformanceLevels, G.PerformanceKind, used, index);
      nodes := n2;
    }

    /** The links, one per flow whose two ends have a node, pushed onto the empty link list. */
    method AddLinks(flows: FlowCounts, index: map<string, nat>)
      modifies this
      requires links == []
      ensures links == BuildLinks(flows.keys, flows, index)
      ensures nodes == old(nodes) && currentYear == old(currentYear)
    {
      var keys := flows.keys;
      for i := 0 to |keys|
        invariant links == BuildLinks(keys[..i], flows, index)
        invariant nodes == old(nodes) && currentYear == old(currentYear)
      {
        var key := keys[i];
        TakeStep(keys, i);
        if key.0 in index && key.1 in index {
          links := links + [L.Link(index[key.0], index[key.1], CountOf(flows, key))];
        }
      }
      assert keys[..|keys|] == keys;
    }

    /**
     * `processDataForYear`: makes `year` current and rebuilds the nodes
     * (used teams, then used salary ranges, then used performance levels)
     * and the links of that season, which it also returns.
     */
    method ProcessDataForYear(teamData: seq<TeamRow>, salaryData: seq<SalaryRow>, year: int)
      returns (g: TeamGraph)
      modifies this
      ensures currentYear == year
      ensures Current() == GraphOf(teamData, salaryData, year) && g == Current()
      ensures GraphValid(g)
    {
      nodes := [];
      links := [];

      var yearTeamData := Filter(teamData, TeamInYear(year));
      var teamSalaries := ProcessTeamSalaries(salaryData, year);
      ghost var es := SeasonEntries(teamData, salaryData, year);
      g := BuildGraph(yearTeamData, teamSalaries, es);
      // The source sets the year first; nothing in between reads it.
      currentYear := year;
    }

    /**
     * The rest of `processDataForYear`: the flows of the season's team
     * rows, the used nodes, and one link per flow, on empty node and link lists.
     */
    method BuildGraph(yearTeamData: seq<TeamRow>, teamSalaries: map<string, real>, ghost es: seq<TeamEntry>)
      returns (g: TeamGraph)
      modifies this
      requires es == Entries(yearTeamData, teamSalaries)
      requires nodes == [] && links == []
      ensures Current() == EntryGraph(es) && g == Current()
      ensures GraphValid(g)
      ensures currentYear == old(currentYear)
    {
      var flows, names, ids := CollectTeamFlows(yearTeamData, teamSalaries);
      var used := UsedEndpoints(flows.keys);
      assert used == UsedNodes(es);

      TeamNamesHaveIds(es);
      var index := AddNodes(names, ids, used);
      NodesOfSeason(es, names, ids, used, nodes);
      AddLinks(flows, index);
      g := TeamGraph(nodes, links);
      EntryGraphValid(es);
    }

    /** `updateYear`: `processDataForYear` with the year given first. */
    method UpdateYear(year: int, teamData: seq<TeamRow>, salaryData: seq<SalaryRow>) returns (g: TeamGraph)
      modifies this
      ensures currentYear == year
      ensures Current() == GraphOf(teamData, salaryData, year) && g == Current()
      ensures GraphValid(g)
    {
      g := ProcessDataForYear(teamData, salaryData, year);
    }

    /** `getCurrentData`: the fields as they stand, with the current year. */
    function GetCurrentData(): (d: CurrentData)
      reads this
      ensures TeamGraph(d.nodes, d.links) == Current() && d.year == currentYear
    {
      CurrentData(nodes, links, currentYear)
    }
  }
}
