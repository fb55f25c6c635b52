/**
 * The team-level engine (`dataProcessor.js`): one row per team and season.
 * Performance is the win percentage, salary the mean of the team's salary
 * rows, and the graph has one Team -> Salary and one Salary -> Performance
 * flow per team row. This module holds the values the class in
 * `TeamProcessor` is proved to compute, and their properties.
 */
module TeamEngine {
  import opened Wrappers
  import opened Seqs
  import opened Categories
  import opened Records
  import opened Years
  import opened Flows
  import PlayerJoin
  import G = PlayerGraph
  import L = PlayerLinks

  // ---------------------------------------------------------------- categories

  /** `calculateWinPercentage`: wins over games, 0 for a team with no games. */
  function WinPercentage(wins: int, losses: int): (p: real)
    ensures wins + losses > 0 ==> p * ((wins + losses) as real) == wins as real
    ensures wins + losses <= 0 ==> p == 0.0
    ensures wins >= 0 && losses >= 0 ==> 0.0 <= p <= 1.0
  {
    if wins + losses > 0 then
      var p := (wins as real) / ((wins + losses) as real);
      assert p * ((wins + losses) as real) == wins as real;
      p
    else 0.0
  }

  const HighWinPercentage: real := 0.6
  const MediumWinPercentage: real := 0.5

  /** `categorizePerformance` of this engine: High from 0.6, Medium from 0.5, Low below. */
  function CategorizeWinPercentage(p: real): (c: PerformanceCategory)
    ensures c == HighPerformance <==> 0.6 <= p
    ensures c == MediumPerformance <==> 0.5 <= p < 0.6
    ensures c == LowPerformance <==> p < 0.5
  {
    CategorizeByCuts(p, MediumWinPercentage, HighWinPercentage)
  }

  // ---------------------------------------------------------------- team salaries

  function SalaryOfTeam(teamId: string): SalaryRow -> bool
  {
    (r: SalaryRow) => r.teamId == teamId
  }

  function YearSalaries(salaryData: seq<SalaryRow>, year: int): seq<SalaryRow>
  {
    Filter(salaryData, SalaryInYear(year))
  }

  /** The salaries of one team's rows, in row order. */
  function TeamSalaryList(rows: seq<SalaryRow>, teamId: string): seq<real>
  {
    MapSeq(Filter(rows, SalaryOfTeam(teamId)), PlayerJoin.SalaryAmount)
  }

  /** `teamSalaries`: the team ids in order of first appearance, and each team's list. */
  datatype SalaryGroups = SalaryGroups(ids: seq<string>, lists: map<string, seq<real>>)

  /** The first `forEach` of `processTeamSalaries`. */
  function GroupSalaries(rows: seq<SalaryRow>): SalaryGroups
    decreases |rows|
  {
    if rows == [] then SalaryGroups([], map[])
    else
      var g := GroupSalaries(rows[..|rows| - 1]);
      var r := rows[|rows| - 1];
      SalaryGroups(if r.teamId in g.lists then g.ids else g.ids + [r.teamId],
        g.lists[r.teamId := (if r.teamId in g.lists then g.lists[r.teamId] else []) + [r.salary]])
  }

  /** Exactly the teams with a row have a list, and each list holds that team's salaries. */
  lemma GroupSalariesSpec(rows: seq<SalaryRow>)
    ensures var g := GroupSalaries(rows);
      (forall id :: id in g.lists <==> id in g.ids) &&
      (forall id :: id in g.lists <==> TeamSalaryList(rows, id) != []) &&
      (forall id :: id in g.lists ==> g.lists[id] == TeamSalaryList(rows, id))
  {
    GroupSalariesIds(rows);
    GroupSalariesLists(rows);
  }

  lemma {:induction false} GroupSalariesIds(rows: seq<SalaryRow>)
    ensures forall id :: id in GroupSalaries(rows).lists <==> id in GroupSalaries(rows).ids
    decreases |rows|
  {
    if rows != [] {
      var init := rows[..|rows| - 1];
      var r := rows[|rows| - 1];
      GroupSalariesIds(init);
      var g0 := GroupSalaries(init);
      var g := GroupSalaries(rows);
      assert g.lists.Keys == g0.lists.Keys + {r.teamId};
      assert g.ids == if r.teamId in g0.lists then g0.ids else g0.ids + [r.teamId];
      forall id ensures id in g.lists <==> id in g.ids {
        assert id in g0.lists <==> id in g0.ids;
        if r.teamId !in g0.lists {
          assert id in g.ids <==> id in g0.ids || id == r.teamId;
        }
      }
    }
  }

  lemma {:induction false} GroupSalariesLists(rows: seq<SalaryRow>)
    ensures var g := GroupSalaries(rows);
      (forall id :: id in g.lists <==> TeamSalaryList(rows, id) != []) &&
      (forall id :: id in g.lists ==> g.lists[id] == TeamSalaryList(rows, id))
    decreases |rows|
  {
    if rows != [] {
      var init := rows[..|rows| - 1];
      var r := rows[|rows| - 1];
      assert rows == init + [r];
      GroupSalariesLists(init);
      forall id ensures TeamSalaryList(rows, id) ==
        TeamSalaryList(init, id) + (if r.teamId == id then [r.salary] else [])
      {
        TeamSalaryListStep(init, r, id);
      }
    }
  }

  lemma TeamSalaryListStep(rows: seq<SalaryRow>, r: SalaryRow, id: string)
    ensures TeamSalaryList(rows + [r], id) == TeamSalaryList(rows, id) + (if r.teamId == id then [r.salary] else [])
  {
    FilterStep(rows, r, SalaryOfTeam(id));
    if r.teamId == id {
      MapSeqStep(Filter(rows, SalaryOfTeam(id)), r, PlayerJoin.SalaryAmount);
    }
  }

  function Mean(s: seq<real>): real
    requires s != []
  {
    SumReal(s, PlayerJoin.RealValue) / (|s| as real)
  }

  /**
   * `processTeamSalaries`: exactly the teams with a salary row in `year`,
   * each mapped to the mean of its salaries in that year.
   */
  function TeamAvgSalaries(salaryData: seq<SalaryRow>, year: int): (avg: map<string, real>)
    ensures forall id :: id in avg <==>
      exists i :: 0 <= i < |salaryData| && salaryData[i].year == year && salaryData[i].teamId == id
    ensures forall id :: id in avg ==>
      TeamSalaryList(YearSalaries(salaryData, year), id) != [] &&
      avg[id] == Mean(TeamSalaryList(YearSalaries(salaryData, year), id))
  {
    var rows := YearSalaries(salaryData, year);
    var g := GroupSalaries(rows);
    GroupSalariesSpec(rows);
    forall id | id in g.lists ensures g.lists[id] != [] {
      assert g.lists[id] == TeamSalaryList(rows, id);
    }
    var avg := map id | id in g.lists :: Mean(g.lists[id]);
    forall id ensures id in avg <==>
      exists i :: 0 <= i < |salaryData| && salaryData[i].year == year && salaryData[i].teamId == id
    {
      TeamHasSalaryRow(salaryData, year, id);
    }
    avg
  }

  /** A map keyed by the teams with salary rows, holding each one's mean, is `TeamAvgSalaries`. */
  lemma AveragesOfGroups(salaryData: seq<SalaryRow>, year: int, avg: map<string, real>)
    requires forall id :: id in avg <==> TeamSalaryList(YearSalaries(salaryData, year), id) != []
    requires forall id :: id in avg ==> avg[id] == Mean(TeamSalaryList(YearSalaries(salaryData, year), id))
    ensures avg == TeamAvgSalaries(salaryData, year)
  {
    var t := TeamAvgSalaries(salaryData, year);
    forall id ensures id in avg <==> id in t {
      TeamHasSalaryRow(salaryData, year, id);
    }
  }

  /** One row's step of the grouping loop. */
  lemma GroupSalariesStep(rows: seq<SalaryRow>, r: SalaryRow)
    ensures var g := GroupSalaries(rows);
      GroupSalaries(rows + [r]) ==
        SalaryGroups(if r.teamId in g.lists then g.ids else g.ids + [r.teamId],
          g.lists[r.teamId := (if r.teamId in g.lists then g.lists[r.teamId] else []) + [r.salary]])
  {
    assert (rows + [r])[..|rows|] == rows;
  }

  lemma TeamHasSalaryRow(salaryData: seq<SalaryRow>, year: int, id: string)
    ensures TeamSalaryList(YearSalaries(salaryData, year), id) != [] <==>
      exists i :: 0 <= i < |salaryData| && salaryData[i].year == year && salaryData[i].teamId == id
  {
    var rows := YearSalaries(salaryData, year);
    var mine := Filter(rows, SalaryOfTeam(id));
    if mine != [] {
      assert mine[0] in rows;
      var i :| 0 <= i < |salaryData| && salaryData[i] == mine[0];
      assert salaryData[i].year == year && salaryData[i].teamId == id;
    }
    if exists i :: 0 <= i < |salaryData| && salaryData[i].year == year && salaryData[i].teamId == id {
      var i :| 0 <= i < |salaryData| && salaryData[i].year == year && salaryData[i].teamId == id;
      assert salaryData[i] in rows;
      assert salaryData[i] in mine;
    }
  }

  // ---------------------------------------------------------------- team rows

  /** What one team row of the season contributes: its node name, id and two categories. */
  datatype TeamEntry = TeamEntry(name: string, teamId: string, salary: SalaryCategory, performance: PerformanceCategory)

  /** `teamSalaries[team.team_id] || 0`. */
  function AvgSalaryOf(avg: map<string, real>, teamId: string): real
  {
    if teamId in avg then avg[teamId] else 0.0
  }

  function EntryOf(row: TeamRow, avg: map<string, real>): TeamEntry
  {
    TeamEntry(PlayerJoin.DisplayName(row), row.teamId,
      CategorizeSalary(AvgSalaryOf(avg, row.teamId)), CategorizeWinPercentage(WinPercentage(row.w, row.l)))
  }

  function Entries(rows: seq<TeamRow>, avg: map<string, real>): (es: seq<TeamEntry>)
    ensures |es| == |rows|
    ensures forall i :: 0 <= i < |rows| ==> es[i] == EntryOf(rows[i], avg)
    decreases |rows|
  {
    if rows == [] then [] else Entries(rows[..|rows| - 1], avg) + [EntryOf(rows[|rows| - 1], avg)]
  }

  /** A team without a salary row in the season is a Low Salary team. */
  lemma MissingSalaryIsLow(salaryData: seq<SalaryRow>, year: int, row: TeamRow)
    requires forall i :: 0 <= i < |salaryData| && salaryData[i].year == year ==> salaryData[i].teamId != row.teamId
    ensures EntryOf(row, TeamAvgSalaries(salaryData, year)).salary == LowSalary
  {
  }

  /** Otherwise its salary category is that of the mean of its salaries. */
  lemma PresentSalaryCategory(salaryData: seq<SalaryRow>, year: int, row: TeamRow, i: nat)
    requires i < |salaryData| && salaryData[i].year == year && salaryData[i].teamId == row.teamId
    ensures var list := TeamSalaryList(YearSalaries(salaryData, year), row.teamId);
      list != [] && EntryOf(row, TeamAvgSalaries(salaryData, year)).salary == CategorizeSalary(Mean(list))
  {
    TeamHasSalaryRow(salaryData, year, row.teamId);
  }

  // ---------------------------------------------------------------- flows

  function TeamToSalary(e: TeamEntry): FlowKey
  {
    (e.name, SalaryName(e.salary))
  }

  function SalaryToPerformance(e: TeamEntry): FlowKey
  {
    (SalaryName(e.salary), PerformanceName(e.performance))
  }

  /** The `flows` dictionary after the `yearTeamData.forEach`: two bumps per row. */
  function EntryFlows(es: seq<TeamEntry>): (f: FlowCounts)
    ensures Valid(f)
    decreases |es|
  {
    if es == [] then NoFlows
    else
      var e := es[|es| - 1];
      Bump(Bump(EntryFlows(es[..|es| - 1]), TeamToSalary(e)), SalaryToPerformance(e))
  }

  lemma EntryFlowsStep(es: seq<TeamEntry>, e: TeamEntry)
    ensures EntryFlows(es + [e]) == Bump(Bump(EntryFlows(es), TeamToSalary(e)), SalaryToPerformance(e))
  {
    assert (es + [e])[..|es|] == es;
  }

  function EmitsTeamToSalary(k: FlowKey): TeamEntry -> bool
  {
    (e: TeamEntry) => TeamToSalary(e) == k
  }

  function EmitsSalaryToPerformance(k: FlowKey): TeamEntry -> bool
  {
    (e: TeamEntry) => SalaryToPerformance(e) == k
  }

  /** A flow's count is the number of team rows that emit it. */
  lemma {:induction false} EntryFlowCount(es: seq<TeamEntry>, k: FlowKey)
    ensures CountOf(EntryFlows(es), k) ==
      |Filter(es, EmitsTeamToSalary(k))| + |Filter(es, EmitsSalaryToPerformance(k))|
    decreases |es|
  {
    if es != [] {
      var init := es[..|es| - 1];
      var e := es[|es| - 1];
      assert es == init + [e];
      EntryFlowCount(init, k);
      FilterStep(init, e, EmitsTeamToSalary(k));
      FilterStep(init, e, EmitsSalaryToPerformance(k));
    }
  }

  /** All flow counts add up to twice the number of team rows. */
  lemma {:induction false} EntryFlowTotal(es: seq<TeamEntry>)
    ensures Total(EntryFlows(es)) == 2 * |es|
    decreases |es|
  {
    if es != [] {
      var init := es[..|es| - 1];
      var e := es[|es| - 1];
      EntryFlowTotal(init);
      var f := EntryFlows(init);
      BumpTotal(f, TeamToSalary(e), AnyKey);
      BumpTotal(Bump(f, TeamToSalary(e)), SalaryToPerformance(e), AnyKey);
    }
  }

  /** Every flow key is one of the two flows of some team row. */
  lemma {:induction false} EntryFlowKeySource(es: seq<TeamEntry>, k: FlowKey) returns (i: nat)
    requires k in EntryFlows(es).keys
    ensures i < |es| && (k == TeamToSalary(es[i]) || k == SalaryToPerformance(es[i]))
    decreases |es|
  {
    NoEntriesNoFlows(es);
    var last := |es| - 1;
    if k == TeamToSalary(es[last]) || k == SalaryToPerformance(es[last]) {
      i := last;
    } else {
      EntryFlowKeyEarlier(es, k);
      i := EntryFlowKeySource(es[..last], k);
      assert es[..last][i] == es[i];
    }
  }

  lemma NoEntriesNoFlows(es: seq<TeamEntry>)
    ensures es == [] ==> EntryFlows(es).keys == []
  {
  }

  /** A flow key that is neither flow of the last row is a key of the earlier rows. */
  lemma EntryFlowKeyEarlier(es: seq<TeamEntry>, k: FlowKey)
    requires es != [] && k in EntryFlows(es).keys
    requires k != TeamToSalary(es[|es| - 1]) && k != SalaryToPerformance(es[|es| - 1])
    ensures k in EntryFlows(es[..|es| - 1]).keys
  {
    var e := es[|es| - 1];
    var f := EntryFlows(es[..|es| - 1]);
    var f1 := Bump(f, TeamToSalary(e));
    BumpKeyFrom(f1, SalaryToPerformance(e), k);
    BumpKeyFrom(f, TeamToSalary(e), k);
  }

  /** Both flows of every team row are keys. */
  lemma EntryFlowKeysPresent(es: seq<TeamEntry>, i: nat)
    requires i < |es|
    ensures TeamToSalary(es[i]) in EntryFlows(es).keys && SalaryToPerformance(es[i]) in EntryFlows(es).keys
  {
    var f := EntryFlows(es);
    var e := es[i];
    assert e in es;
    var k1 := TeamToSalary(e);
    var k2 := SalaryToPerformance(e);
    EntryFlowCount(es, k1);
    EntryFlowCount(es, k2);
    assert EmitsTeamToSalary(k1)(e) && e in Filter(es, EmitsTeamToSalary(k1));
    assert EmitsSalaryToPerformance(k2)(e) && e in Filter(es, EmitsSalaryToPerformance(k2));
    assert k1 in f.count && k2 in f.count;
  }

  // ---------------------------------------------------------------- used names

  /** `usedNodes`: both ends of every flow key. */
  function Endpoints(keys: seq<FlowKey>): set<string>
    decreases |keys|
  {
    if keys == [] then {}
    else
      var k := keys[|keys| - 1];
      Endpoints(keys[..|keys| - 1]) + {k.0, k.1}
  }

  lemma {:induction false} EndpointsSpec(keys: seq<FlowKey>, name: string)
    ensures name in Endpoints(keys) <==> exists i :: 0 <= i < |keys| && (keys[i].0 == name || keys[i].1 == name)
    decreases |keys|
  {
    if keys != [] {
      var init := keys[..|keys| - 1];
      EndpointsSpec(init, name);
      if exists i :: 0 <= i < |keys| && (keys[i].0 == name || keys[i].1 == name) {
        var i :| 0 <= i < |keys| && (keys[i].0 == name || keys[i].1 == name);
        if i < |init| {
          assert init[i] == keys[i];
        }
      }
      if exists i :: 0 <= i < |init| && (init[i].0 == name || init[i].1 == name) {
        var i :| 0 <= i < |init| && (init[i].0 == name || init[i].1 == name);
        assert keys[i] == init[i];
      }
    }
  }

  function UsedNodes(es: seq<TeamEntry>): set<string>
  {
    Endpoints(EntryFlows(es).keys)
  }

  /** Whether team row `e` names `name`: as its own name or one of its two category names. */
  predicate NamedBy(e: TeamEntry, name: string)
  {
    name == e.name || name == SalaryName(e.salary) || name == PerformanceName(e.performance)
  }

  /** A name is used iff some team row of the season names it. */
  lemma UsedNodesSpec(es: seq<TeamEntry>, name: string)
    ensures name in UsedNodes(es) <==> exists i :: 0 <= i < |es| && NamedBy(es[i], name)
  {
    if name in UsedNodes(es) {
      var i := UsedNameSource(es, name);
    }
    if exists i :: 0 <= i < |es| && NamedBy(es[i], name) {
      var i :| 0 <= i < |es| && NamedBy(es[i], name);
      NamedIsUsed(es, i, name);
    }
  }

  lemma UsedNameSource(es: seq<TeamEntry>, name: string) returns (i: nat)
    requires name in UsedNodes(es)
    ensures i < |es| && NamedBy(es[i], name)
  {
    var keys := EntryFlows(es).keys;
    EndpointsSpec(keys, name);
    var j :| 0 <= j < |keys| && (keys[j].0 == name || keys[j].1 == name);
    i := EntryFlowKeySource(es, keys[j]);
  }

  lemma NamedIsUsed(es: seq<TeamEntry>, i: nat, name: string)
    requires i < |es| && NamedBy(es[i], name)
    ensures name in UsedNodes(es)
  {
    var keys := EntryFlows(es).keys;
    EntryFlowKeysPresent(es, i);
    var j1 :| 0 <= j1 < |keys| && keys[j1] == TeamToSalary(es[i]);
    var j2 :| 0 <= j2 < |keys| && keys[j2] == SalaryToPerformance(es[i]);
    EndpointsSpec(keys, name);
    if name == es[i].name {
      assert keys[j1].0 == name;
    } else if name == SalaryName(es[i].salary) {
      assert keys[j1].1 == name;
    } else {
      assert keys[j2].1 == name;
    }
  }

  // ---------------------------------------------------------------- team names

  function EntryName(e: TeamEntry): string { e.name }
  function EntryTeamId(e: TeamEntry): string { e.teamId }

  /** The keys of the `teams` Map: the team names in order of first insertion. */
  function TeamNames(es: seq<TeamEntry>): seq<string>
  {
    Distinct(MapSeq(es, EntryName))
  }

  /** Its values: `teams.set(teamName, team.team_id)`, so the last row of a name wins. */
  function TeamIdsByName(es: seq<TeamEntry>): map<string, string>
  {
    Lookup(es, EntryName, EntryTeamId)
  }

  /** Each team name is named by some row, is used, and has an id. */
  lemma TeamNamesUsed(es: seq<TeamEntry>)
    ensures forall n :: n in TeamNames(es) <==> exists i :: 0 <= i < |es| && es[i].name == n
    ensures forall n :: n in TeamNames(es) ==> n in UsedNodes(es) && n in TeamIdsByName(es)
  {
    var names := MapSeq(es, EntryName);
    forall n ensures n in TeamNames(es) <==> exists i :: 0 <= i < |es| && es[i].name == n {
      if n in names {
        var i :| 0 <= i < |names| && names[i] == n;
        assert es[i].name == n;
      }
      if exists i :: 0 <= i < |es| && es[i].name == n {
        var i :| 0 <= i < |es| && es[i].name == n;
        assert names[i] == n;
      }
    }
    forall n | n in TeamNames(es) ensures n in UsedNodes(es) && n in TeamIdsByName(es) {
      var i :| 0 <= i < |es| && es[i].name == n;
      assert NamedBy(es[i], n);
      UsedNodesSpec(es, n);
      LookupLastWins(es, EntryName, EntryTeamId, n);
      assert EntryName(es[i]) == n;
    }
  }

  // ---------------------------------------------------------------- nodes

  /** A node of this engine: team nodes carry the team id, category nodes none. */
  datatype Node = Node(id: nat, name: string, category: G.NodeKind, teamId: Option<string>)

  function NodeName(n: Node): string { n.name }
  function NodeId(n: Node): nat { n.id }

  /** Every name of the list has an id. */
  predicate HaveIds(names: seq<string>, ids: map<string, string>)
  {
    forall i :: 0 <= i < |names| ==> names[i] in ids
  }

  /** The team nodes, ids from 0, each with its team id. */
  function TeamRun(names: seq<string>, ids: map<string, string>): (r: seq<Node>)
    requires HaveIds(names, ids)
    ensures |r| == |names|
    decreases |names|
  {
    if names == [] then []
    else
      var name := names[|names| - 1];
      TeamRun(names[..|names| - 1], ids) + [Node(|names| - 1, name, G.TeamKind, Some(ids[name]))]
  }

  /** The nodes of one category list, ids from `start`. */
  function CategoryRun(start: nat, names: seq<string>, kind: G.NodeKind): (r: seq<Node>)
    ensures |r| == |names|
    decreases |names|
  {
    if names == [] then []
    else CategoryRun(start, names[..|names| - 1], kind) + [Node(start + |names| - 1, names[|names| - 1], kind, None)]
  }

  lemma TeamRunStep(names: seq<string>, ids: map<string, string>, name: string)
    requires HaveIds(names, ids)
    requires name in ids
    ensures TeamRun(names + [name], ids) == TeamRun(names, ids) + [Node(|names|, name, G.TeamKind, Some(ids[name]))]
  {
    assert (names + [name])[..|names|] == names;
  }

  lemma CategoryRunStep(start: nat, names: seq<string>, kind: G.NodeKind, name: string)
    ensures CategoryRun(start, names + [name], kind) == CategoryRun(start, names, kind) + [Node(start + |names|, name, kind, None)]
  {
    assert (names + [name])[..|names|] == names;
  }

  /** Team node k is the k-th name's node. */
  lemma {:induction false} TeamRunAt(names: seq<string>, ids: map<string, string>, k: nat)
    requires HaveIds(names, ids)
    requires k < |names|
    ensures TeamRun(names, ids)[k] == Node(k, names[k], G.TeamKind, Some(ids[names[k]]))
    decreases |names|
  {
    var init := names[..|names| - 1];
    if k < |init| {
      assert HaveIds(init, ids) by {
        assert forall i :: 0 <= i < |init| ==> init[i] == names[i];
      }
      TeamRunAt(init, ids, k);
    }
  }

  /** Category node k is the k-th name's node, with id `start + k`. */
  lemma {:induction false} CategoryRunAt(start: nat, names: seq<string>, kind: G.NodeKind, k: nat)
    requires k < |names|
    ensures CategoryRun(start, names, kind)[k] == Node(start + k, names[k], kind, None)
    decreases |names|
  {
    var init := names[..|names| - 1];
    if k < |init| {
      CategoryRunAt(start, init, kind, k);
    }
  }

  /** Filtering a list of names that all have ids keeps only names with ids. */
  lemma FilteredNamesHaveIds(names: seq<string>, ids: map<string, string>, p: string -> bool)
    requires HaveIds(names, ids)
    ensures HaveIds(Filter(names, p), ids)
  {
    var r := Filter(names, p);
    forall i | 0 <= i < |r| ensures r[i] in ids {
      assert r[i] in names;
    }
  }

  /** Team nodes, then salary nodes, then performance nodes, with consecutive ids. */
  function Layout(t: seq<string>, ids: map<string, string>, s: seq<string>, p: seq<string>): seq<Node>
    requires HaveIds(t, ids)
  {
    TeamRun(t, ids) + CategoryRun(|t|, s, G.SalaryKind) + CategoryRun(|t| + |s|, p, G.PerformanceKind)
  }

  /** In a layout, node k has id k and the k-th name of the three lists joined. */
  lemma LayoutAt(t: seq<string>, ids: map<string, string>, s: seq<string>, p: seq<string>, k: nat)
    requires HaveIds(t, ids)
    requires k < |t| + |s| + |p|
    ensures var nodes := Layout(t, ids, s, p);
      |nodes| == |t| + |s| + |p| && nodes[k].id == k && nodes[k].name == (t + s + p)[k] &&
      nodes[k].category == (if k < |t| then G.TeamKind else if k < |t| + |s| then G.SalaryKind else G.PerformanceKind)
  {
    var a := TeamRun(t, ids);
    var b := CategoryRun(|t|, s, G.SalaryKind);
    var c := CategoryRun(|t| + |s|, p, G.PerformanceKind);
    ConcatAt(a, b, c, k);
    ConcatAt(t, s, p, k);
    if k < |t| {
      TeamRunAt(t, ids, k);
    } else if k < |t| + |s| {
      CategoryRunAt(|t|, s, G.SalaryKind, k - |t|);
    } else {
      CategoryRunAt(|t| + |s|, p, G.PerformanceKind, k - |t| - |s|);
    }
  }

  /** Whether some node carries `name`. */
  predicate HasNode(nodes: seq<Node>, name: string)
  {
    exists k :: 0 <= k < |nodes| && nodes[k].name == name
  }

  /** A name has a node of the layout iff it is in one of its three lists. */
  lemma LayoutNames(t: seq<string>, ids: map<string, string>, s: seq<string>, p: seq<string>, name: string)
    requires HaveIds(t, ids)
    ensures HasNode(Layout(t, ids, s, p), name) <==> name in t || name in s || name in p
  {
    var nodes := Layout(t, ids, s, p);
    var all := t + s + p;
    if HasNode(nodes, name) {
      var k :| 0 <= k < |nodes| && nodes[k].name == name;
      LayoutAt(t, ids, s, p, k);
      assert all[k] == name;
    }
    if name in all {
      var k :| 0 <= k < |all| && all[k] == name;
      LayoutAt(t, ids, s, p, k);
    }
  }

  /** The used team names, and the used salary and performance names in Low, Medium, High order. */
  function UsedTeamNames(es: seq<TeamEntry>): seq<string>
  {
    Filter(TeamNames(es), G.InSet(UsedNodes(es)))
  }

  function UsedSalaryNames(es: seq<TeamEntry>): seq<string>
  {
    Filter(G.SalaryRanges, G.InSet(UsedNodes(es)))
  }

  function UsedPerformanceNames(es: seq<TeamEntry>): seq<string>
  {
    Filter(G.PerformanceLevels, G.InSet(UsedNodes(es)))
  }

  lemma TeamNamesHaveIds(es: seq<TeamEntry>)
    ensures HaveIds(TeamNames(es), TeamIdsByName(es))
  {
    TeamNamesUsed(es);
    assert forall i :: 0 <= i < |TeamNames(es)| ==> TeamNames(es)[i] in TeamNames(es);
  }

  lemma UsedTeamNamesHaveIds(es: seq<TeamEntry>)
    ensures HaveIds(UsedTeamNames(es), TeamIdsByName(es))
  {
    TeamNamesUsed(es);
    assert forall i :: 0 <= i < |UsedTeamNames(es)| ==> UsedTeamNames(es)[i] in TeamNames(es);
  }

  /** The node list of `processDataForYear`: teams, then salary ranges, then performance levels. */
  function NodeList(es: seq<TeamEntry>): seq<Node>
  {
    UsedTeamNamesHaveIds(es);
    Layout(UsedTeamNames(es), TeamIdsByName(es), UsedSalaryNames(es), UsedPerformanceNames(es))
  }

  /** `nodeIndex`: each pushed node's name maps to its id, a later node overwriting an earlier one. */
  function NodeIndex(nodes: seq<Node>): map<string, nat>
  {
    Lookup(nodes, NodeName, NodeId)
  }

  /** Every team name is used, so every team gets its node. */
  lemma UsedTeamNamesAll(es: seq<TeamEntry>)
    ensures UsedTeamNames(es) == TeamNames(es)
  {
    TeamNamesUsed(es);
    FilterAll(TeamNames(es), G.InSet(UsedNodes(es)));
  }

  /** A used name is a team name or one of the six category names. */
  lemma UsedNameListed(es: seq<TeamEntry>, name: string)
    requires name in UsedNodes(es)
    ensures name in UsedTeamNames(es) || name in UsedSalaryNames(es) || name in UsedPerformanceNames(es)
  {
    var i := UsedNameSource(es, name);
    TeamNamesUsed(es);
    if name == es[i].name {
      assert name in TeamNames(es);
    } else if name == SalaryName(es[i].salary) {
      G.SalaryNameListed(es[i].salary);
    } else {
      G.PerformanceNameListed(es[i].performance);
    }
  }

  /** A name has a node iff it is used, that is iff it is the end of some flow. */
  lemma NodeNamesAreEndpoints(es: seq<TeamEntry>, name: string)
    ensures HasNode(NodeList(es), name) <==> name in UsedNodes(es)
  {
    UsedTeamNamesHaveIds(es);
    assert NodeList(es) == Layout(UsedTeamNames(es), TeamIdsByName(es), UsedSalaryNames(es), UsedPerformanceNames(es));
    LayoutNames(UsedTeamNames(es), TeamIdsByName(es), UsedSalaryNames(es), UsedPerformanceNames(es), name);
    if name in UsedNodes(es) {
      UsedNameListed(es, name);
    }
    ListedNameUsed(es, name);
  }

  /** A name in one of the three used lists is used. */
  lemma ListedNameUsed(es: seq<TeamEntry>, name: string)
    ensures name in UsedTeamNames(es) || name in UsedSalaryNames(es) || name in UsedPerformanceNames(es) ==>
      name in UsedNodes(es)
  {
    var used := G.InSet(UsedNodes(es));
    if name in UsedTeamNames(es) {
      assert used(name);
    } else if name in UsedSalaryNames(es) {
      assert used(name);
    } else if name in UsedPerformanceNames(es) {
      assert used(name);
    }
  }

  /**
   * The nodes are exactly the flow endpoints: ids run 0..n-1 in list
   * order, a name has a node iff it is used, and the index maps exactly
   * the used names, each to a node of that name.
   */
  lemma NodesAreEndpoints(es: seq<TeamEntry>)
    ensures var nodes := NodeList(es);
      (forall k :: 0 <= k < |nodes| ==> nodes[k].id == k) &&
      (forall name :: HasNode(nodes, name) <==> name in UsedNodes(es)) &&
      (forall name :: name in NodeIndex(nodes) <==> name in UsedNodes(es)) &&
      (forall name :: name in NodeIndex(nodes) ==>
        NodeIndex(nodes)[name] < |nodes| && nodes[NodeIndex(nodes)[name]].name == name)
  {
    NodeIdsArePositions(es);
    var nodes := NodeList(es);
    forall name ensures HasNode(nodes, name) <==> name in UsedNodes(es) {
      NodeNamesAreEndpoints(es, name);
    }
    forall name ensures name in NodeIndex(nodes) <==> name in UsedNodes(es) {
      LookupLastWins(nodes, NodeName, NodeId, name);
      NodeNamesAreEndpoints(es, name);
    }
    NodeIndexPoints(es);
  }

  lemma NodeIdsArePositions(es: seq<TeamEntry>)
    ensures forall k :: 0 <= k < |NodeList(es)| ==> NodeList(es)[k].id == k
  {
    var nodes := NodeList(es);
    UsedTeamNamesHaveIds(es);
    forall k | 0 <= k < |nodes| ensures nodes[k].id == k {
      LayoutAt(UsedTeamNames(es), TeamIdsByName(es), UsedSalaryNames(es), UsedPerformanceNames(es), k);
    }
  }

  /** The index sends every name it holds to a node of that name. */
  lemma NodeIndexPoints(es: seq<TeamEntry>)
    ensures var nodes := NodeList(es);
      forall name :: name in NodeIndex(nodes) ==> NodeIndex(nodes)[name] < |nodes| && nodes[NodeIndex(nodes)[name]].name == name
  {
    var nodes := NodeList(es);
    UsedTeamNamesHaveIds(es);
    forall name | name in NodeIndex(nodes)
      ensures NodeIndex(nodes)[name] < |nodes| && nodes[NodeIndex(nodes)[name]].name == name
    {
      LookupLastWins(nodes, NodeName, NodeId, name);
      var i :| 0 <= i < |nodes| && NodeName(nodes[i]) == name && NodeIndex(nodes)[name] == NodeId(nodes[i]);
      LayoutAt(UsedTeamNames(es), TeamIdsByName(es), UsedSalaryNames(es), UsedPerformanceNames(es), i);
    }
  }

  // ---------------------------------------------------------------- links

  /** One `Object.keys(flows).forEach` step: a link only when both ends have an index. */
  function PushLink(links: seq<L.Link>, key: FlowKey, value: nat, index: map<string, nat>): seq<L.Link>
  {
    if key.0 in index && key.1 in index then links + [L.Link(index[key.0], index[key.1], value)] else links
  }

  function BuildLinks(keys: seq<FlowKey>, f: FlowCounts, index: map<string, nat>): seq<L.Link>
    decreases |keys|
  {
    if keys == [] then []
    else
      var key := keys[|keys| - 1];
      PushLink(BuildLinks(keys[..|keys| - 1], f, index), key, CountOf(f, key), index)
  }

  /** With both ends of every key indexed, key i becomes link i, carrying its count. */
  lemma {:induction false} BuildLinksAll(keys: seq<FlowKey>, f: FlowCounts, index: map<string, nat>)
    requires L.AllIndexed(keys, index)
    ensures var links := BuildLinks(keys, f, index);
      |links| == |keys| &&
      forall i :: 0 <= i < |keys| ==> links[i] == L.Link(index[keys[i].0], index[keys[i].1], CountOf(f, keys[i]))
    decreases |keys|
  {
    if keys != [] {
      var init := keys[..|keys| - 1];
      assert forall i :: 0 <= i < |init| ==> init[i] == keys[i];
      BuildLinksAll(init, f, index);
    }
  }

  /** The link values then add up to the flow counts. */
  lemma {:induction false} LinkValuesTotal(keys: seq<FlowKey>, f: FlowCounts, index: map<string, nat>)
    requires L.AllIndexed(keys, index)
    requires forall i :: 0 <= i < |keys| ==> keys[i] in f.count
    ensures L.LinksTotal(BuildLinks(keys, f, index), L.AnyNode) == SumCounts(keys, f.count, AnyKey)
    decreases |keys|
  {
    if keys != [] {
      var init := keys[..|keys| - 1];
      assert forall i :: 0 <= i < |init| ==> init[i] == keys[i];
      LinkValuesTotal(init, f, index);
      BuildLinksAll(init, f, index);
      var links := BuildLinks(keys, f, index);
      assert links[..|links| - 1] == BuildLinks(init, f, index);
    }
  }

  /** A link is never pushed for a key with an end that has no node. */
  lemma {:induction false} BuildLinksBound(keys: seq<FlowKey>, f: FlowCounts, index: map<string, nat>)
    ensures |BuildLinks(keys, f, index)| <= |keys|
    ensures |BuildLinks(keys, f, index)| == |keys| ==> L.AllIndexed(keys, index)
    decreases |keys|
  {
    if keys != [] {
      var init := keys[..|keys| - 1];
      BuildLinksBound(init, f, index);
      if |BuildLinks(keys, f, index)| == |keys| {
        assert forall i :: 0 <= i < |init| ==> init[i] == keys[i];
      }
    }
  }

  // ---------------------------------------------------------------- the graph

  /** What `processDataForYear` returns and keeps in its fields. */
  datatype TeamGraph = TeamGraph(nodes: seq<Node>, links: seq<L.Link>)

  function SeasonEntries(teamData: seq<TeamRow>, salaryData: seq<SalaryRow>, year: int): seq<TeamEntry>
  {
    Entries(Filter(teamData, TeamInYear(year)), TeamAvgSalaries(salaryData, year))
  }

  /** The graph of the season's team rows. */
  function GraphOf(teamData: seq<TeamRow>, salaryData: seq<SalaryRow>, year: int): TeamGraph
  {
    EntryGraph(SeasonEntries(teamData, salaryData, year))
  }

  /** Every flow's both ends are indexed. */
  lemma FlowsIndexed(es: seq<TeamEntry>)
    ensures L.AllIndexed(EntryFlows(es).keys, NodeIndex(NodeList(es)))
  {
    var keys := EntryFlows(es).keys;
    NodesAreEndpoints(es);
    forall i | 0 <= i < |keys| ensures keys[i].0 in UsedNodes(es) && keys[i].1 in UsedNodes(es) {
      EndpointsSpec(keys, keys[i].0);
      EndpointsSpec(keys, keys[i].1);
    }
  }

  /**
   * One link per flow, in flow order, joining the nodes of its two ends
   * and carrying the flow count; the link values add up to twice the
   * number of team rows of the season.
   */
  lemma GraphLinks(teamData: seq<TeamRow>, salaryData: seq<SalaryRow>, year: int)
    ensures var es := SeasonEntries(teamData, salaryData, year);
      var f := EntryFlows(es);
      var g := GraphOf(teamData, salaryData, year);
      var index := NodeIndex(g.nodes);
      |g.links| == |f.keys| &&
      (forall i :: 0 <= i < |f.keys| ==>
        f.keys[i].0 in index && f.keys[i].1 in index &&
        g.links[i] == L.Link(index[f.keys[i].0], index[f.keys[i].1], CountOf(f, f.keys[i]))) &&
      L.LinksTotal(g.links, L.AnyNode) == 2 * |Filter(teamData, TeamInYear(year))|
  {
    var es := SeasonEntries(teamData, salaryData, year);
    var f := EntryFlows(es);
    var index := NodeIndex(NodeList(es));
    FlowsIndexed(es);
    BuildLinksAll(f.keys, f, index);
    LinkValuesTotal(f.keys, f, index);
    EntryFlowTotal(es);
  }

  /** Node ids are list positions, and every link joins two existing nodes. */
  ghost predicate GraphValid(g: TeamGraph)
  {
    (forall k :: 0 <= k < |g.nodes| ==> g.nodes[k].id == k) &&
    (forall k :: 0 <= k < |g.links| ==> g.links[k].source < |g.nodes| && g.links[k].target < |g.nodes|)
  }

  /** The graph of some team rows, as `GraphOf` builds it. */
  function EntryGraph(es: seq<TeamEntry>): TeamGraph
  {
    var f := EntryFlows(es);
    var nodes := NodeList(es);
    TeamGraph(nodes, BuildLinks(f.keys, f, NodeIndex(nodes)))
  }

  /** Links built from keys whose ends are indexed join the nodes of those names. */
  lemma LinksJoinNamedNodes(nodes: seq<Node>, keys: seq<FlowKey>, f: FlowCounts, index: map<string, nat>)
    requires L.AllIndexed(keys, index)
    requires forall name :: name in index ==> index[name] < |nodes| && nodes[index[name]].name == name
    ensures var links := BuildLinks(keys, f, index);
      |links| == |keys| &&
      forall i :: 0 <= i < |links| ==>
        links[i].source < |nodes| && links[i].target < |nodes| &&
        nodes[links[i].source].name == keys[i].0 && nodes[links[i].target].name == keys[i].1
  {
    BuildLinksAll(keys, f, index);
  }

  /** The graph of some team rows is consistent, and link i runs between the nodes named by flow i. */
  lemma EntryGraphValid(es: seq<TeamEntry>)
    ensures GraphValid(EntryGraph(es))
    ensures var f := EntryFlows(es);
      var g := EntryGraph(es);
      |g.links| == |f.keys| &&
      forall i :: 0 <= i < |g.links| ==>
        g.nodes[g.links[i].source].name == f.keys[i].0 && g.nodes[g.links[i].target].name == f.keys[i].1
  {
    var f := EntryFlows(es);
    var nodes := NodeList(es);
    NodeIdsArePositions(es);
    NodeIndexPoints(es);
    FlowsIndexed(es);
    LinksJoinNamedNodes(nodes, f.keys, f, NodeIndex(nodes));
    var g := EntryGraph(es);
    assert g.nodes == nodes && g.links == BuildLinks(f.keys, f, NodeIndex(nodes));
  }

  /** The season's graph is consistent, and link i runs between the nodes named by flow i. */
  lemma GraphOfValid(teamData: seq<TeamRow>, salaryData: seq<SalaryRow>, year: int)
    ensures GraphValid(GraphOf(teamData, salaryData, year))
    ensures var f := EntryFlows(SeasonEntries(teamData, salaryData, year));
      var g := GraphOf(teamData, salaryData, year);
      |g.links| == |f.keys| &&
      forall i :: 0 <= i < |g.links| ==>
        g.nodes[g.links[i].source].name == f.keys[i].0 && g.nodes[g.links[i].target].name == f.keys[i].1
  {
    var es := SeasonEntries(teamData, salaryData, year);
    assert GraphOf(teamData, salaryData, year) == EntryGraph(es);
    EntryGraphValid(es);
  }
}
