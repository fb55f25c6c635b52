/**
 * A worked year for the player-level engine. One team has two joined
 * players: one earning nothing and one earning 12,000,000. Their
 * average is exactly 6,000,000, so the team is "High Salary". Only the
 * "High Salary" node is built, and its value counts the players whose OWN
 * salary is high: one of the two. So the salary node values do not add up
 * to the number of joined players.
 */
module PlayerScenarios {
  import opened Wrappers
  import opened Seqs
  import opened Categories
  import opened PlayerJoin
  import opened PlayerTeams
  import opened PlayerGraph
  import opened PlayerLinks

  /** The sum of the values of the nodes of one kind. */
  function NodesTotal(nodes: seq<Node>, kind: NodeKind): nat
    decreases |nodes|
  {
    if nodes == [] then 0
    else
      var n := nodes[|nodes| - 1];
      NodesTotal(nodes[..|nodes| - 1], kind) + (if n.category == kind then n.value else 0)
  }

  /**
   * Two joined players of one team, one earning nothing and one earning
   * 12,000,000, each with the category of their own salary.
   */
  predicate BenchAndStar(bench: PlayerRecord, star: PlayerRecord)
  {
    bench.teamId == star.teamId && bench.teamName == star.teamName &&
    bench.teamName !in SalaryRanges &&
    bench.salary == 0.0 && bench.salaryCategory == CategorizeSalary(bench.salary) &&
    star.salary == 12000000.0 && star.salaryCategory == CategorizeSalary(star.salary)
  }

  lemma PairIds(bench: PlayerRecord, star: PlayerRecord)
    requires bench.teamId == star.teamId
    ensures TeamIds([bench, star]) == [bench.teamId]
  {
    var records := [bench, star];
    assert records[..1] == [bench];
    assert [bench][..0] == [];
    assert TeamIdSeq([bench]) == [bench.teamId];
    assert TeamIdSeq(records) == [bench.teamId, bench.teamId];
    assert [bench.teamId, bench.teamId][..1] == [bench.teamId];
    assert [bench.teamId][..0] == [];
    assert Distinct([bench.teamId]) == [bench.teamId];
  }

  lemma PairSalary(bench: PlayerRecord, star: PlayerRecord)
    ensures SumReal([bench, star], PlayerSalary) == bench.salary + star.salary
  {
    assert [bench, star] == ([] + [bench]) + [star];
    SumRealStep([], bench, PlayerSalary);
    SumRealStep([bench], star, PlayerSalary);
  }

  /** The grouping of the two records: one team holding both, "High Salary" on average. */
  lemma PairTeam(bench: PlayerRecord, star: PlayerRecord, thresholds: Option<Thresholds>)
    requires BenchAndStar(bench, star)
    ensures var teams := AggregateByTeam([bench, star], thresholds);
      |teams| == 1 && teams[0].teamName == bench.teamName &&
      teams[0].players == [bench, star] && teams[0].teamSalaryCategory == HighSalary
  {
    var records := [bench, star];
    PairIds(bench, star);
    TeamAt(records, thresholds, 0);
    PairMembers(bench, star);
    PairAverage(bench, star, thresholds, AggregateByTeam(records, thresholds)[0]);
  }

  /** Both records are on the shared team. */
  lemma PairMembers(bench: PlayerRecord, star: PlayerRecord)
    requires bench.teamId == star.teamId
    ensures Filter([bench, star], OnTeam(bench.teamId)) == [bench, star]
  {
    FilterAll([bench, star], OnTeam(bench.teamId));
  }

  /** The pair's team holds both, and its 12,000,000 over two players is exactly the high-salary threshold. */
  lemma PairAverage(bench: PlayerRecord, star: PlayerRecord, thresholds: Option<Thresholds>, t: TeamAggregate)
    requires BenchAndStar(bench, star) && t.teamId == bench.teamId
    requires Filter([bench, star], OnTeam(bench.teamId)) == [bench, star]
    requires TeamAggregateOf([bench, star], thresholds, t)
    ensures t.players == [bench, star] && t.teamSalaryCategory == HighSalary
  {
    PairSalary(bench, star);
    assert |t.players| as real == 2.0;
  }

  /** The used names of the grouped pair: the team's name and its two categories. */
  lemma PairUsedSalaryNames(bench: PlayerRecord, star: PlayerRecord, thresholds: Option<Thresholds>)
    requires BenchAndStar(bench, star)
    ensures UsedSalaryNames(UsedNames(AggregateByTeam([bench, star], thresholds))) == [SalaryName(HighSalary)]
  {
    var teams := AggregateByTeam([bench, star], thresholds);
    PairTeam(bench, star, thresholds);
    var used := UsedNames(teams);
    var d := teams[0].teamPerformanceCategory;
    assert used == {bench.teamName, SalaryName(HighSalary), PerformanceName(d)} by {
      var init := teams[..|teams| - 1];
      assert init == [];
      assert UsedNames(init) == {};
      var t := teams[|teams| - 1];
      assert t == teams[0];
      assert UsedNames(teams) == UsedNames(init) + {t.teamName, SalaryName(t.teamSalaryCategory), PerformanceName(t.teamPerformanceCategory)};
    }
    UsedSalaryNamesOrder(used);
    CategoryNamesDistinct(LowSalary, LowSalary, d, d);
    CategoryNamesDistinct(MediumSalary, MediumSalary, d, d);
  }

  /** The nodes of such a year: the team, then the one salary node, counting one player. */
  lemma PairNodes(bench: PlayerRecord, star: PlayerRecord, thresholds: Option<Thresholds>)
    requires BenchAndStar(bench, star)
    ensures var records := [bench, star];
      var v := BuildNodes(AggregateByTeam(records, thresholds), records);
      |v.nodes| >= 2 && v.nodes[0].category == TeamKind &&
      v.nodes[1].category == SalaryKind && v.nodes[1].value == 1 &&
      forall k :: 2 <= k < |v.nodes| ==> v.nodes[k].category != SalaryKind
  {
    PairSalaryNode(bench, star, thresholds);
    PairOtherNodes(bench, star, thresholds);
  }

  lemma PairSalaryNode(bench: PlayerRecord, star: PlayerRecord, thresholds: Option<Thresholds>)
    requires BenchAndStar(bench, star)
    ensures var records := [bench, star];
      var v := BuildNodes(AggregateByTeam(records, thresholds), records);
      |v.nodes| >= 2 && v.nodes[1].category == SalaryKind && v.nodes[1].value == 1
  {
    var records := [bench, star];
    var teams := AggregateByTeam(records, thresholds);
    PairTeam(bench, star, thresholds);
    PairUsedSalaryNames(bench, star, thresholds);
    BuildNodesSalary(teams, records, 0);
    SalaryHighCount(bench, star);
    SalaryLabelIsCategory(records, HighSalary);
  }

  lemma PairOtherNodes(bench: PlayerRecord, star: PlayerRecord, thresholds: Option<Thresholds>)
    requires BenchAndStar(bench, star)
    ensures var records := [bench, star];
      var v := BuildNodes(AggregateByTeam(records, thresholds), records);
      |v.nodes| >= 2 && v.nodes[0].category == TeamKind &&
      forall k :: 2 <= k < |v.nodes| ==> v.nodes[k].category != SalaryKind
  {
    var records := [bench, star];
    var teams := AggregateByTeam(records, thresholds);
    PairTeam(bench, star, thresholds);
    PairUsedSalaryNames(bench, star, thresholds);
    var v := BuildNodes(teams, records);
    BuildNodesLength(teams, records);
    NodeKindAt(teams, records, 0);
    forall k | 2 <= k < |v.nodes| ensures v.nodes[k].category != SalaryKind {
      NodeKindAt(teams, records, k);
    }
  }

  /**
   * In such a year the salary node values add up to 1, while the year has
   * 2 joined players.
   */
  lemma SalaryNodesMissPlayers(bench: PlayerRecord, star: PlayerRecord, thresholds: Option<Thresholds>)
    requires BenchAndStar(bench, star)
    ensures var records := [bench, star];
      var g := SankeyGraph(AggregateByTeam(records, thresholds), records);
      NodesTotal(g.nodes, SalaryKind) == 1 && |records| == 2
  {
    var records := [bench, star];
    var teams := AggregateByTeam(records, thresholds);
    var v := BuildNodes(teams, records);
    PairNodes(bench, star, thresholds);
    NodesTotalPrefix(v.nodes, SalaryKind, 2);
    NodesTotalTwo(v.nodes, SalaryKind);
    assert SankeyGraph(teams, records).nodes == v.nodes;
  }

  lemma NodesTotalTwo(nodes: seq<Node>, kind: NodeKind)
    requires |nodes| >= 2
    ensures NodesTotal(nodes[..2], kind) ==
      (if nodes[0].category == kind then nodes[0].value else 0) + (if nodes[1].category == kind then nodes[1].value else 0)
  {
    var two := nodes[..2];
    assert two[..1] == [nodes[0]];
    assert [nodes[0]][..0] == [];
    assert NodesTotal([nodes[0]], kind) == (if nodes[0].category == kind then nodes[0].value else 0);
    assert NodesTotal(two, kind) == NodesTotal(two[..1], kind) + (if nodes[1].category == kind then nodes[1].value else 0);
  }

  lemma SalaryHighCount(bench: PlayerRecord, star: PlayerRecord)
    requires BenchAndStar(bench, star)
    ensures Filter([bench, star], HasSalaryCategory(HighSalary)) == [star]
  {
    assert [bench, star] == ([] + [bench]) + [star];
    FilterStep([], bench, HasSalaryCategory(HighSalary));
    FilterStep([bench], star, HasSalaryCategory(HighSalary));
  }

  /** Nodes past `m` of another kind add nothing. */
  lemma {:induction false} NodesTotalPrefix(nodes: seq<Node>, kind: NodeKind, m: nat)
    requires m <= |nodes|
    requires forall k :: m <= k < |nodes| ==> nodes[k].category != kind
    ensures NodesTotal(nodes, kind) == NodesTotal(nodes[..m], kind)
    decreases |nodes|
  {
    if |nodes| > m {
      var init := nodes[..|nodes| - 1];
      assert init[..m] == nodes[..m];
      NodesTotalPrefix(init, kind, m);
    } else {
      assert nodes[..m] == nodes;
    }
  }
}
