/**
 * The links half of `processDataForYear` in the player-level engine: one
 * link per flow key whose two endpoints have a node, with the flow count
 * as value, and a `linkDetails` entry per link naming the players behind
 * it; then the whole snapshot graph.
 */
module PlayerLinks {
  import opened Wrappers
  import opened Seqs
  import opened Categories
  import opened Flows
  import opened PlayerJoin
  import opened PlayerTeams
  import opened PlayerGraph

  /** An entry of `links`: node indices and the flow count. */
  datatype Link = Link(source: nat, target: nat, value: nat)

  /** An entry of `linkDetails`. */
  datatype LinkDetail = LinkDetail(
    linkId: nat,
    source: string,
    target: string,
    sourceIndex: nat,
    targetIndex: nat,
    value: nat,
    totalPlayers: nat,
    players: seq<PlayerRecord>)

  /** `links` and `linkDetails`. */
  datatype LinkTable = LinkTable(links: seq<Link>, details: map<nat, LinkDetail>)

  const NoLinks := LinkTable([], map[])

  /** `teams.find(t => t.team_name === name)`: the first team of that name. */
  function FindTeam(teams: seq<TeamAggregate>, name: string): (r: Option<TeamAggregate>)
    ensures r.Some? ==> r.value in teams && r.value.teamName == name
    ensures r.None? <==> forall i :: 0 <= i < |teams| ==> teams[i].teamName != name
    decreases |teams|
  {
    if teams == [] then None
    else if teams[0].teamName == name then Some(teams[0])
    else
      var r := FindTeam(teams[1..], name);
      assert forall i :: 1 <= i < |teams| ==> teams[i] == teams[1..][i - 1];
      r
  }

  /** The team found is the first one of that name. */
  lemma {:induction false} FindTeamFirst(teams: seq<TeamAggregate>, name: string, i: nat)
    requires i < |teams| && teams[i].teamName == name
    requires forall j :: 0 <= j < i ==> teams[j].teamName != name
    ensures FindTeam(teams, name) == Some(teams[i])
    decreases i
  {
    if i > 0 {
      assert teams[1..][i - 1] == teams[i];
      forall j | 0 <= j < i - 1 ensures teams[1..][j].teamName != name {
        assert teams[1..][j] == teams[j + 1];
      }
      FindTeamFirst(teams[1..], name, i - 1);
    }
  }

  /** Players whose own salary and performance names are `source` and `target`. */
  function HasNames(source: string, target: string): PlayerRecord -> bool
  {
    (p: PlayerRecord) => SalaryLabel(p) == source && PerformanceLabel(p) == target
  }

  /** Players with both given player-level categories. */
  function HasCategories(c: SalaryCategory, d: PerformanceCategory): PlayerRecord -> bool
  {
    (p: PlayerRecord) => p.salaryCategory == c && p.performanceCategory == d
  }

  /**
   * The players of a link: for a "Salary" to "Performance" link (told apart
   * by substring), all records with that exact pair of categories;
   * otherwise the players of the first team named `source` whose salary
   * category is `target`, or none when no team has that name.
   */
  function LinkPlayers(source: string, target: string, teams: seq<TeamAggregate>, records: seq<PlayerRecord>): seq<PlayerRecord>
  {
    if Contains(source, "Salary") && Contains(target, "Performance") then
      Filter(records, HasNames(source, target))
    else
      match FindTeam(teams, source)
      case None => []
      case Some(team) => Filter(team.players, LabelIs(SalaryLabel, target))
  }

  /** The link a flow key gets as the `id`-th link. */
  function LinkOf(key: FlowKey, value: nat, index: map<string, nat>): Link
    requires key.0 in index && key.1 in index
  {
    Link(index[key.0], index[key.1], value)
  }

  function LinkDetailOf(id: nat, key: FlowKey, value: nat, index: map<string, nat>,
                        teams: seq<TeamAggregate>, records: seq<PlayerRecord>): LinkDetail
    requires key.0 in index && key.1 in index
  {
    var players := LinkPlayers(key.0, key.1, teams, records);
    LinkDetail(id, key.0, key.1, index[key.0], index[key.1], value, |players|, players)
  }

  /** One iteration of the `Object.keys(flows).forEach`: push a link when both ends have a node. */
  function PushLink(t: LinkTable, key: FlowKey, value: nat, index: map<string, nat>,
                    teams: seq<TeamAggregate>, records: seq<PlayerRecord>): LinkTable
  {
    if key.0 in index && key.1 in index then
      var id := |t.links|;
      LinkTable(t.links + [LinkOf(key, value, index)], t.details[id := LinkDetailOf(id, key, value, index, teams, records)])
    else t
  }

  /** The link table after visiting `keys` in order. */
  function BuildLinks(keys: seq<FlowKey>, f: FlowCounts, index: map<string, nat>,
                      teams: seq<TeamAggregate>, records: seq<PlayerRecord>): LinkTable
    decreases |keys|
  {
    if keys == [] then NoLinks
    else
      var key := keys[|keys| - 1];
      PushLink(BuildLinks(keys[..|keys| - 1], f, index, teams, records), key, CountOf(f, key), index, teams, records)
  }

  /** Visiting one more key pushes its link onto the table of the keys before it. */
  lemma BuildLinksStep(keys: seq<FlowKey>, i: nat, f: FlowCounts, index: map<string, nat>,
                       teams: seq<TeamAggregate>, records: seq<PlayerRecord>)
    requires i < |keys|
    ensures BuildLinks(keys[..i + 1], f, index, teams, records) ==
      PushLink(BuildLinks(keys[..i], f, index, teams, records), keys[i], CountOf(f, keys[i]), index, teams, records)
  {
    TakeStep(keys, i);
  }

  /** Whether both ends of every key have a node. */
  predicate AllIndexed(keys: seq<FlowKey>, index: map<string, nat>)
  {
    forall i :: 0 <= i < |keys| ==> keys[i].0 in index && keys[i].1 in index
  }

  /**
   * With every endpoint indexed, the i-th key becomes link i, its value is
   * the key's count, and its details are filed under id i; there are no
   * other details.
   */
  lemma BuildLinksAll(keys: seq<FlowKey>, f: FlowCounts, index: map<string, nat>,
                      teams: seq<TeamAggregate>, records: seq<PlayerRecord>)
    requires AllIndexed(keys, index)
    ensures var t := BuildLinks(keys, f, index, teams, records);
      |t.links| == |keys| &&
      (forall id: nat :: id in t.details <==> id < |keys|) &&
      (forall i :: 0 <= i < |keys| ==>
        t.links[i] == LinkOf(keys[i], CountOf(f, keys[i]), index) &&
        t.details[i] == LinkDetailOf(i, keys[i], CountOf(f, keys[i]), index, teams, records))
  {
    BuildLinksShape(keys, f, index, teams, records);
    forall i | 0 <= i < |keys|
      ensures var t := BuildLinks(keys, f, index, teams, records);
        t.links[i] == LinkOf(keys[i], CountOf(f, keys[i]), index) &&
        t.details[i] == LinkDetailOf(i, keys[i], CountOf(f, keys[i]), index, teams, records)
    {
      BuildLinksAt(keys, f, index, teams, records, i);
    }
  }

  lemma {:induction false} BuildLinksShape(keys: seq<FlowKey>, f: FlowCounts, index: map<string, nat>,
                                          teams: seq<TeamAggregate>, records: seq<PlayerRecord>)
    requires AllIndexed(keys, index)
    ensures var t := BuildLinks(keys, f, index, teams, records);
      |t.links| == |keys| && (forall id: nat :: id in t.details <==> id < |keys|)
    decreases |keys|
  {
    if keys != [] {
      var init := keys[..|keys| - 1];
      BuildLinksLast(keys, f, index, teams, records);
      BuildLinksShape(init, f, index, teams, records);
      var t0 := BuildLinks(init, f, index, teams, records);
      var t := BuildLinks(keys, f, index, teams, records);
      assert t.details.Keys == t0.details.Keys + {|init|};
    } else {
      assert BuildLinks(keys, f, index, teams, records).details == map[];
    }
  }

  /** The last key, with both ends indexed, pushes one link after those of the earlier keys. */
  lemma BuildLinksLast(keys: seq<FlowKey>, f: FlowCounts, index: map<string, nat>,
                       teams: seq<TeamAggregate>, records: seq<PlayerRecord>)
    requires AllIndexed(keys, index) && keys != []
    ensures var init := keys[..|keys| - 1];
      var key := keys[|keys| - 1];
      var t0 := BuildLinks(init, f, index, teams, records);
      AllIndexed(init, index) && key.0 in index && key.1 in index &&
      BuildLinks(keys, f, index, teams, records) ==
        LinkTable(t0.links + [LinkOf(key, CountOf(f, key), index)],
          t0.details[|t0.links| := LinkDetailOf(|t0.links|, key, CountOf(f, key), index, teams, records)])
  {
    var init := keys[..|keys| - 1];
    forall i | 0 <= i < |init| ensures init[i].0 in index && init[i].1 in index {
      assert init[i] == keys[i];
    }
    assert keys[|keys| - 1].0 in index;
  }

  lemma {:induction false} BuildLinksAt(keys: seq<FlowKey>, f: FlowCounts, index: map<string, nat>,
                                       teams: seq<TeamAggregate>, records: seq<PlayerRecord>, i: nat)
    requires AllIndexed(keys, index) && i < |keys|
    ensures var t := BuildLinks(keys, f, index, teams, records);
      i < |t.links| && i in t.details &&
      t.links[i] == LinkOf(keys[i], CountOf(f, keys[i]), index) &&
      t.details[i] == LinkDetailOf(i, keys[i], CountOf(f, keys[i]), index, teams, records)
    decreases |keys|
  {
    var init := keys[..|keys| - 1];
    BuildLinksLast(keys, f, index, teams, records);
    BuildLinksShape(init, f, index, teams, records);
    var t0 := BuildLinks(init, f, index, teams, records);
    var t := BuildLinks(keys, f, index, teams, records);
    if i < |init| {
      assert init[i] == keys[i];
      BuildLinksAt(init, f, index, teams, records, i);
      assert t.links[i] == t0.links[i] && t.details[i] == t0.details[i];
    }
  }

  /** A link is never pushed for a key with an endpoint that has no node. */
  lemma {:induction false} BuildLinksDropsUnindexed(keys: seq<FlowKey>, f: FlowCounts, index: map<string, nat>,
                                                   teams: seq<TeamAggregate>, records: seq<PlayerRecord>, i: nat)
    requires i < |keys| && (keys[i].0 !in index || keys[i].1 !in index)
    ensures |BuildLinks(keys, f, index, teams, records).links| < |keys|
    decreases |keys|
  {
    var init := keys[..|keys| - 1];
    LinkCountBound(init, f, index, teams, records);
    if i < |init| {
      assert init[i] == keys[i];
      BuildLinksDropsUnindexed(init, f, index, teams, records, i);
    }
  }

  lemma {:induction false} LinkCountBound(keys: seq<FlowKey>, f: FlowCounts, index: map<string, nat>,
                                         teams: seq<TeamAggregate>, records: seq<PlayerRecord>)
    ensures |BuildLinks(keys, f, index, teams, records).links| <= |keys|
    decreases |keys|
  {
    if keys != [] {
      LinkCountBound(keys[..|keys| - 1], f, index, teams, records);
    }
  }

  /** The sum of the values of the links whose target node `into` selects. */
  function LinksTotal(links: seq<Link>, into: nat -> bool): nat
    decreases |links|
  {
    if links == [] then 0
    else
      var l := links[|links| - 1];
      LinksTotal(links[..|links| - 1], into) + (if into(l.target) then l.value else 0)
  }

  function AnyNode(id: nat): bool { true }

  /**
   * When `into` judges a key's target node as `sel` judges the key, the
   * link values `into` selects add up to the counts `sel` selects.
   */
  lemma {:induction false} LinksTotalIsFlowTotal(keys: seq<FlowKey>, f: FlowCounts, index: map<string, nat>,
                                                teams: seq<TeamAggregate>, records: seq<PlayerRecord>,
                                                sel: FlowKey -> bool, into: nat -> bool)
    requires AllIndexed(keys, index)
    requires forall i :: 0 <= i < |keys| ==> (sel(keys[i]) <==> into(index[keys[i].1]))
    requires forall i :: 0 <= i < |keys| ==> keys[i] in f.count
    ensures LinksTotal(BuildLinks(keys, f, index, teams, records).links, into) == SumCounts(keys, f.count, sel)
    decreases |keys|
  {
    if keys != [] {
      var init := keys[..|keys| - 1];
      assert forall i :: 0 <= i < |init| ==> init[i] == keys[i];
      LinksTotalIsFlowTotal(init, f, index, teams, records, sel, into);
      BuildLinksAll(init, f, index, teams, records);
      var t := BuildLinks(keys, f, index, teams, records);
      assert t.links[..|t.links| - 1] == BuildLinks(init, f, index, teams, records).links;
    }
  }

  // ---------------------------------------------------------------- the graph

  /** The snapshot `processDataForYear` returns and keeps in its fields. */
  datatype Graph = Graph(nodes: seq<Node>, links: seq<Link>, nodeDetails: map<nat, NodeDetail>, linkDetails: map<nat, LinkDetail>)

  const EmptyGraph := Graph([], [], map[], map[])

  /** Nodes, then links over the flows of the finished teams. */
  function SankeyGraph(teams: seq<TeamAggregate>, records: seq<PlayerRecord>): Graph
  {
    var v := BuildNodes(teams, records);
    var f := TeamFlows(teams);
    var t := BuildLinks(f.keys, f, v.index, teams, records);
    Graph(v.nodes, t.links, v.details, t.details)
  }

  /** Links into performance nodes: those with an id past the team and salary nodes. */
  function IntoPerformance(firstPerformanceId: nat): nat -> bool
  {
    (id: nat) => id >= firstPerformanceId
  }

  function FirstPerformanceId(teams: seq<TeamAggregate>): nat
  {
    |teams| + |UsedSalaryNames(UsedNames(teams))|
  }

  /** Every flow's endpoints have nodes. */
  lemma FlowsIndexed(teams: seq<TeamAggregate>, records: seq<PlayerRecord>)
    ensures AllIndexed(TeamFlows(teams).keys, BuildNodes(teams, records).index)
  {
    var keys := TeamFlows(teams).keys;
    BuildNodesIndex(teams, records);
    forall i | 0 <= i < |keys| ensures keys[i].0 in BuildNodes(teams, records).index && keys[i].1 in BuildNodes(teams, records).index {
      FlowEndpointsUsed(teams, keys[i]);
    }
  }

  /**
   * Every flow becomes a link: as many links as flow keys, link i carrying
   * the count of key i, details filed under exactly the link ids.
   */
  lemma SankeyLinks(teams: seq<TeamAggregate>, records: seq<PlayerRecord>)
    ensures var g := SankeyGraph(teams, records);
      var f := TeamFlows(teams);
      |g.links| == |f.keys| &&
      (forall id: nat :: id in g.linkDetails <==> id < |g.links|) &&
      (forall i :: 0 <= i < |g.links| ==>
        (g.links[i].value == CountOf(f, f.keys[i]) &&
         g.linkDetails[i].linkId == i &&
         (g.linkDetails[i].source, g.linkDetails[i].target) == f.keys[i] &&
         g.linkDetails[i].value == g.links[i].value &&
         g.linkDetails[i].sourceIndex == g.links[i].source &&
         g.linkDetails[i].targetIndex == g.links[i].target))
  {
    var v := BuildNodes(teams, records);
    var f := TeamFlows(teams);
    FlowsIndexed(teams, records);
    BuildLinksAll(f.keys, f, v.index, teams, records);
  }

  /** A used salary name indexes its salary node, even when a team has that name too. */
  lemma SalaryNameIndex(teams: seq<TeamAggregate>, records: seq<PlayerRecord>, c: SalaryCategory)
    requires SalaryName(c) in UsedNames(teams)
    ensures var v := BuildNodes(teams, records);
      SalaryName(c) in v.index && |teams| <= v.index[SalaryName(c)] < FirstPerformanceId(teams)
  {
    var sp := UsedSalaryNames(UsedNames(teams));
    assert SalaryName(c) in SalaryRanges;
    assert SalaryName(c) in sp;
    var j :| 0 <= j < |sp| && sp[j] == SalaryName(c);
    BuildNodesSalary(teams, records, j);
  }

  /** A used performance name indexes its performance node. */
  lemma PerformanceNameIndex(teams: seq<TeamAggregate>, records: seq<PlayerRecord>, d: PerformanceCategory)
    requires PerformanceName(d) in UsedNames(teams)
    ensures var v := BuildNodes(teams, records);
      PerformanceName(d) in v.index && v.index[PerformanceName(d)] >= FirstPerformanceId(teams)
  {
    var pp := UsedPerformanceNames(UsedNames(teams));
    assert PerformanceName(d) in PerformanceLevels;
    assert PerformanceName(d) in pp;
    var j :| 0 <= j < |pp| && pp[j] == PerformanceName(d);
    BuildNodesPerformance(teams, records, j);
  }

  /** A flow ends at a performance node iff its target is a performance name. */
  lemma TargetIndexKind(teams: seq<TeamAggregate>, records: seq<PlayerRecord>, k: FlowKey)
    requires k in TeamFlows(teams).keys
    ensures var v := BuildNodes(teams, records);
      k.1 in v.index && (TargetsPerformance(k) <==> v.index[k.1] >= FirstPerformanceId(teams))
  {
    FlowEndpointsUsed(teams, k);
    var i := FlowKeyTeam(teams, k);
    if k == TeamToSalary(teams[i]) {
      var c := teams[i].teamSalaryCategory;
      forall d ensures k.1 != PerformanceName(d) {
        CategoryNamesDistinct(c, c, d, d);
      }
      SalaryNameIndex(teams, records, c);
    } else {
      PerformanceNameIndex(teams, records, teams[i].teamPerformanceCategory);
    }
  }

  /**
   * Each team adds one to the value of its team-to-salary link and one to
   * its salary-to-performance link: all link values add up to twice the
   * number of teams, and the values of links into performance nodes to the
   * number of teams.
   */
  lemma SankeyLinkTotals(teams: seq<TeamAggregate>, records: seq<PlayerRecord>)
    ensures var g := SankeyGraph(teams, records);
      LinksTotal(g.links, AnyNode) == 2 * |teams| &&
      LinksTotal(g.links, IntoPerformance(FirstPerformanceId(teams))) == |teams|
  {
    var v := BuildNodes(teams, records);
    var f := TeamFlows(teams);
    FlowsIndexed(teams, records);
    FlowTotals(teams);
    assert forall i :: 0 <= i < |f.keys| ==> f.keys[i] in f.count;
    LinksTotalIsFlowTotal(f.keys, f, v.index, teams, records, AnyKey, AnyNode);
    forall i | 0 <= i < |f.keys|
      ensures TargetsPerformance(f.keys[i]) <==> IntoPerformance(FirstPerformanceId(teams))(v.index[f.keys[i].1])
    {
      TargetIndexKind(teams, records, f.keys[i]);
    }
    LinksTotalIsFlowTotal(f.keys, f, v.index, teams, records, TargetsPerformance, IntoPerformance(FirstPerformanceId(teams)));
  }

  /** Selecting by both category names is selecting by both categories. */
  lemma HasNamesIsCategories(records: seq<PlayerRecord>, c: SalaryCategory, d: PerformanceCategory)
    ensures Filter(records, HasNames(SalaryName(c), PerformanceName(d))) == Filter(records, HasCategories(c, d))
  {
    forall p: PlayerRecord ensures HasNames(SalaryName(c), PerformanceName(d))(p) == HasCategories(c, d)(p) {
      SalaryLabelAt(p, c);
      PerformanceLabelAt(p, d);
    }
    FilterEquiv(records, HasNames(SalaryName(c), PerformanceName(d)), HasCategories(c, d));
  }

  /**
   * A salary-to-performance link's details are all players with exactly
   * that pair of player-level categories, while its value is the number of
   * teams with that pair of team-level categories.
   */
  lemma SalaryToPerformanceDetails(teams: seq<TeamAggregate>, records: seq<PlayerRecord>, i: nat,
                                   c: SalaryCategory, d: PerformanceCategory)
    requires var g := SankeyGraph(teams, records);
      i < |g.links| && i in g.linkDetails &&
      g.linkDetails[i].source == SalaryName(c) && g.linkDetails[i].target == PerformanceName(d)
    ensures var g := SankeyGraph(teams, records);
      g.linkDetails[i].players == Filter(records, HasCategories(c, d)) &&
      g.linkDetails[i].totalPlayers == |Filter(records, HasCategories(c, d))| &&
      g.links[i].value == |Filter(teams, TeamRoutedThrough(c, d))|
  {
    var v := BuildNodes(teams, records);
    var f := TeamFlows(teams);
    FlowsIndexed(teams, records);
    SankeyLinks(teams, records);
    BuildLinksAt(f.keys, f, v.index, teams, records, i);
    SalaryNameSubstrings(c);
    PerformanceNameSubstring(d);
    HasNamesIsCategories(records, c, d);
    SalaryToPerformanceCount(teams, c, d);
  }

  /**
   * A team-to-salary link's details are the players of the first team of
   * the source name whose own salary category is the target's.
   */
  lemma TeamToSalaryDetails(teams: seq<TeamAggregate>, records: seq<PlayerRecord>, i: nat, c: SalaryCategory)
    returns (j: nat)
    requires var g := SankeyGraph(teams, records);
      i < |g.links| && i in g.linkDetails && g.linkDetails[i].target == SalaryName(c)
    ensures var g := SankeyGraph(teams, records);
      j < |teams| && teams[j].teamName == g.linkDetails[i].source &&
      (forall j' :: 0 <= j' < j ==> teams[j'].teamName != g.linkDetails[i].source) &&
      g.linkDetails[i].players == Filter(teams[j].players, HasSalaryCategory(c))
  {
    var g := SankeyGraph(teams, records);
    var f := TeamFlows(teams);
    LinkDetailAt(teams, records, i);
    var k := f.keys[i];
    var n := SalaryTargetFromTeam(teams, k, c);
    j := FirstNamed(teams, k.0, n);
    TeamLinkPlayers(teams, records, k.0, c, j);
  }

  /** The details of link i are those of the i-th flow key. */
  lemma LinkDetailAt(teams: seq<TeamAggregate>, records: seq<PlayerRecord>, i: nat)
    requires i < |SankeyGraph(teams, records).links|
    ensures var g := SankeyGraph(teams, records);
      var f := TeamFlows(teams);
      var v := BuildNodes(teams, records);
      i < |f.keys| && f.keys[i].0 in v.index && f.keys[i].1 in v.index &&
      i in g.linkDetails && g.linkDetails[i] == LinkDetailOf(i, f.keys[i], CountOf(f, f.keys[i]), v.index, teams, records)
  {
    var v := BuildNodes(teams, records);
    var f := TeamFlows(teams);
    FlowsIndexed(teams, records);
    BuildLinksShape(f.keys, f, v.index, teams, records);
    BuildLinksAt(f.keys, f, v.index, teams, records, i);
  }

  /** A flow into a salary name is the team-to-salary flow of some team. */
  lemma SalaryTargetFromTeam(teams: seq<TeamAggregate>, k: FlowKey, c: SalaryCategory) returns (n: nat)
    requires k in TeamFlows(teams).keys && k.1 == SalaryName(c)
    ensures n < |teams| && k == TeamToSalary(teams[n]) && teams[n].teamName == k.0
  {
    n := FlowKeyTeam(teams, k);
    CategoryNamesDistinct(c, c, teams[n].teamPerformanceCategory, teams[n].teamPerformanceCategory);
  }

  /** The players `LinkPlayers` gives a team-to-salary pair. */
  lemma TeamLinkPlayers(teams: seq<TeamAggregate>, records: seq<PlayerRecord>, name: string, c: SalaryCategory, j: nat)
    requires j < |teams| && teams[j].teamName == name
    requires forall j' :: 0 <= j' < j ==> teams[j'].teamName != name
    ensures LinkPlayers(name, SalaryName(c), teams, records) == Filter(teams[j].players, HasSalaryCategory(c))
  {
    SalaryNameSubstrings(c);
    FindTeamFirst(teams, name, j);
    SalaryLabelIsCategory(teams[j].players, c);
  }

  /** The first index whose team has the given name, given some team has it. */
  lemma {:induction false} FirstNamed(teams: seq<TeamAggregate>, name: string, n: nat) returns (j: nat)
    requires n < |teams| && teams[n].teamName == name
    ensures j <= n && teams[j].teamName == name
    ensures forall j' :: 0 <= j' < j ==> teams[j'].teamName != name
    decreases n
  {
    if exists m :: 0 <= m < n && teams[m].teamName == name {
      var m :| 0 <= m < n && teams[m].teamName == name;
      j := FirstNamed(teams, name, m);
    } else {
      j := n;
    }
  }
}
