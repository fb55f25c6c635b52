/**
 * The graph half of `processDataForYear` in the player-level engine: the
 * flow counts between team, salary and performance names, the node list
 * with consecutive ids and its `nodeDetails`, and the link list with its
 * `linkDetails`.
 *
 * Everything here is a function of the finished teams (in
 * `Object.values` order) and the classified player records; the
 * imperative version in `PlayerProcessor` is proved equal to it.
 */
module PlayerGraph {
  import opened Wrappers
  import opened Seqs
  import opened Categories
  import opened Flows
  import opened PlayerJoin
  import opened PlayerTeams

  // ---------------------------------------------------------------- flows

  /** The flow `${teamName}->${salaryCategory}` of a team. */
  function TeamToSalary(t: TeamAggregate): FlowKey
  {
    (t.teamName, SalaryName(t.teamSalaryCategory))
  }

  /** The flow `${salaryCategory}->${performanceCategory}` of a team. */
  function SalaryToPerformance(t: TeamAggregate): FlowKey
  {
    (SalaryName(t.teamSalaryCategory), PerformanceName(t.teamPerformanceCategory))
  }

  /** The `flows` dictionary after the `teams.forEach`: two bumps per team. */
  function TeamFlows(teams: seq<TeamAggregate>): (f: FlowCounts)
    ensures Valid(f)
    decreases |teams|
  {
    if teams == [] then NoFlows
    else
      var t := teams[|teams| - 1];
      Bump(Bump(TeamFlows(teams[..|teams| - 1]), TeamToSalary(t)), SalaryToPerformance(t))
  }

  /** Whether a team's team-to-salary flow, or its salary-to-performance flow, is `k`. */
  function EmitsTeamToSalary(k: FlowKey): TeamAggregate -> bool
  {
    (t: TeamAggregate) => TeamToSalary(t) == k
  }

  function EmitsSalaryToPerformance(k: FlowKey): TeamAggregate -> bool
  {
    (t: TeamAggregate) => SalaryToPerformance(t) == k
  }

  /** A flow's count is the number of teams that emit it. */
  lemma {:induction false} FlowCountIsTeamCount(teams: seq<TeamAggregate>, k: FlowKey)
    ensures CountOf(TeamFlows(teams), k) ==
      |Filter(teams, EmitsTeamToSalary(k))| + |Filter(teams, EmitsSalaryToPerformance(k))|
    decreases |teams|
  {
    if teams != [] {
      var init := teams[..|teams| - 1];
      var t := teams[|teams| - 1];
      assert teams == init + [t];
      FlowCountIsTeamCount(init, k);
      FilterStep(init, t, EmitsTeamToSalary(k));
      FilterStep(init, t, EmitsSalaryToPerformance(k));
    }
  }

  /**
   * The count of a salary-to-performance flow is the number of TEAMS
   * routed through that pair of team-level categories (not a number of
   * players).
   */
  lemma SalaryToPerformanceCount(teams: seq<TeamAggregate>, c: SalaryCategory, d: PerformanceCategory)
    ensures CountOf(TeamFlows(teams), (SalaryName(c), PerformanceName(d))) ==
      |Filter(teams, TeamRoutedThrough(c, d))|
  {
    var k := (SalaryName(c), PerformanceName(d));
    FlowCountIsTeamCount(teams, k);
    forall t: TeamAggregate ensures !EmitsTeamToSalary(k)(t) {
      CategoryNamesDistinct(t.teamSalaryCategory, c, d, d);
    }
    FilterNone(teams, EmitsTeamToSalary(k));
    forall t: TeamAggregate ensures EmitsSalaryToPerformance(k)(t) == TeamRoutedThrough(c, d)(t) {
      CategoryNamesDistinct(t.teamSalaryCategory, c, t.teamPerformanceCategory, d);
    }
    FilterEquiv(teams, EmitsSalaryToPerformance(k), TeamRoutedThrough(c, d));
  }

  function TeamRoutedThrough(c: SalaryCategory, d: PerformanceCategory): TeamAggregate -> bool
  {
    (t: TeamAggregate) => t.teamSalaryCategory == c && t.teamPerformanceCategory == d
  }

  /** Whether a flow ends at a performance name. */
  predicate TargetsPerformance(k: FlowKey)
  {
    exists d :: k.1 == PerformanceName(d)
  }

  /**
   * Each team adds exactly one to the flow counts in total per flow kind:
   * all counts add up to twice the number of teams, and the
   * salary-to-performance counts alone to the number of teams.
   */
  lemma {:induction false} FlowTotals(teams: seq<TeamAggregate>)
    ensures Total(TeamFlows(teams)) == 2 * |teams|
    ensures TotalWhere(TeamFlows(teams), TargetsPerformance) == |teams|
    decreases |teams|
  {
    if teams != [] {
      var init := teams[..|teams| - 1];
      var t := teams[|teams| - 1];
      FlowTotals(init);
      var f := TeamFlows(init);
      BumpTotal(f, TeamToSalary(t), AnyKey);
      BumpTotal(Bump(f, TeamToSalary(t)), SalaryToPerformance(t), AnyKey);
      BumpTotal(f, TeamToSalary(t), TargetsPerformance);
      BumpTotal(Bump(f, TeamToSalary(t)), SalaryToPerformance(t), TargetsPerformance);
      if TargetsPerformance(TeamToSalary(t)) {
        var d :| SalaryName(t.teamSalaryCategory) == PerformanceName(d);
        CategoryNamesDistinct(t.teamSalaryCategory, t.teamSalaryCategory, d, d);
      }
    }
  }

  /** Every flow key is the team-to-salary or the salary-to-performance flow of some team `i`. */
  lemma {:induction false} FlowKeyTeam(teams: seq<TeamAggregate>, k: FlowKey) returns (i: nat)
    requires k in TeamFlows(teams).keys
    ensures i < |teams| && (k == TeamToSalary(teams[i]) || k == SalaryToPerformance(teams[i]))
    decreases |teams|
  {
    NoTeamsNoFlows(teams);
    var last := |teams| - 1;
    if k == TeamToSalary(teams[last]) || k == SalaryToPerformance(teams[last]) {
      i := last;
    } else {
      FlowKeyEarlier(teams, k);
      i := FlowKeyTeam(teams[..last], k);
      assert teams[..last][i] == teams[i];
    }
  }

  lemma NoTeamsNoFlows(teams: seq<TeamAggregate>)
    ensures teams == [] ==> TeamFlows(teams).keys == []
  {
  }

  /** A flow key that is neither key of the last team is a key of the earlier teams. */
  lemma FlowKeyEarlier(teams: seq<TeamAggregate>, k: FlowKey)
    requires teams != [] && k in TeamFlows(teams).keys
    requires k != TeamToSalary(teams[|teams| - 1]) && k != SalaryToPerformance(teams[|teams| - 1])
    ensures k in TeamFlows(teams[..|teams| - 1]).keys
  {
    var t := teams[|teams| - 1];
    var f := TeamFlows(teams[..|teams| - 1]);
    var f1 := Bump(f, TeamToSalary(t));
    assert TeamFlows(teams) == Bump(f1, SalaryToPerformance(t));
    BumpKeyFrom(f1, SalaryToPerformance(t), k);
    BumpKeyFrom(f, TeamToSalary(t), k);
  }

  // ---------------------------------------------------------------- used names

  /** The `usedNodes` set: every team name and both team-level category names. */
  function UsedNames(teams: seq<TeamAggregate>): set<string>
    decreases |teams|
  {
    if teams == [] then {}
    else
      var t := teams[|teams| - 1];
      UsedNames(teams[..|teams| - 1]) +
        {t.teamName, SalaryName(t.teamSalaryCategory), PerformanceName(t.teamPerformanceCategory)}
  }

  /** The names one team puts in `usedNodes`. */
  predicate NamedBy(t: TeamAggregate, name: string)
  {
    name == t.teamName || name == SalaryName(t.teamSalaryCategory) || name == PerformanceName(t.teamPerformanceCategory)
  }

  lemma {:induction false} UsedNamesSpec(teams: seq<TeamAggregate>, name: string)
    ensures name in UsedNames(teams) <==> exists i :: 0 <= i < |teams| && NamedBy(teams[i], name)
    decreases |teams|
  {
    if teams != [] {
      var init := teams[..|teams| - 1];
      UsedNamesSpec(init, name);
      if exists i :: 0 <= i < |teams| && NamedBy(teams[i], name) {
        var i :| 0 <= i < |teams| && NamedBy(teams[i], name);
        if i < |init| {
          assert init[i] == teams[i];
        }
      }
    }
  }

  /** Both endpoints of every flow are used names. */
  lemma FlowEndpointsUsed(teams: seq<TeamAggregate>, k: FlowKey)
    requires k in TeamFlows(teams).keys
    ensures k.0 in UsedNames(teams) && k.1 in UsedNames(teams)
  {
    var i := FlowKeyTeam(teams, k);
    UsedNamesSpec(teams, k.0);
    UsedNamesSpec(teams, k.1);
    assert NamedBy(teams[i], k.0) && NamedBy(teams[i], k.1);
  }

  /** No team is named like one of the six category nodes. */
  predicate NoCategoryTeamNames(teams: seq<TeamAggregate>)
  {
    forall i :: 0 <= i < |teams| ==> !IsCategoryName(teams[i].teamName)
  }

  /**
   * A salary name is used iff some team has that team-level salary
   * category or is itself named so; without such team names, iff some
   * team has that category.
   */
  lemma SalaryNameUsed(teams: seq<TeamAggregate>, c: SalaryCategory)
    ensures SalaryName(c) in UsedNames(teams) <==>
      exists i :: 0 <= i < |teams| && (teams[i].teamSalaryCategory == c || teams[i].teamName == SalaryName(c))
    ensures NoCategoryTeamNames(teams) ==>
      (SalaryName(c) in UsedNames(teams) <==> exists i :: 0 <= i < |teams| && teams[i].teamSalaryCategory == c)
  {
    UsedNamesSpec(teams, SalaryName(c));
    forall i | 0 <= i < |teams|
      ensures NamedBy(teams[i], SalaryName(c)) <==> (teams[i].teamSalaryCategory == c || teams[i].teamName == SalaryName(c))
    {
      CategoryNamesDistinct(c, teams[i].teamSalaryCategory, teams[i].teamPerformanceCategory, teams[i].teamPerformanceCategory);
    }
  }

  /** The same for a performance name. */
  lemma PerformanceNameUsed(teams: seq<TeamAggregate>, d: PerformanceCategory)
    ensures PerformanceName(d) in UsedNames(teams) <==>
      exists i :: 0 <= i < |teams| && (teams[i].teamPerformanceCategory == d || teams[i].teamName == PerformanceName(d))
    ensures NoCategoryTeamNames(teams) ==>
      (PerformanceName(d) in UsedNames(teams) <==> exists i :: 0 <= i < |teams| && teams[i].teamPerformanceCategory == d)
  {
    UsedNamesSpec(teams, PerformanceName(d));
    forall i | 0 <= i < |teams|
      ensures NamedBy(teams[i], PerformanceName(d)) <==> (teams[i].teamPerformanceCategory == d || teams[i].teamName == PerformanceName(d))
    {
      CategoryNamesDistinct(teams[i].teamSalaryCategory, teams[i].teamSalaryCategory, d, teams[i].teamPerformanceCategory);
      CategoryNamesDistinct(teams[i].teamSalaryCategory, teams[i].teamSalaryCategory, teams[i].teamPerformanceCategory, d);
    }
  }

  // ---------------------------------------------------------------- nodes

  /** The node `category` field: 'team', 'salary' or 'performance'. */
  datatype NodeKind = TeamKind | SalaryKind | PerformanceKind

  /** An entry of `nodes`. */
  datatype Node = Node(id: nat, name: string, category: NodeKind, value: nat)

  /** The fields only a team node's details carry. */
  datatype TeamInfo = TeamInfo(teamId: string, avgSalary: real, avgPerformanceScore: real)

  /** An entry of `nodeDetails`. */
  datatype NodeDetail = NodeDetail(
    nodeId: nat,
    nodeName: string,
    nodeCategory: NodeKind,
    team: Option<TeamInfo>,
    totalPlayers: nat,
    players: seq<PlayerRecord>)

  /** `nodes`, `nodeDetails` and the local `nodeIndex` (name to id, last write wins). */
  datatype NodeTable = NodeTable(nodes: seq<Node>, details: map<nat, NodeDetail>, index: map<string, nat>)

  const NoNodes := NodeTable([], map[], map[])

  /** One `nodes.push`, `nodeDetails[index] = ...` and `nodeIndex[name] = index++`. */
  function PushNode(t: NodeTable, name: string, kind: NodeKind, team: Option<TeamInfo>, players: seq<PlayerRecord>): NodeTable
  {
    var id := |t.nodes|;
    NodeTable(t.nodes + [Node(id, name, kind, |players|)],
      t.details[id := NodeDetail(id, name, kind, team, |players|, players)],
      t.index[name := id])
  }

  /** A detail record agrees with its node. */
  predicate DetailOf(d: NodeDetail, n: Node)
  {
    d.nodeId == n.id && d.nodeName == n.name && d.nodeCategory == n.category &&
    d.totalPlayers == n.value && |d.players| == n.value
  }

  /**
   * The table invariant: ids are 0..n-1 in list order, exactly those ids
   * have details matching their node, and every name in the index points
   * at a node of that name and every node's name is indexed.
   */
  ghost predicate TableValid(t: NodeTable)
  {
    NodesNumbered(t) && DetailsInRange(t) && IndexSound(t) && NamesIndexed(t)
  }

  /** Node k has id k and a detail record under k that agrees with it. */
  ghost predicate NodesNumbered(t: NodeTable)
  {
    forall k :: 0 <= k < |t.nodes| ==> t.nodes[k].id == k && k in t.details && DetailOf(t.details[k], t.nodes[k])
  }

  ghost predicate DetailsInRange(t: NodeTable)
  {
    forall id :: id in t.details ==> id < |t.nodes|
  }

  /** Every indexed name points at a node of that name. */
  ghost predicate IndexSound(t: NodeTable)
  {
    forall name :: name in t.index ==> t.index[name] < |t.nodes| && t.nodes[t.index[name]].name == name
  }

  ghost predicate NamesIndexed(t: NodeTable)
  {
    forall k :: 0 <= k < |t.nodes| ==> t.nodes[k].name in t.index
  }

  lemma PushNodeValid(t: NodeTable, name: string, kind: NodeKind, team: Option<TeamInfo>, players: seq<PlayerRecord>)
    requires TableValid(t)
    ensures TableValid(PushNode(t, name, kind, team, players))
  {
    PushNumbered(t, name, kind, team, players);
    PushDetailsInRange(t, name, kind, team, players);
    PushIndexSound(t, name, kind, team, players);
    PushNamesIndexed(t, name, kind, team, players);
  }

  lemma PushNumbered(t: NodeTable, name: string, kind: NodeKind, team: Option<TeamInfo>, players: seq<PlayerRecord>)
    requires NodesNumbered(t)
    ensures NodesNumbered(PushNode(t, name, kind, team, players))
  {
    var u := PushNode(t, name, kind, team, players);
    forall k | 0 <= k < |u.nodes| ensures u.nodes[k].id == k && k in u.details && DetailOf(u.details[k], u.nodes[k]) {
      if k < |t.nodes| {
        assert u.nodes[k] == t.nodes[k] && u.details[k] == t.details[k];
      }
    }
  }

  lemma PushDetailsInRange(t: NodeTable, name: string, kind: NodeKind, team: Option<TeamInfo>, players: seq<PlayerRecord>)
    requires DetailsInRange(t)
    ensures DetailsInRange(PushNode(t, name, kind, team, players))
  {
  }

  lemma PushIndexSound(t: NodeTable, name: string, kind: NodeKind, team: Option<TeamInfo>, players: seq<PlayerRecord>)
    requires IndexSound(t)
    ensures IndexSound(PushNode(t, name, kind, team, players))
  {
    var u := PushNode(t, name, kind, team, players);
    forall n | n in u.index ensures u.index[n] < |u.nodes| && u.nodes[u.index[n]].name == n {
      if n != name {
        assert u.index[n] == t.index[n];
        assert u.nodes[t.index[n]] == t.nodes[t.index[n]];
      }
    }
  }

  lemma PushNamesIndexed(t: NodeTable, name: string, kind: NodeKind, team: Option<TeamInfo>, players: seq<PlayerRecord>)
    requires NamesIndexed(t)
    ensures NamesIndexed(PushNode(t, name, kind, team, players))
  {
    var u := PushNode(t, name, kind, team, players);
    forall k | 0 <= k < |u.nodes| ensures u.nodes[k].name in u.index {
      if k < |t.nodes| {
        assert u.nodes[k] == t.nodes[k];
      }
    }
  }

  /** The team nodes: one per team whose name is used, in team order. */
  function TeamNodes(teams: seq<TeamAggregate>, used: set<string>): NodeTable
    decreases |teams|
  {
    if teams == [] then NoNodes
    else
      var t := TeamNodes(teams[..|teams| - 1], used);
      var team := teams[|teams| - 1];
      if team.teamName in used then
        PushNode(t, team.teamName, TeamKind, Some(TeamInfo(team.teamId, team.avgSalary, team.avgPerformanceScore)), team.players)
      else t
  }

  /** The node team `team` gets when it is the k-th node. */
  function TeamNode(k: nat, team: TeamAggregate): Node
  {
    Node(k, team.teamName, TeamKind, |team.players|)
  }

  function TeamNodeDetail(k: nat, team: TeamAggregate): NodeDetail
  {
    NodeDetail(k, team.teamName, TeamKind, Some(TeamInfo(team.teamId, team.avgSalary, team.avgPerformanceScore)),
      |team.players|, team.players)
  }

  /**
   * When every team name is used (as it always is), team k is node k with
   * the team's player count as value and its players as details, and the
   * index holds exactly the team names.
   */
  lemma TeamNodesShape(teams: seq<TeamAggregate>, used: set<string>)
    requires forall i :: 0 <= i < |teams| ==> teams[i].teamName in used
    ensures var t := TeamNodes(teams, used);
      TableValid(t) && |t.nodes| == |teams| &&
      (forall k :: 0 <= k < |teams| ==> t.nodes[k] == TeamNode(k, teams[k]) && t.details[k] == TeamNodeDetail(k, teams[k])) &&
      (forall name :: name in t.index <==> exists i :: 0 <= i < |teams| && teams[i].teamName == name)
  {
    TeamNodesValid(teams, used);
    TeamNodesList(teams, used);
    TeamNodesIndex(teams, used);
  }

  lemma {:induction false} TeamNodesValid(teams: seq<TeamAggregate>, used: set<string>)
    ensures TableValid(TeamNodes(teams, used))
    decreases |teams|
  {
    if teams != [] {
      var init := teams[..|teams| - 1];
      var team := teams[|teams| - 1];
      TeamNodesValid(init, used);
      PushNodeValid(TeamNodes(init, used), team.teamName, TeamKind,
        Some(TeamInfo(team.teamId, team.avgSalary, team.avgPerformanceScore)), team.players);
    }
  }

  lemma {:induction false} TeamNodesList(teams: seq<TeamAggregate>, used: set<string>)
    requires forall i :: 0 <= i < |teams| ==> teams[i].teamName in used
    ensures var t := TeamNodes(teams, used);
      |t.nodes| == |teams| &&
      forall k :: 0 <= k < |teams| ==> t.nodes[k] == TeamNode(k, teams[k]) && k in t.details && t.details[k] == TeamNodeDetail(k, teams[k])
    decreases |teams|
  {
    if teams != [] {
      var init := teams[..|teams| - 1];
      TeamNodesList(init, used);
      var t := TeamNodes(teams, used);
      forall k | 0 <= k < |init|
        ensures t.nodes[k] == TeamNode(k, teams[k]) && k in t.details && t.details[k] == TeamNodeDetail(k, teams[k])
      {
        assert init[k] == teams[k];
      }
    }
  }

  lemma {:induction false} TeamNodesIndex(teams: seq<TeamAggregate>, used: set<string>)
    requires forall i :: 0 <= i < |teams| ==> teams[i].teamName in used
    ensures forall name :: name in TeamNodes(teams, used).index <==> exists i :: 0 <= i < |teams| && teams[i].teamName == name
    decreases |teams|
  {
    if teams != [] {
      var init := teams[..|teams| - 1];
      TeamNodesIndex(init, used);
      var t0 := TeamNodes(init, used);
      var t := TeamNodes(teams, used);
      forall name ensures name in t.index <==> exists i :: 0 <= i < |teams| && teams[i].teamName == name {
        if exists i :: 0 <= i < |teams| && teams[i].teamName == name {
          var i :| 0 <= i < |teams| && teams[i].teamName == name;
          if i < |init| {
            assert init[i] == teams[i];
          }
        }
        if name in t0.index {
          var i :| 0 <= i < |init| && init[i].teamName == name;
          assert teams[i] == init[i];
        }
      }
    }
  }

  function LabelIs(nameOf: PlayerRecord -> string, name: string): PlayerRecord -> bool
  {
    (p: PlayerRecord) => nameOf(p) == name
  }

  function SalaryLabel(p: PlayerRecord): string { SalaryName(p.salaryCategory) }
  function PerformanceLabel(p: PlayerRecord): string { PerformanceName(p.performanceCategory) }

  function InSet(used: set<string>): string -> bool
  {
    (name: string) => name in used
  }

  /**
   * The category nodes: for each name whose node is used, in list order, a
   * node counting the records whose category name (`nameOf`) it is.
   */
  function CategoryNodes(t: NodeTable, names: seq<string>, kind: NodeKind, used: set<string>,
                         records: seq<PlayerRecord>, nameOf: PlayerRecord -> string): NodeTable
    decreases |names|
  {
    if names == [] then t
    else
      var u := CategoryNodes(t, names[..|names| - 1], kind, used, records, nameOf);
      var name := names[|names| - 1];
      if name in used then PushNode(u, name, kind, None, Filter(records, LabelIs(nameOf, name))) else u
  }

  function CategoryNode(k: nat, name: string, kind: NodeKind, records: seq<PlayerRecord>, nameOf: PlayerRecord -> string): Node
  {
    Node(k, name, kind, |Filter(records, LabelIs(nameOf, name))|)
  }

  function CategoryNodeDetail(k: nat, name: string, kind: NodeKind, records: seq<PlayerRecord>, nameOf: PlayerRecord -> string): NodeDetail
  {
    NodeDetail(k, name, kind, None, |Filter(records, LabelIs(nameOf, name))|, Filter(records, LabelIs(nameOf, name)))
  }

  /** Node `id` of `u` is the category node of `name`, with its details. */
  predicate CategoryAt(u: NodeTable, id: nat, name: string, kind: NodeKind, records: seq<PlayerRecord>,
                       nameOf: PlayerRecord -> string)
  {
    id < |u.nodes| && u.nodes[id] == CategoryNode(id, name, kind, records, nameOf) &&
    id in u.details && u.details[id] == CategoryNodeDetail(id, name, kind, records, nameOf)
  }

  /** What a category node at `id` carries: its name, and as value and players the records labelled with it. */
  lemma CategoryAtFacts(u: NodeTable, id: nat, name: string, kind: NodeKind, records: seq<PlayerRecord>,
                        nameOf: PlayerRecord -> string)
    requires CategoryAt(u, id, name, kind, records, nameOf)
    ensures id < |u.nodes| && u.nodes[id].name == name && u.nodes[id].category == kind
    ensures u.nodes[id].value == |Filter(records, LabelIs(nameOf, name))|
    ensures id in u.details && u.details[id].players == Filter(records, LabelIs(nameOf, name))
  {
  }

  /** A kept name is a used one. */
  lemma UsedNameAt(names: seq<string>, used: set<string>, j: nat)
    requires j < |Filter(names, InSet(used))|
    ensures Filter(names, InSet(used))[j] in used
  {
    assert InSet(used)(Filter(names, InSet(used))[j]);
  }

  /** ... and `name` is indexed at it. */
  predicate IndexedCategoryAt(u: NodeTable, id: nat, name: string, kind: NodeKind, records: seq<PlayerRecord>,
                              nameOf: PlayerRecord -> string)
  {
    CategoryAt(u, id, name, kind, records, nameOf) && name in u.index && u.index[name] == id
  }

  /** Pushing a category node keeps every earlier one. */
  lemma PushKeepsCategory(t: NodeTable, name: string, kind: NodeKind, records: seq<PlayerRecord>,
                          nameOf: PlayerRecord -> string, id: nat, other: string, kind0: NodeKind)
    requires CategoryAt(t, id, other, kind0, records, nameOf)
    ensures CategoryAt(PushNode(t, name, kind, None, Filter(records, LabelIs(nameOf, name))), id, other, kind0, records, nameOf)
  {
    var u := PushNode(t, name, kind, None, Filter(records, LabelIs(nameOf, name)));
    assert u.nodes[id] == t.nodes[id];
  }

  /** The pushed category node is the last one. */
  lemma PushAddsCategory(t: NodeTable, name: string, kind: NodeKind, records: seq<PlayerRecord>,
                         nameOf: PlayerRecord -> string)
    ensures CategoryAt(PushNode(t, name, kind, None, Filter(records, LabelIs(nameOf, name))), |t.nodes|, name, kind, records, nameOf)
  {
  }

  /**
   * A category stage appends one node per used name, in list order, keeps
   * every earlier node and detail, and indexes the names it appends.
   */
  lemma CategoryNodesShape(t: NodeTable, names: seq<string>, kind: NodeKind, used: set<string>,
                           records: seq<PlayerRecord>, nameOf: PlayerRecord -> string)
    requires TableValid(t) && NoDup(names)
    ensures var u := CategoryNodes(t, names, kind, used, records, nameOf);
      var kept := Filter(names, InSet(used));
      var n := |t.nodes|;
      TableValid(u) && |u.nodes| == n + |kept| && u.nodes[..n] == t.nodes &&
      (forall id :: 0 <= id < n ==> u.details[id] == t.details[id]) &&
      (forall k :: 0 <= k < |kept| ==>
        CategoryAt(u, n + k, kept[k], kind, records, nameOf) && kept[k] in u.index && u.index[kept[k]] == n + k) &&
      (forall name :: name in u.index <==> name in t.index || name in kept) &&
      (forall name :: name in t.index && name !in kept ==> u.index[name] == t.index[name])
  {
    CategoryNodesValid(t, names, kind, used, records, nameOf);
    CategoryNodesList(t, names, kind, used, records, nameOf);
    CategoryNodesIndex(t, names, kind, used, records, nameOf);
  }

  lemma {:induction false} CategoryNodesValid(t: NodeTable, names: seq<string>, kind: NodeKind, used: set<string>,
                                             records: seq<PlayerRecord>, nameOf: PlayerRecord -> string)
    requires TableValid(t)
    ensures TableValid(CategoryNodes(t, names, kind, used, records, nameOf))
    decreases |names|
  {
    if names != [] {
      var init := names[..|names| - 1];
      var name := names[|names| - 1];
      CategoryNodesValid(t, init, kind, used, records, nameOf);
      PushNodeValid(CategoryNodes(t, init, kind, used, records, nameOf), name, kind, None, Filter(records, LabelIs(nameOf, name)));
    }
  }

  lemma CategoryNodesList(t: NodeTable, names: seq<string>, kind: NodeKind, used: set<string>,
                          records: seq<PlayerRecord>, nameOf: PlayerRecord -> string)
    requires TableValid(t)
    ensures var u := CategoryNodes(t, names, kind, used, records, nameOf);
      var kept := Filter(names, InSet(used));
      var n := |t.nodes|;
      |u.nodes| == n + |kept| && u.nodes[..n] == t.nodes &&
      (forall id :: 0 <= id < n ==> id in u.details && u.details[id] == t.details[id]) &&
      (forall k :: 0 <= k < |kept| ==> CategoryAt(u, n + k, kept[k], kind, records, nameOf))
  {
    CategoryNodesPrefix(t, names, kind, used, records, nameOf);
    CategoryNodesAppended(t, names, kind, used, records, nameOf);
    assert forall id :: 0 <= id < |t.nodes| ==> id in t.details;
  }

  lemma {:induction false} CategoryNodesPrefix(t: NodeTable, names: seq<string>, kind: NodeKind, used: set<string>,
                                              records: seq<PlayerRecord>, nameOf: PlayerRecord -> string)
    ensures var u := CategoryNodes(t, names, kind, used, records, nameOf);
      var n := |t.nodes|;
      |u.nodes| >= n && u.nodes[..n] == t.nodes &&
      (forall id :: id in t.details && id < n ==> id in u.details && u.details[id] == t.details[id])
    decreases |names|
  {
    if names != [] {
      var init := names[..|names| - 1];
      CategoryNodesPrefix(t, init, kind, used, records, nameOf);
      var u0 := CategoryNodes(t, init, kind, used, records, nameOf);
      var u := CategoryNodes(t, names, kind, used, records, nameOf);
      assert u.nodes[..|t.nodes|] == u0.nodes[..|t.nodes|];
    }
  }

  lemma CategoryNodesAppended(t: NodeTable, names: seq<string>, kind: NodeKind, used: set<string>,
                              records: seq<PlayerRecord>, nameOf: PlayerRecord -> string)
    ensures var u := CategoryNodes(t, names, kind, used, records, nameOf);
      var kept := Filter(names, InSet(used));
      |u.nodes| == |t.nodes| + |kept| &&
      forall k :: 0 <= k < |kept| ==> CategoryAt(u, |t.nodes| + k, kept[k], kind, records, nameOf)
  {
    LengthOfCategoryNodes(t, names, kind, used, records, nameOf);
    forall k | 0 <= k < |Filter(names, InSet(used))|
      ensures CategoryAt(CategoryNodes(t, names, kind, used, records, nameOf), |t.nodes| + k, Filter(names, InSet(used))[k], kind, records, nameOf)
    {
      CategoryNodeKept(t, names, kind, used, records, nameOf, k);
    }
  }

  /** The k-th kept name's node is node `|t.nodes| + k` of the stage. */
  lemma {:induction false} CategoryNodeKept(t: NodeTable, names: seq<string>, kind: NodeKind, used: set<string>,
                                           records: seq<PlayerRecord>, nameOf: PlayerRecord -> string, k: nat)
    requires k < |Filter(names, InSet(used))|
    ensures CategoryAt(CategoryNodes(t, names, kind, used, records, nameOf), |t.nodes| + k, Filter(names, InSet(used))[k], kind, records, nameOf)
    decreases |names|
  {
    var init := names[..|names| - 1];
    var name := names[|names| - 1];
    var u0 := CategoryNodes(t, init, kind, used, records, nameOf);
    var kept0 := Filter(init, InSet(used));
    LengthOfCategoryNodes(t, init, kind, used, records, nameOf);
    if k < |kept0| {
      CategoryNodeKept(t, init, kind, used, records, nameOf, k);
      if name in used {
        PushKeepsCategory(u0, name, kind, records, nameOf, |t.nodes| + k, kept0[k], kind);
      }
    } else {
      PushAddsCategory(u0, name, kind, records, nameOf);
    }
  }

  lemma {:induction false} CategoryNodesIndex(t: NodeTable, names: seq<string>, kind: NodeKind, used: set<string>,
                                             records: seq<PlayerRecord>, nameOf: PlayerRecord -> string)
    requires NoDup(names)
    ensures var u := CategoryNodes(t, names, kind, used, records, nameOf);
      var kept := Filter(names, InSet(used));
      var n := |t.nodes|;
      (forall k :: 0 <= k < |kept| ==> kept[k] in u.index && u.index[kept[k]] == n + k) &&
      (forall name :: name in u.index <==> name in t.index || name in kept) &&
      (forall name :: name in t.index && name !in kept ==> u.index[name] == t.index[name])
    decreases |names|
  {
    if names != [] {
      var init := names[..|names| - 1];
      var name := names[|names| - 1];
      assert names == init + [name];
      assert NoDup(init);
      CategoryNodesIndex(t, init, kind, used, records, nameOf);
      LengthOfCategoryNodes(t, init, kind, used, records, nameOf);
      FilterStep(init, name, InSet(used));
      assert name !in init;
      assert name !in Filter(init, InSet(used));
    }
  }

  lemma {:induction false} LengthOfCategoryNodes(t: NodeTable, names: seq<string>, kind: NodeKind, used: set<string>,
                                                records: seq<PlayerRecord>, nameOf: PlayerRecord -> string)
    ensures |CategoryNodes(t, names, kind, used, records, nameOf).nodes| == |t.nodes| + |Filter(names, InSet(used))|
    decreases |names|
  {
    if names != [] {
      var init := names[..|names| - 1];
      LengthOfCategoryNodes(t, init, kind, used, records, nameOf);
      FilterStep(init, names[|names| - 1], InSet(used));
      assert names == init + [names[|names| - 1]];
    }
  }

  /** The three salary range names, in the order their nodes are materialised. */
  const SalaryRanges: seq<string> := [SalaryName(LowSalary), SalaryName(MediumSalary), SalaryName(HighSalary)]
  /** The three performance level names, likewise. */
  const PerformanceLevels: seq<string> :=
    [PerformanceName(LowPerformance), PerformanceName(MediumPerformance), PerformanceName(HighPerformance)]

  /** Each salary category's name is one of the salary range names. */
  lemma SalaryNameListed(c: SalaryCategory)
    ensures SalaryName(c) in SalaryRanges
  {
    match c
    case LowSalary => assert SalaryRanges[0] == SalaryName(c);
    case MediumSalary => assert SalaryRanges[1] == SalaryName(c);
    case HighSalary => assert SalaryRanges[2] == SalaryName(c);
  }

  /** Each performance category's name is one of the performance level names. */
  lemma PerformanceNameListed(d: PerformanceCategory)
    ensures PerformanceName(d) in PerformanceLevels
  {
    match d
    case LowPerformance => assert PerformanceLevels[0] == PerformanceName(d);
    case MediumPerformance => assert PerformanceLevels[1] == PerformanceName(d);
    case HighPerformance => assert PerformanceLevels[2] == PerformanceName(d);
  }

  /** The node table of `processDataForYear`: teams, then salary ranges, then performance levels. */
  function BuildNodes(teams: seq<TeamAggregate>, records: seq<PlayerRecord>): NodeTable
  {
    CategoryNodes(SalaryStage(teams, records), PerformanceLevels, PerformanceKind, UsedNames(teams), records, PerformanceLabel)
  }

  /** The node table after the team and the salary-range nodes. */
  function SalaryStage(teams: seq<TeamAggregate>, records: seq<PlayerRecord>): NodeTable
  {
    var used := UsedNames(teams);
    CategoryNodes(TeamNodes(teams, used), SalaryRanges, SalaryKind, used, records, SalaryLabel)
  }

  /** The used salary names in Low, Medium, High order. */
  function UsedSalaryNames(used: set<string>): seq<string>
  {
    Filter(SalaryRanges, InSet(used))
  }

  function UsedPerformanceNames(used: set<string>): seq<string>
  {
    Filter(PerformanceLevels, InSet(used))
  }

  lemma SalaryRangesNoDup()
    ensures NoDup(SalaryRanges) && NoDup(PerformanceLevels)
  {
    CategoryNamesDistinct(LowSalary, MediumSalary, LowPerformance, MediumPerformance);
    CategoryNamesDistinct(LowSalary, HighSalary, LowPerformance, HighPerformance);
    CategoryNamesDistinct(MediumSalary, HighSalary, MediumPerformance, HighPerformance);
  }

  /** Every team name is in `usedNodes`. */
  lemma TeamNamesUsed(teams: seq<TeamAggregate>)
    ensures forall i :: 0 <= i < |teams| ==> teams[i].teamName in UsedNames(teams)
  {
    forall i | 0 <= i < |teams| ensures teams[i].teamName in UsedNames(teams) {
      UsedNamesSpec(teams, teams[i].teamName);
      assert NamedBy(teams[i], teams[i].teamName);
    }
  }

  /**
   * The node contract of `processDataForYear`, in five parts. First, ids
   * are 0..n-1 with matching details, and there are as many nodes as
   * teams plus used salary ranges plus used performance levels.
   */
  lemma BuildNodesValid(teams: seq<TeamAggregate>, records: seq<PlayerRecord>)
    ensures var used := UsedNames(teams);
      var v := BuildNodes(teams, records);
      TableValid(v) && |v.nodes| == |teams| + |UsedSalaryNames(used)| + |UsedPerformanceNames(used)|
  {
    var used := UsedNames(teams);
    TeamNodesValid(teams, used);
    TeamNamesUsed(teams);
    TeamNodesList(teams, used);
    var t := TeamNodes(teams, used);
    CategoryNodesValid(t, SalaryRanges, SalaryKind, used, records, SalaryLabel);
    LengthOfCategoryNodes(t, SalaryRanges, SalaryKind, used, records, SalaryLabel);
    var u := SalaryStage(teams, records);
    CategoryNodesValid(u, PerformanceLevels, PerformanceKind, used, records, PerformanceLabel);
    LengthOfCategoryNodes(u, PerformanceLevels, PerformanceKind, used, records, PerformanceLabel);
  }

  /** Second: team k is node k, with its player count as value and its players as details. */
  lemma BuildNodesTeams(teams: seq<TeamAggregate>, records: seq<PlayerRecord>, k: nat)
    requires k < |teams|
    ensures var v := BuildNodes(teams, records);
      k < |v.nodes| && v.nodes[k] == TeamNode(k, teams[k]) && k in v.details && v.details[k] == TeamNodeDetail(k, teams[k])
  {
    var used := UsedNames(teams);
    TeamNamesUsed(teams);
    TeamNodesValid(teams, used);
    TeamNodesList(teams, used);
    var t := TeamNodes(teams, used);
    CategoryNodesValid(t, SalaryRanges, SalaryKind, used, records, SalaryLabel);
    CategoryNodesList(t, SalaryRanges, SalaryKind, used, records, SalaryLabel);
    var u := SalaryStage(teams, records);
    CategoryNodesList(u, PerformanceLevels, PerformanceKind, used, records, PerformanceLabel);
    var v := BuildNodes(teams, records);
    assert u.nodes[k] == u.nodes[..|t.nodes|][k];
    assert v.nodes[k] == v.nodes[..|u.nodes|][k];
  }

  /**
   * Third: the j-th used salary range (Low/Medium/High order) is node
   * |teams| + j; its value and details are the records in that range.
   */
  lemma BuildNodesSalary(teams: seq<TeamAggregate>, records: seq<PlayerRecord>, j: nat)
    requires j < |UsedSalaryNames(UsedNames(teams))|
    ensures var v := BuildNodes(teams, records);
      var name := UsedSalaryNames(UsedNames(teams))[j];
      var id := |teams| + j;
      IndexedCategoryAt(v, id, name, SalaryKind, records, SalaryLabel)
  {
    var used := UsedNames(teams);
    SalaryStageAt(teams, records, j);
    SalaryRangesNoDup();
    var u := SalaryStage(teams, records);
    CategoryNodesPrefix(u, PerformanceLevels, PerformanceKind, used, records, PerformanceLabel);
    CategoryNodesIndex(u, PerformanceLevels, PerformanceKind, used, records, PerformanceLabel);
    var v := BuildNodes(teams, records);
    var name := UsedSalaryNames(used)[j];
    assert v.nodes[|teams| + j] == v.nodes[..|u.nodes|][|teams| + j];
    assert name in UsedSalaryNames(used);
    SalaryNotPerformanceName(name);
    assert name !in UsedPerformanceNames(used);
  }

  /** The salary range node as the salary stage leaves it. */
  lemma SalaryStageAt(teams: seq<TeamAggregate>, records: seq<PlayerRecord>, j: nat)
    requires j < |UsedSalaryNames(UsedNames(teams))|
    ensures var u := SalaryStage(teams, records);
      var name := UsedSalaryNames(UsedNames(teams))[j];
      var id := |teams| + j;
      IndexedCategoryAt(u, id, name, SalaryKind, records, SalaryLabel)
  {
    var used := UsedNames(teams);
    var t := TeamNodes(teams, used);
    TeamNodesLength(teams);
    SalaryRangesNoDup();
    assert SalaryStage(teams, records) == CategoryNodes(t, SalaryRanges, SalaryKind, used, records, SalaryLabel);
    assert UsedSalaryNames(used) == Filter(SalaryRanges, InSet(used));
    CategoryNodesAt(t, SalaryRanges, SalaryKind, used, records, SalaryLabel, j);
  }

  /** There is one team node per team. */
  lemma TeamNodesLength(teams: seq<TeamAggregate>)
    ensures |TeamNodes(teams, UsedNames(teams)).nodes| == |teams|
  {
    TeamNamesUsed(teams);
    TeamNodesList(teams, UsedNames(teams));
  }

  /** The k-th used name's node of a category stage, and its index entry. */
  lemma CategoryNodesAt(t: NodeTable, names: seq<string>, kind: NodeKind, used: set<string>,
                        records: seq<PlayerRecord>, nameOf: PlayerRecord -> string, k: nat)
    requires NoDup(names)
    requires k < |Filter(names, InSet(used))|
    ensures var u := CategoryNodes(t, names, kind, used, records, nameOf);
      var name := Filter(names, InSet(used))[k];
      IndexedCategoryAt(u, |t.nodes| + k, name, kind, records, nameOf)
  {
    CategoryNodesAppended(t, names, kind, used, records, nameOf);
    CategoryNodesIndex(t, names, kind, used, records, nameOf);
  }

  /**
   * Fourth: the j-th used performance level is the node after all team and
   * salary nodes; its value and details are the records at that level.
   */
  lemma BuildNodesPerformance(teams: seq<TeamAggregate>, records: seq<PlayerRecord>, j: nat)
    requires j < |UsedPerformanceNames(UsedNames(teams))|
    ensures var v := BuildNodes(teams, records);
      var name := UsedPerformanceNames(UsedNames(teams))[j];
      var id := |teams| + |UsedSalaryNames(UsedNames(teams))| + j;
      IndexedCategoryAt(v, id, name, PerformanceKind, records, PerformanceLabel)
  {
    var used := UsedNames(teams);
    var u := SalaryStage(teams, records);
    SalaryStageLength(teams, records);
    SalaryRangesNoDup();
    assert BuildNodes(teams, records) == CategoryNodes(u, PerformanceLevels, PerformanceKind, used, records, PerformanceLabel);
    assert UsedPerformanceNames(used) == Filter(PerformanceLevels, InSet(used));
    CategoryNodesAt(u, PerformanceLevels, PerformanceKind, used, records, PerformanceLabel, j);
  }

  /** The salary stage has the team nodes and one node per used salary range. */
  lemma SalaryStageLength(teams: seq<TeamAggregate>, records: seq<PlayerRecord>)
    ensures |SalaryStage(teams, records).nodes| == |teams| + |UsedSalaryNames(UsedNames(teams))|
  {
    var used := UsedNames(teams);
    var t := TeamNodes(teams, used);
    TeamNodesLength(teams);
    assert SalaryStage(teams, records) == CategoryNodes(t, SalaryRanges, SalaryKind, used, records, SalaryLabel);
    assert UsedSalaryNames(used) == Filter(SalaryRanges, InSet(used));
    LengthOfCategoryNodes(t, SalaryRanges, SalaryKind, used, records, SalaryLabel);
  }

  /** The node table has one node per team, per used salary range and per used performance level. */
  lemma BuildNodesLength(teams: seq<TeamAggregate>, records: seq<PlayerRecord>)
    ensures |BuildNodes(teams, records).nodes| ==
      |teams| + |UsedSalaryNames(UsedNames(teams))| + |UsedPerformanceNames(UsedNames(teams))|
  {
    var used := UsedNames(teams);
    var u := SalaryStage(teams, records);
    SalaryStageLength(teams, records);
    assert BuildNodes(teams, records) == CategoryNodes(u, PerformanceLevels, PerformanceKind, used, records, PerformanceLabel);
    assert UsedPerformanceNames(used) == Filter(PerformanceLevels, InSet(used));
    LengthOfCategoryNodes(u, PerformanceLevels, PerformanceKind, used, records, PerformanceLabel);
  }

  /** Fifth: the index holds exactly the used names. */
  lemma BuildNodesIndex(teams: seq<TeamAggregate>, records: seq<PlayerRecord>)
    ensures forall name :: name in BuildNodes(teams, records).index <==> name in UsedNames(teams)
  {
    var used := UsedNames(teams);
    TeamNamesUsed(teams);
    TeamNodesIndex(teams, used);
    SalaryRangesNoDup();
    var t := TeamNodes(teams, used);
    CategoryNodesIndex(t, SalaryRanges, SalaryKind, used, records, SalaryLabel);
    var u := SalaryStage(teams, records);
    CategoryNodesIndex(u, PerformanceLevels, PerformanceKind, used, records, PerformanceLabel);
    var v := BuildNodes(teams, records);
    var sp := UsedSalaryNames(used);
    var pp := UsedPerformanceNames(used);
    assert forall name :: name in v.index <==> name in u.index || name in pp;
    assert forall name :: name in u.index <==> name in t.index || name in sp;
    forall name | name in used ensures name in v.index {
      UsedNameIndexed(teams, name);
    }
    forall name | name in v.index ensures name in used {
      if name in t.index {
        var i :| 0 <= i < |teams| && teams[i].teamName == name;
      } else if name in sp {
        assert InSet(used)(name);
      } else {
        assert InSet(used)(name);
      }
    }
  }

  /** Every used name ends up with a node. */
  lemma UsedNameIndexed(teams: seq<TeamAggregate>, name: string)
    requires name in UsedNames(teams)
    ensures (exists i :: 0 <= i < |teams| && teams[i].teamName == name) ||
      name in UsedSalaryNames(UsedNames(teams)) || name in UsedPerformanceNames(UsedNames(teams))
  {
    UsedNamesSpec(teams, name);
    var i :| 0 <= i < |teams| && NamedBy(teams[i], name);
    if name != teams[i].teamName {
      if name == SalaryName(teams[i].teamSalaryCategory) {
        SalaryNameListed(teams[i].teamSalaryCategory);
      } else {
        PerformanceNameListed(teams[i].teamPerformanceCategory);
      }
    }
  }

  /** No salary range name is a performance level name. */
  lemma SalaryNotPerformanceName(name: string)
    requires name in SalaryRanges
    ensures name !in PerformanceLevels
  {
    var c :| c in SalaryOrder && name == SalaryName(c);
    forall d ensures name != PerformanceName(d) {
      CategoryNamesDistinct(c, c, d, d);
    }
  }
  /** The used salary names, written out: Low, Medium, High, each only when used. */
  lemma UsedSalaryNamesOrder(used: set<string>)
    ensures UsedSalaryNames(used) ==
      (if SalaryName(LowSalary) in used then [SalaryName(LowSalary)] else []) +
      (if SalaryName(MediumSalary) in used then [SalaryName(MediumSalary)] else []) +
      (if SalaryName(HighSalary) in used then [SalaryName(HighSalary)] else [])
  {
    FilterThree(SalaryName(LowSalary), SalaryName(MediumSalary), SalaryName(HighSalary), InSet(used));
  }

  lemma UsedPerformanceNamesOrder(used: set<string>)
    ensures UsedPerformanceNames(used) ==
      (if PerformanceName(LowPerformance) in used then [PerformanceName(LowPerformance)] else []) +
      (if PerformanceName(MediumPerformance) in used then [PerformanceName(MediumPerformance)] else []) +
      (if PerformanceName(HighPerformance) in used then [PerformanceName(HighPerformance)] else [])
  {
    FilterThree(PerformanceName(LowPerformance), PerformanceName(MediumPerformance), PerformanceName(HighPerformance), InSet(used));
  }

  lemma SalaryLabelAt(p: PlayerRecord, c: SalaryCategory)
    ensures LabelIs(SalaryLabel, SalaryName(c))(p) == HasSalaryCategory(c)(p)
  {
    assert SalaryLabel(p) == SalaryName(p.salaryCategory);
    CategoryNamesDistinct(p.salaryCategory, c, LowPerformance, LowPerformance);
  }

  lemma PerformanceLabelAt(p: PlayerRecord, d: PerformanceCategory)
    ensures LabelIs(PerformanceLabel, PerformanceName(d))(p) == HasPerformanceCategory(d)(p)
  {
    assert PerformanceLabel(p) == PerformanceName(p.performanceCategory);
    CategoryNamesDistinct(LowSalary, LowSalary, p.performanceCategory, d);
  }

  /** Selecting by salary name is selecting by salary category. */
  lemma SalaryLabelIsCategory(records: seq<PlayerRecord>, c: SalaryCategory)
    ensures Filter(records, LabelIs(SalaryLabel, SalaryName(c))) == Filter(records, HasSalaryCategory(c))
  {
    forall p: PlayerRecord ensures LabelIs(SalaryLabel, SalaryName(c))(p) == HasSalaryCategory(c)(p) {
      SalaryLabelAt(p, c);
    }
    FilterEquiv(records, LabelIs(SalaryLabel, SalaryName(c)), HasSalaryCategory(c));
  }

  lemma PerformanceLabelIsCategory(records: seq<PlayerRecord>, d: PerformanceCategory)
    ensures Filter(records, LabelIs(PerformanceLabel, PerformanceName(d))) == Filter(records, HasPerformanceCategory(d))
  {
    forall p: PlayerRecord ensures LabelIs(PerformanceLabel, PerformanceName(d))(p) == HasPerformanceCategory(d)(p) {
      PerformanceLabelAt(p, d);
    }
    FilterEquiv(records, LabelIs(PerformanceLabel, PerformanceName(d)), HasPerformanceCategory(d));
  }

  /** Where each kind of node sits in the list: teams, then salary ranges, then performance levels. */
  lemma NodeKindAt(teams: seq<TeamAggregate>, records: seq<PlayerRecord>, k: nat)
    requires k < |BuildNodes(teams, records).nodes|
    ensures var v := BuildNodes(teams, records);
      var sp := UsedSalaryNames(UsedNames(teams));
      var pp := UsedPerformanceNames(UsedNames(teams));
      var m := |teams| + |sp|;
      |v.nodes| == m + |pp| &&
      v.nodes[k].category == (if k < |teams| then TeamKind else if k < m then SalaryKind else PerformanceKind)
  {
    var used := UsedNames(teams);
    TeamNamesUsed(teams);
    TeamNodesList(teams, used);
    var t := TeamNodes(teams, used);
    var u := SalaryStage(teams, records);
    assert u == CategoryNodes(t, SalaryRanges, SalaryKind, used, records, SalaryLabel);
    CategoryNodesKinds(t, SalaryRanges, SalaryKind, used, records, SalaryLabel);
    CategoryNodesKinds(u, PerformanceLevels, PerformanceKind, used, records, PerformanceLabel);
    if k < |teams| {
      assert t.nodes[k] == TeamNode(k, teams[k]);
    }
  }

  /** A category stage keeps the nodes before it and gives every node it appends its kind. */
  lemma CategoryNodesKinds(t: NodeTable, names: seq<string>, kind: NodeKind, used: set<string>,
                           records: seq<PlayerRecord>, nameOf: PlayerRecord -> string)
    ensures var u := CategoryNodes(t, names, kind, used, records, nameOf);
      |u.nodes| == |t.nodes| + |Filter(names, InSet(used))| &&
      (forall i :: 0 <= i < |t.nodes| ==> u.nodes[i] == t.nodes[i]) &&
      (forall i :: |t.nodes| <= i < |u.nodes| ==> u.nodes[i].category == kind)
  {
    CategoryNodesPrefix(t, names, kind, used, records, nameOf);
    CategoryNodesAppended(t, names, kind, used, records, nameOf);
    var u := CategoryNodes(t, names, kind, used, records, nameOf);
    var kept := Filter(names, InSet(used));
    var n := |t.nodes|;
    forall i | 0 <= i < n ensures u.nodes[i] == t.nodes[i] {
      assert u.nodes[..n][i] == u.nodes[i];
    }
    forall i | n <= i < |u.nodes| ensures u.nodes[i].category == kind {
      assert CategoryAt(u, n + (i - n), kept[i - n], kind, records, nameOf);
    }
  }

  lemma TeamNodeAt(teams: seq<TeamAggregate>, records: seq<PlayerRecord>, k: nat)
    requires k < |teams|
    ensures var v := BuildNodes(teams, records);
      k < |v.nodes| && v.nodes[k].category == TeamKind
  {
    BuildNodesTeams(teams, records, k);
  }

  lemma SalaryNodeAt(teams: seq<TeamAggregate>, records: seq<PlayerRecord>, j: nat)
    requires j < |UsedSalaryNames(UsedNames(teams))|
    ensures var v := BuildNodes(teams, records);
      var id := |teams| + j;
      id < |v.nodes| && v.nodes[id].category == SalaryKind &&
      v.nodes[id].name == UsedSalaryNames(UsedNames(teams))[j]
  {
    BuildNodesSalary(teams, records, j);
  }

  lemma PerformanceNodeAt(teams: seq<TeamAggregate>, records: seq<PlayerRecord>, j: nat)
    requires j < |UsedPerformanceNames(UsedNames(teams))|
    ensures var v := BuildNodes(teams, records);
      var id := |teams| + |UsedSalaryNames(UsedNames(teams))| + j;
      id < |v.nodes| && v.nodes[id].category == PerformanceKind &&
      v.nodes[id].name == UsedPerformanceNames(UsedNames(teams))[j]
  {
    BuildNodesPerformance(teams, records, j);
  }

  /** A used salary name has a salary node of that name. */
  lemma SalaryNodeIfUsed(teams: seq<TeamAggregate>, records: seq<PlayerRecord>, c: SalaryCategory) returns (k: nat)
    requires SalaryName(c) in UsedNames(teams)
    ensures var v := BuildNodes(teams, records);
      k < |v.nodes| && v.nodes[k].category == SalaryKind && v.nodes[k].name == SalaryName(c)
  {
    var sp := UsedSalaryNames(UsedNames(teams));
    assert SalaryName(c) in SalaryRanges;
    assert SalaryName(c) in sp;
    var j :| 0 <= j < |sp| && sp[j] == SalaryName(c);
    SalaryNodeAt(teams, records, j);
    k := |teams| + j;
  }

  /**
   * The node of a used salary range, in its slot after the team nodes:
   * its name is used, and its value and details are ALL joined players in
   * that salary category.
   */
  lemma SalaryNodeContents(teams: seq<TeamAggregate>, records: seq<PlayerRecord>, c: SalaryCategory, j: nat)
    requires var sp := UsedSalaryNames(UsedNames(teams));
      j < |sp| && sp[j] == SalaryName(c)
    ensures SalaryName(c) in UsedNames(teams)
    ensures CategoryNodeOf(BuildNodes(teams, records), |teams| + j, SalaryKind, SalaryName(c), Filter(records, HasSalaryCategory(c)))
  {
    BuildNodesSalary(teams, records, j);
    SalaryNodePlaced(BuildNodes(teams, records), UsedNames(teams), |teams|, records, c, j);
  }

  /** Node `id` exists, has the given kind and name, and counts and lists exactly `players`. */
  predicate CategoryNodeOf(u: NodeTable, id: nat, kind: NodeKind, name: string, players: seq<PlayerRecord>)
  {
    id < |u.nodes| && u.nodes[id].category == kind && u.nodes[id].name == name &&
    u.nodes[id].value == |players| && id in u.details && u.details[id].players == players
  }

  /** A salary category node holds the records of that salary category. */
  lemma SalaryCategoryAt(u: NodeTable, id: nat, c: SalaryCategory, records: seq<PlayerRecord>)
    requires CategoryAt(u, id, SalaryName(c), SalaryKind, records, SalaryLabel)
    ensures CategoryNodeOf(u, id, SalaryKind, SalaryName(c), Filter(records, HasSalaryCategory(c)))
  {
    SalaryLabelIsCategory(records, c);
  }

  /** A used performance name has a performance node of that name. */
  lemma PerformanceNodeIfUsed(teams: seq<TeamAggregate>, records: seq<PlayerRecord>, d: PerformanceCategory) returns (k: nat)
    requires PerformanceName(d) in UsedNames(teams)
    ensures var v := BuildNodes(teams, records);
      k < |v.nodes| && v.nodes[k].category == PerformanceKind && v.nodes[k].name == PerformanceName(d)
  {
    var pp := UsedPerformanceNames(UsedNames(teams));
    assert PerformanceName(d) in PerformanceLevels;
    assert PerformanceName(d) in pp;
    var j :| 0 <= j < |pp| && pp[j] == PerformanceName(d);
    PerformanceNodeAt(teams, records, j);
    k := |teams| + |UsedSalaryNames(UsedNames(teams))| + j;
  }

  /**
   * The node of a used performance level, in its slot after the salary
   * nodes: its name is used, and its value and details are ALL joined
   * players in that performance category.
   */
  lemma PerformanceNodeContents(teams: seq<TeamAggregate>, records: seq<PlayerRecord>, d: PerformanceCategory, j: nat)
    requires var pp := UsedPerformanceNames(UsedNames(teams));
      j < |pp| && pp[j] == PerformanceName(d)
    ensures PerformanceName(d) in UsedNames(teams)
    ensures CategoryNodeOf(BuildNodes(teams, records), |teams| + |UsedSalaryNames(UsedNames(teams))| + j,
      PerformanceKind, PerformanceName(d), Filter(records, HasPerformanceCategory(d)))
  {
    BuildNodesPerformance(teams, records, j);
    PerformanceNodePlaced(BuildNodes(teams, records), UsedNames(teams), |teams| + |UsedSalaryNames(UsedNames(teams))|,
      records, d, j);
  }

  /** The `j`-th used salary range, placed at `m + j`, is the node of that range. */
  lemma SalaryNodePlaced(v: NodeTable, used: set<string>, m: nat, records: seq<PlayerRecord>, c: SalaryCategory, j: nat)
    requires j < |UsedSalaryNames(used)| && UsedSalaryNames(used)[j] == SalaryName(c)
    requires IndexedCategoryAt(v, m + j, UsedSalaryNames(used)[j], SalaryKind, records, SalaryLabel)
    ensures SalaryName(c) in used
    ensures CategoryNodeOf(v, m + j, SalaryKind, SalaryName(c), Filter(records, HasSalaryCategory(c)))
  {
    UsedNameAt(SalaryRanges, used, j);
    SalaryCategoryAt(v, m + j, c, records);
  }

  /** The `j`-th used performance level, placed at `m + j`, is the node of that level. */
  lemma PerformanceNodePlaced(v: NodeTable, used: set<string>, m: nat, records: seq<PlayerRecord>, d: PerformanceCategory, j: nat)
    requires j < |UsedPerformanceNames(used)| && UsedPerformanceNames(used)[j] == PerformanceName(d)
    requires IndexedCategoryAt(v, m + j, UsedPerformanceNames(used)[j], PerformanceKind, records, PerformanceLabel)
    ensures PerformanceName(d) in used
    ensures CategoryNodeOf(v, m + j, PerformanceKind, PerformanceName(d), Filter(records, HasPerformanceCategory(d)))
  {
    UsedNameAt(PerformanceLevels, used, j);
    PerformanceCategoryAt(v, m + j, d, records);
  }

  /** A performance category node holds the records of that performance category. */
  lemma PerformanceCategoryAt(u: NodeTable, id: nat, d: PerformanceCategory, records: seq<PlayerRecord>)
    requires CategoryAt(u, id, PerformanceName(d), PerformanceKind, records, PerformanceLabel)
    ensures CategoryNodeOf(u, id, PerformanceKind, PerformanceName(d), Filter(records, HasPerformanceCategory(d)))
  {
    PerformanceLabelIsCategory(records, d);
  }
}
