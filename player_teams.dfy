/**
 * `aggregateByTeam` of the player-level engine: the joined players grouped
 * by team id (first pass: players, totals and category counters), then
 * each team's averages and team-level categories (second pass).
 *
 * The dictionary `teamAggregation` is an `Aggregation`: its keys in
 * insertion order (the order `Object.values` walks) and the map itself.
 */
module PlayerTeams {
  import opened Wrappers
  import opened Seqs
  import opened Categories
  import opened PlayerJoin

  // ---------------------------------------------------------------- selections

  function OnTeam(teamId: string): PlayerRecord -> bool
  {
    (p: PlayerRecord) => p.teamId == teamId
  }

  function HasSalaryCategory(c: SalaryCategory): PlayerRecord -> bool
  {
    (p: PlayerRecord) => p.salaryCategory == c
  }

  function HasPerformanceCategory(d: PerformanceCategory): PlayerRecord -> bool
  {
    (p: PlayerRecord) => p.performanceCategory == d
  }

  function PlayerSalary(p: PlayerRecord): real { p.salary }
  function PlayerScore(p: PlayerRecord): real { p.performanceScore }

  /** The team id of every record, in record order. */
  function TeamIdSeq(records: seq<PlayerRecord>): (ids: seq<string>)
    ensures |ids| == |records|
    ensures forall k :: 0 <= k < |records| ==> ids[k] == records[k].teamId
    decreases |records|
  {
    if records == [] then [] else TeamIdSeq(records[..|records| - 1]) + [records[|records| - 1].teamId]
  }

  // ---------------------------------------------------------------- counters

  /** A `{ Low, Medium, High }` counter object. */
  datatype Tally = Tally(low: nat, medium: nat, high: nat)

  const NoTally := Tally(0, 0, 0)

  function TallyTotal(t: Tally): nat { t.low + t.medium + t.high }

  /** `salary_categories[c]++`. */
  function CountSalary(t: Tally, c: SalaryCategory): Tally
  {
    match c
    case LowSalary => t.(low := t.low + 1)
    case MediumSalary => t.(medium := t.medium + 1)
    case HighSalary => t.(high := t.high + 1)
  }

  /** `performance_categories[d]++`. */
  function CountPerformance(t: Tally, d: PerformanceCategory): Tally
  {
    match d
    case LowPerformance => t.(low := t.low + 1)
    case MediumPerformance => t.(medium := t.medium + 1)
    case HighPerformance => t.(high := t.high + 1)
  }

  /** The salary counters of a player list: how many players fall in each category. */
  function SalaryTallyOf(players: seq<PlayerRecord>): Tally
  {
    Tally(|Filter(players, HasSalaryCategory(LowSalary))|,
      |Filter(players, HasSalaryCategory(MediumSalary))|,
      |Filter(players, HasSalaryCategory(HighSalary))|)
  }

  function PerformanceTallyOf(players: seq<PlayerRecord>): Tally
  {
    Tally(|Filter(players, HasPerformanceCategory(LowPerformance))|,
      |Filter(players, HasPerformanceCategory(MediumPerformance))|,
      |Filter(players, HasPerformanceCategory(HighPerformance))|)
  }

  lemma SalaryTallyStep(players: seq<PlayerRecord>, p: PlayerRecord)
    ensures SalaryTallyOf(players + [p]) == CountSalary(SalaryTallyOf(players), p.salaryCategory)
  {
    FilterStep(players, p, HasSalaryCategory(LowSalary));
    FilterStep(players, p, HasSalaryCategory(MediumSalary));
    FilterStep(players, p, HasSalaryCategory(HighSalary));
  }

  lemma PerformanceTallyStep(players: seq<PlayerRecord>, p: PlayerRecord)
    ensures PerformanceTallyOf(players + [p]) == CountPerformance(PerformanceTallyOf(players), p.performanceCategory)
  {
    FilterStep(players, p, HasPerformanceCategory(LowPerformance));
    FilterStep(players, p, HasPerformanceCategory(MediumPerformance));
    FilterStep(players, p, HasPerformanceCategory(HighPerformance));
  }

  /** Every player is counted under exactly one salary and one performance category. */
  lemma TallyTotals(players: seq<PlayerRecord>)
    ensures TallyTotal(SalaryTallyOf(players)) == |players|
    ensures TallyTotal(PerformanceTallyOf(players)) == |players|
  {
    SalaryTallyTotal(players);
    PerformanceTallyTotal(players);
  }

  lemma {:induction false} SalaryTallyTotal(players: seq<PlayerRecord>)
    ensures TallyTotal(SalaryTallyOf(players)) == |players|
    decreases |players|
  {
    if players != [] {
      var init := players[..|players| - 1];
      var p := players[|players| - 1];
      assert players == init + [p];
      SalaryTallyTotal(init);
      SalaryTallyStep(init, p);
    }
  }

  lemma {:induction false} PerformanceTallyTotal(players: seq<PlayerRecord>)
    ensures TallyTotal(PerformanceTallyOf(players)) == |players|
    decreases |players|
  {
    if players != [] {
      var init := players[..|players| - 1];
      var p := players[|players| - 1];
      assert players == init + [p];
      PerformanceTallyTotal(init);
      PerformanceTallyStep(init, p);
    }
  }

  // ---------------------------------------------------------------- first pass

  /** One entry of `teamAggregation` before its averages are added. */
  datatype TeamTally = TeamTally(
    teamId: string,
    teamName: string,
    players: seq<PlayerRecord>,
    totalSalary: real,
    totalPerformanceScore: real,
    salaryCategories: Tally,
    performanceCategories: Tally)

  /** The entry created for the first player of a team. */
  function NewTeam(p: PlayerRecord): TeamTally
  {
    TeamTally(p.teamId, p.teamName, [], 0.0, 0.0, NoTally, NoTally)
  }

  /** The per-player update: push, add to both totals, bump both counters. */
  function AddPlayer(t: TeamTally, p: PlayerRecord): TeamTally
  {
    t.(players := t.players + [p],
       totalSalary := t.totalSalary + p.salary,
       totalPerformanceScore := t.totalPerformanceScore + p.performanceScore,
       salaryCategories := CountSalary(t.salaryCategories, p.salaryCategory),
       performanceCategories := CountPerformance(t.performanceCategories, p.performanceCategory))
  }

  datatype Aggregation = Aggregation(ids: seq<string>, teams: map<string, TeamTally>)

  /** `teamAggregation` after the `forEach` over `records`. */
  function Aggregate(records: seq<PlayerRecord>): Aggregation
    decreases |records|
  {
    if records == [] then Aggregation([], map[])
    else
      var a := Aggregate(records[..|records| - 1]);
      var p := records[|records| - 1];
      var t := if p.teamId in a.teams then a.teams[p.teamId] else NewTeam(p);
      Aggregation(if p.teamId in a.teams then a.ids else a.ids + [p.teamId],
        a.teams[p.teamId := AddPlayer(t, p)])
  }

  /** What the entry of team `id` holds after the first pass over `records`. */
  ghost predicate TeamTallyOf(records: seq<PlayerRecord>, id: string, t: TeamTally)
  {
    t.teamId == id &&
    t.players == Filter(records, OnTeam(id)) && t.players != [] &&
    t.teamName == t.players[0].teamName &&
    t.totalSalary == SumReal(t.players, PlayerSalary) &&
    t.totalPerformanceScore == SumReal(t.players, PlayerScore) &&
    t.salaryCategories == SalaryTallyOf(t.players) &&
    t.performanceCategories == PerformanceTallyOf(t.players)
  }

  /** The team ids in order of first appearance: the key order of `teamAggregation`. */
  function TeamIds(records: seq<PlayerRecord>): seq<string>
  {
    Distinct(TeamIdSeq(records))
  }

  /** The keys of the grouping are the distinct team ids in order of first appearance. */
  lemma {:induction false} AggregateKeys(records: seq<PlayerRecord>)
    ensures var a := Aggregate(records);
      a.ids == TeamIds(records) && (forall id :: id in a.teams <==> id in a.ids)
    decreases |records|
  {
    if records != [] {
      var init := records[..|records| - 1];
      AggregateKeys(init);
      assert TeamIdSeq(records)[..|records| - 1] == TeamIdSeq(init);
    }
  }

  /** A team id no record carries selects nothing. */
  lemma AbsentTeam(records: seq<PlayerRecord>, id: string)
    requires id !in TeamIds(records)
    ensures Filter(records, OnTeam(id)) == []
  {
    forall i | 0 <= i < |records| ensures records[i].teamId != id {
      assert TeamIdSeq(records)[i] == records[i].teamId;
    }
    FilterNone(records, OnTeam(id));
  }

  /** One step of the first pass keeps the entry of every team correct. */
  lemma AggregateEntryStep(init: seq<PlayerRecord>, p: PlayerRecord, id: string)
    requires id in Aggregate(init).teams <==> id in TeamIds(init)
    requires id in Aggregate(init).teams ==> TeamTallyOf(init, id, Aggregate(init).teams[id])
    requires id in Aggregate(init + [p]).teams
    ensures TeamTallyOf(init + [p], id, Aggregate(init + [p]).teams[id])
  {
    AggregateSnoc(init, p);
    var a := Aggregate(init);
    if id == p.teamId {
      if id in a.teams {
        OwnTeamStep(init, p, a.teams[id]);
      } else {
        AbsentTeam(init, id);
        NewTeamStep(init, p);
      }
    } else if id in a.teams {
      OtherTeamKept(init, p, id, a.teams[id]);
    }
  }

  /** A player joining a team that already has an entry keeps that entry correct. */
  lemma OwnTeamStep(init: seq<PlayerRecord>, p: PlayerRecord, t: TeamTally)
    requires TeamTallyOf(init, p.teamId, t)
    ensures TeamTallyOf(init + [p], p.teamId, AddPlayer(t, p))
  {
    AddPlayerStep(init, p, t);
  }

  /** The first player of a team creates a correct entry. */
  lemma NewTeamStep(init: seq<PlayerRecord>, p: PlayerRecord)
    requires Filter(init, OnTeam(p.teamId)) == []
    ensures TeamTallyOf(init + [p], p.teamId, AddPlayer(NewTeam(p), p))
  {
    AddPlayerStep(init, p, NewTeam(p));
  }

  /** A player of another team leaves an entry correct. */
  lemma OtherTeamKept(init: seq<PlayerRecord>, p: PlayerRecord, id: string, t: TeamTally)
    requires p.teamId != id && TeamTallyOf(init, id, t)
    ensures TeamTallyOf(init + [p], id, t)
  {
    OtherTeamStep(init, p, id);
  }

  /** The grouping after one more record: only the entry of its team changes. */
  lemma AggregateSnoc(init: seq<PlayerRecord>, p: PlayerRecord)
    ensures var a := Aggregate(init);
      var t := if p.teamId in a.teams then a.teams[p.teamId] else NewTeam(p);
      Aggregate(init + [p]).teams == a.teams[p.teamId := AddPlayer(t, p)]
  {
    var records := init + [p];
    assert records[..|records| - 1] == init;
  }

  /** Adding a player to the entry of its own team. */
  lemma AddPlayerStep(init: seq<PlayerRecord>, p: PlayerRecord, t: TeamTally)
    requires t.teamId == p.teamId && t.players == Filter(init, OnTeam(p.teamId))
    requires t.players == [] ==> t.teamName == p.teamName
    requires t.players != [] ==> t.teamName == t.players[0].teamName
    requires t.totalSalary == SumReal(t.players, PlayerSalary)
    requires t.totalPerformanceScore == SumReal(t.players, PlayerScore)
    requires t.salaryCategories == SalaryTallyOf(t.players)
    requires t.performanceCategories == PerformanceTallyOf(t.players)
    ensures TeamTallyOf(init + [p], p.teamId, AddPlayer(t, p))
  {
    AddPlayerMembers(init, p, t);
    AddPlayerCounts(t, p);
  }

  /** The pushed player extends the team's list, and the name stays that of its first player. */
  lemma AddPlayerMembers(init: seq<PlayerRecord>, p: PlayerRecord, t: TeamTally)
    requires t.teamId == p.teamId && t.players == Filter(init, OnTeam(p.teamId))
    requires t.players == [] ==> t.teamName == p.teamName
    requires t.players != [] ==> t.teamName == t.players[0].teamName
    ensures var u := AddPlayer(t, p);
      u.players == Filter(init + [p], OnTeam(p.teamId)) && u.players != [] && u.teamName == u.players[0].teamName
  {
    var u := AddPlayer(t, p);
    FilterStep(init, p, OnTeam(p.teamId));
    assert u.players[0] == if t.players == [] then p else t.players[0];
  }

  /** The totals and counters of an entry follow its player list through one more player. */
  lemma AddPlayerCounts(t: TeamTally, p: PlayerRecord)
    requires t.totalSalary == SumReal(t.players, PlayerSalary)
    requires t.totalPerformanceScore == SumReal(t.players, PlayerScore)
    requires t.salaryCategories == SalaryTallyOf(t.players)
    requires t.performanceCategories == PerformanceTallyOf(t.players)
    ensures var u := AddPlayer(t, p);
      u.totalSalary == SumReal(u.players, PlayerSalary) &&
      u.totalPerformanceScore == SumReal(u.players, PlayerScore) &&
      u.salaryCategories == SalaryTallyOf(u.players) &&
      u.performanceCategories == PerformanceTallyOf(u.players)
  {
    SalaryTallyStep(t.players, p);
    PerformanceTallyStep(t.players, p);
    SumRealStep(t.players, p, PlayerSalary);
    SumRealStep(t.players, p, PlayerScore);
  }

  /** A player of another team leaves an entry's player list alone. */
  lemma OtherTeamStep(init: seq<PlayerRecord>, p: PlayerRecord, id: string)
    requires p.teamId != id
    ensures Filter(init + [p], OnTeam(id)) == Filter(init, OnTeam(id))
  {
    FilterStep(init, p, OnTeam(id));
    assert Filter(init, OnTeam(id)) + [] == Filter(init, OnTeam(id));
  }

  /**
   * The grouping invariant: the keys are the distinct team ids in order of
   * first appearance, and the entry of each holds exactly that team's
   * players in input order with their sums and counters.
   */
  lemma {:induction false} AggregateSpec(records: seq<PlayerRecord>)
    ensures var a := Aggregate(records);
      a.ids == TeamIds(records) &&
      (forall id :: id in a.teams <==> id in a.ids) &&
      (forall id :: id in a.ids ==> TeamTallyOf(records, id, a.teams[id]))
    decreases |records|
  {
    AggregateKeys(records);
    if records != [] {
      var init := records[..|records| - 1];
      var p := records[|records| - 1];
      assert records == init + [p];
      AggregateSpec(init);
      forall id | id in Aggregate(records).ids ensures TeamTallyOf(records, id, Aggregate(records).teams[id]) {
        AggregateEntryStep(init, p, id);
      }
    }
  }

  /** How many records a team id has. */
  function TeamSize(records: seq<PlayerRecord>): string -> int
  {
    (id: string) => |Filter(records, OnTeam(id))|
  }

  /**
   * The grouping is a partition: over a duplicate-free list of ids that
   * covers every record's team, the team sizes add up to the number of
   * records.
   */
  lemma {:induction false} TeamSizesSum(records: seq<PlayerRecord>, ids: seq<string>)
    requires NoDup(ids)
    requires forall k :: 0 <= k < |records| ==> records[k].teamId in ids
    ensures SumInt(ids, TeamSize(records)) == |records|
    decreases |records|
  {
    if records == [] {
      SumIntZero(ids, TeamSize(records));
    } else {
      var init := records[..|records| - 1];
      var p := records[|records| - 1];
      assert records == init + [p];
      TeamSizesSum(init, ids);
      forall id | id in ids ensures TeamSize(records)(id) == TeamSize(init)(id) + (if id == p.teamId then 1 else 0) {
        FilterStep(init, p, OnTeam(id));
      }
      SumIntBumpOne(ids, TeamSize(init), TeamSize(records), p.teamId);
    }
  }

  // ---------------------------------------------------------------- second pass

  /** A finished entry of `teamAggregation`. */
  datatype TeamAggregate = TeamAggregate(
    teamId: string,
    teamName: string,
    players: seq<PlayerRecord>,
    totalSalary: real,
    totalPerformanceScore: real,
    salaryCategories: Tally,
    performanceCategories: Tally,
    avgSalary: real,
    avgPerformanceScore: real,
    teamSalaryCategory: SalaryCategory,
    teamPerformanceCategory: PerformanceCategory)

  /**
   * The second pass for one team: both averages over the player count, the
   * salary category of the average salary, and the performance category of
   * the average score against the year's player thresholds.
   */
  function Finish(t: TeamTally, thresholds: Option<Thresholds>): (r: TeamAggregate)
    requires t.players != []
    ensures r.avgSalary * (|t.players| as real) == t.totalSalary
    ensures r.avgPerformanceScore * (|t.players| as real) == t.totalPerformanceScore
    ensures r.teamSalaryCategory == CategorizeSalary(r.avgSalary)
    ensures r.teamPerformanceCategory == CategorizePerformance(r.avgPerformanceScore, thresholds)
    ensures r.teamId == t.teamId && r.teamName == t.teamName && r.players == t.players
  {
    var n := |t.players| as real;
    var avgSalary := t.totalSalary / n;
    var avgScore := t.totalPerformanceScore / n;
    TeamAggregate(t.teamId, t.teamName, t.players, t.totalSalary, t.totalPerformanceScore,
      t.salaryCategories, t.performanceCategories, avgSalary, avgScore,
      CategorizeSalary(avgSalary), CategorizePerformance(avgScore, thresholds))
  }

  /** `Object.values(aggregateByTeam(records))`: the finished teams in key order. */
  function AggregateByTeam(records: seq<PlayerRecord>, thresholds: Option<Thresholds>): (teams: seq<TeamAggregate>)
    ensures |teams| == |TeamIds(records)|
  {
    AggregateSpec(records);
    var a := Aggregate(records);
    seq(|a.ids|, k requires 0 <= k < |a.ids| => Finish(a.teams[a.ids[k]], thresholds))
  }

  /** The facts about one finished team. */
  ghost predicate TeamAggregateOf(records: seq<PlayerRecord>, thresholds: Option<Thresholds>, t: TeamAggregate)
  {
    t.players == Filter(records, OnTeam(t.teamId)) && t.players != [] &&
    t.teamName == t.players[0].teamName &&
    t.totalSalary == SumReal(t.players, PlayerSalary) &&
    t.totalPerformanceScore == SumReal(t.players, PlayerScore) &&
    TallyTotal(t.salaryCategories) == |t.players| &&
    TallyTotal(t.performanceCategories) == |t.players| &&
    t.avgSalary == t.totalSalary / (|t.players| as real) &&
    t.avgPerformanceScore == t.totalPerformanceScore / (|t.players| as real) &&
    t.teamSalaryCategory == CategorizeSalary(t.avgSalary) &&
    t.teamPerformanceCategory == CategorizePerformance(t.avgPerformanceScore, thresholds)
  }

  lemma TeamAt(records: seq<PlayerRecord>, thresholds: Option<Thresholds>, k: nat)
    requires k < |TeamIds(records)|
    ensures var t := AggregateByTeam(records, thresholds)[k];
      t.teamId == TeamIds(records)[k] && TeamAggregateOf(records, thresholds, t)
  {
    AggregateSpec(records);
    var a := Aggregate(records);
    assert a.ids[k] in a.ids;
    var t := AggregateByTeam(records, thresholds)[k];
    assert t == Finish(a.teams[a.ids[k]], thresholds);
    TallyTotals(t.players);
  }

  /**
   * The contract of `aggregateByTeam`: one team per distinct team id, in
   * order of first appearance; each holds exactly its players in input
   * order, its totals are sums over them, its counters add up to its
   * player count, and its categories come from the averages; every record
   * lands in exactly one team, so the team sizes add up to the records.
   */
  lemma AggregateByTeamSpec(records: seq<PlayerRecord>, thresholds: Option<Thresholds>)
    ensures var teams := AggregateByTeam(records, thresholds);
      (forall k :: 0 <= k < |teams| ==>
        teams[k].teamId == TeamIds(records)[k] && TeamAggregateOf(records, thresholds, teams[k])) &&
      (forall k, l :: 0 <= k < l < |teams| ==> teams[k].teamId != teams[l].teamId) &&
      (forall i :: 0 <= i < |records| ==> exists k :: 0 <= k < |teams| && teams[k].teamId == records[i].teamId) &&
      SumInt(TeamIds(records), TeamSize(records)) == |records|
  {
    var teams := AggregateByTeam(records, thresholds);
    var ids := TeamIds(records);
    forall k | 0 <= k < |teams|
      ensures teams[k].teamId == ids[k] && TeamAggregateOf(records, thresholds, teams[k])
    {
      TeamAt(records, thresholds, k);
    }
    forall i | 0 <= i < |records| ensures records[i].teamId in ids {
      assert TeamIdSeq(records)[i] == records[i].teamId;
    }
    forall i | 0 <= i < |records| ensures exists k :: 0 <= k < |teams| && teams[k].teamId == records[i].teamId {
      var k :| 0 <= k < |ids| && ids[k] == records[i].teamId;
      assert teams[k].teamId == records[i].teamId;
    }
    TeamSizesSum(records, ids);
  }
}
