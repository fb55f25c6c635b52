/**
 * The page logic of `main.js` that is not drawing: the year used when the
 * slider stops on a season without data, the slider's bounds, the node
 * counts of the data summary, and the overview / team-detail view state
 * with the handlers that switch between the two views.
 *
 * What the page shows is kept as values: the graph the Sankey chart last
 * drew, the summary last displayed, the team detail last drawn, and which
 * of them is visible.
 */
module App {
  import opened Wrappers
  import opened Seqs
  import opened Records
  import opened TeamEngine
  import G = PlayerGraph
  import Slider
  import TeamDetailChart
  import TeamProcessor

  // ---------------------------------------------------------------- the closest year

  /** `Math.abs(y - selected)`. */
  function Distance(y: int, selected: int): nat
  {
    if y < selected then selected - y else y - selected
  }

  /**
   * The `availableYears.reduce` of the slider's input handler: starting
   * from the first year, a later year replaces the one kept only when it is
   * strictly closer. The result is a year of the list at the least
   * distance from the selected one.
   */
  function ClosestYear(years: seq<int>, selected: int): (r: int)
    requires years != []
    ensures r in years
    ensures forall i :: 0 <= i < |years| ==> Distance(r, selected) <= Distance(years[i], selected)
    decreases |years|
  {
    if |years| == 1 then years[0]
    else
      var init := years[..|years| - 1];
      var curr := years[|years| - 1];
      var prev := ClosestYear(init, selected);
      assert forall i :: 0 <= i < |init| ==> init[i] == years[i];
      if Distance(curr, selected) < Distance(prev, selected) then curr else prev
  }

  /**
   * On a tie the strict `<` keeps the earlier year: the result is the
   * first year of the list at the least distance.
   */
  lemma {:induction false} ClosestIsFirst(years: seq<int>, selected: int)
    requires years != []
    ensures exists k :: 0 <= k < |years| && years[k] == ClosestYear(years, selected) &&
                        forall i :: 0 <= i < k ==> Distance(years[i], selected) > Distance(years[k], selected)
    decreases |years|
  {
    var r := ClosestYear(years, selected);
    if |years| == 1 {
      assert years[0] == r;
    } else {
      var init := years[..|years| - 1];
      var curr := years[|years| - 1];
      var prev := ClosestYear(init, selected);
      ClosestIsFirst(init, selected);
      var k :| 0 <= k < |init| && init[k] == prev &&
        forall i :: 0 <= i < k ==> Distance(init[i], selected) > Distance(init[k], selected);
      if Distance(curr, selected) < Distance(prev, selected) {
        var last := |years| - 1;
        forall i | 0 <= i < last ensures Distance(years[i], selected) > Distance(years[last], selected) {
          assert years[i] == init[i];
        }
      } else {
        assert years[k] == init[k];
        forall i | 0 <= i < k ensures Distance(years[i], selected) > Distance(years[k], selected) {
          assert years[i] == init[i];
        }
      }
    }
  }

  /**
   * The available years are newest first, so of two years equally close to
   * the selected one the newer wins.
   */
  lemma NewerYearWinsTie(years: seq<int>, selected: int)
    requires years != []
    requires forall i, j :: 0 <= i < j < |years| ==> years[i] > years[j]
    ensures forall i :: 0 <= i < |years| && Distance(years[i], selected) == Distance(ClosestYear(years, selected), selected) ==>
      years[i] <= ClosestYear(years, selected)
  {
    ClosestIsFirst(years, selected);
    var r := ClosestYear(years, selected);
    var k :| 0 <= k < |years| && years[k] == r &&
      forall i :: 0 <= i < k ==> Distance(years[i], selected) > Distance(years[k], selected);
    forall i | 0 <= i < |years| && Distance(years[i], selected) == Distance(r, selected) ensures years[i] <= r {
      assert i <= k || years[k] > years[i];
    }
  }

  /**
   * The year the input handler passes to `updateYear`: the selected year
   * when it has data, the closest available year otherwise.
   */
  function YearToShow(years: seq<int>, selected: int): (r: int)
    requires years != []
    ensures r in years
    ensures forall i :: 0 <= i < |years| ==> Distance(r, selected) <= Distance(years[i], selected)
    ensures selected in years ==> r == selected
  {
    if selected in years then selected else ClosestYear(years, selected)
  }

  /**
   * The membership test in front of the `reduce` changes nothing: a year
   * with data is its own closest year.
   */
  lemma ClosestOfAvailableYear(years: seq<int>, selected: int)
    requires years != []
    ensures selected in years ==> ClosestYear(years, selected) == selected
    ensures YearToShow(years, selected) == ClosestYear(years, selected)
  {
    if selected in years {
      var i :| 0 <= i < |years| && years[i] == selected;
      assert Distance(years[i], selected) == 0;
    }
  }

  // ---------------------------------------------------------------- the slider's bounds

  /** `Math.min(...years)`. */
  function MinYear(years: seq<int>): (m: int)
    requires years != []
    ensures m in years
    ensures forall i :: 0 <= i < |years| ==> m <= years[i]
    decreases |years|
  {
    if |years| == 1 then years[0]
    else
      var init := years[..|years| - 1];
      var m := MinYear(init);
      assert forall i :: 0 <= i < |init| ==> init[i] == years[i];
      if years[|years| - 1] < m then years[|years| - 1] else m
  }

  /** `Math.max(...years)`. */
  function MaxYear(years: seq<int>): (m: int)
    requires years != []
    ensures m in years
    ensures forall i :: 0 <= i < |years| ==> years[i] <= m
    decreases |years|
  {
    if |years| == 1 then years[0]
    else
      var init := years[..|years| - 1];
      var m := MaxYear(init);
      assert forall i :: 0 <= i < |init| ==> init[i] == years[i];
      if m < years[|years| - 1] then years[|years| - 1] else m
  }

  /**
   * The range `initializeYearSlider` gives the slider: the least and the
   * greatest available year; none (the slider is disabled) without years.
   */
  function SliderBounds(years: seq<int>): (b: Option<(int, int)>)
    ensures b.None? <==> years == []
    ensures b.Some? ==> b.value.0 in years && b.value.1 in years
    ensures b.Some? ==> forall i :: 0 <= i < |years| ==> b.value.0 <= years[i] <= b.value.1
  {
    if years == [] then None else Some((MinYear(years), MaxYear(years)))
  }

  /** For the newest-first list of available years the bounds are its last and its first year. */
  lemma DescendingBounds(years: seq<int>)
    requires years != []
    requires forall i, j :: 0 <= i < j < |years| ==> years[i] > years[j]
    ensures SliderBounds(years) == Some((years[|years| - 1], years[0]))
  {
    forall k | 0 <= k < |years| ensures years[|years| - 1] <= years[k] <= years[0] {
      assert k == 0 || years[0] > years[k];
      assert k == |years| - 1 || years[k] > years[|years| - 1];
    }
  }

  /** Any year of the list lies within the slider's bounds. */
  lemma YearWithinBounds(years: seq<int>, y: int)
    requires y in years
    ensures SliderBounds(years).Some?
    ensures SliderBounds(years).value.0 <= y <= SliderBounds(years).value.1
  {
    var i :| 0 <= i < |years| && years[i] == y;
  }

  // ---------------------------------------------------------------- the data summary

  /** What `displayDataSummary` reports. */
  datatype Summary = Summary(year: int, totalNodes: nat, totalLinks: nat,
                             teams: nat, salaryRanges: nat, performanceLevels: nat)

  function OfKind(kind: G.NodeKind): Node -> bool
  {
    (n: Node) => n.category == kind
  }

  /** The number of nodes of one category. */
  function KindCount(nodes: seq<Node>, kind: G.NodeKind): nat
    decreases |nodes|
  {
    if nodes == [] then 0
    else KindCount(nodes[..|nodes| - 1], kind) + (if nodes[|nodes| - 1].category == kind then 1 else 0)
  }

  /** The count is the length of `nodes.filter(n => n.category === kind)`. */
  lemma {:induction false} KindCountIsFilterLength(nodes: seq<Node>, kind: G.NodeKind)
    ensures KindCount(nodes, kind) == |Filter(nodes, OfKind(kind))|
    decreases |nodes|
  {
    if nodes != [] {
      KindCountIsFilterLength(nodes[..|nodes| - 1], kind);
    }
  }

  /**
   * The summary of a graph: node and link counts, and the nodes of each
   * category. Every node has one of the three categories, so the three
   * counts add up to the node count.
   */
  function DataSummary(g: TeamGraph, year: int): (s: Summary)
    ensures s.year == year && s.totalNodes == |g.nodes| && s.totalLinks == |g.links|
    ensures s.teams + s.salaryRanges + s.performanceLevels == s.totalNodes
  {
    KindsPartition(g.nodes);
    Summary(year, |g.nodes|, |g.links|,
      KindCount(g.nodes, G.TeamKind), KindCount(g.nodes, G.SalaryKind), KindCount(g.nodes, G.PerformanceKind))
  }

  /** The three category counts split any node list. */
  lemma {:induction false} KindsPartition(nodes: seq<Node>)
    ensures KindCount(nodes, G.TeamKind) + KindCount(nodes, G.SalaryKind) + KindCount(nodes, G.PerformanceKind) == |nodes|
    decreases |nodes|
  {
    if nodes != [] {
      KindsPartition(nodes[..|nodes| - 1]);
    }
  }

  /** Counting one category in a run of nodes all of one category. */
  lemma RunOfKind(nodes: seq<Node>, runKind: G.NodeKind, kind: G.NodeKind)
    requires forall i :: 0 <= i < |nodes| ==> nodes[i].category == runKind
    ensures |Filter(nodes, OfKind(kind))| == if kind == runKind then |nodes| else 0
  {
    if kind == runKind {
      FilterAll(nodes, OfKind(kind));
    } else {
      FilterNone(nodes, OfKind(kind));
    }
  }

  /** The number of `kind` nodes in a layout: the length of the list of that category. */
  lemma LayoutKindCount(t: seq<string>, ids: map<string, string>, s: seq<string>, p: seq<string>, kind: G.NodeKind)
    requires HaveIds(t, ids)
    ensures |Filter(Layout(t, ids, s, p), OfKind(kind))| ==
      match kind
      case TeamKind => |t|
      case SalaryKind => |s|
      case PerformanceKind => |p|
  {
    var a := TeamRun(t, ids);
    var b := CategoryRun(|t|, s, G.SalaryKind);
    var c := CategoryRun(|t| + |s|, p, G.PerformanceKind);
    forall i | 0 <= i < |a| ensures a[i].category == G.TeamKind {
      TeamRunAt(t, ids, i);
    }
    forall i | 0 <= i < |b| ensures b[i].category == G.SalaryKind {
      CategoryRunAt(|t|, s, G.SalaryKind, i);
    }
    forall i | 0 <= i < |c| ensures c[i].category == G.PerformanceKind {
      CategoryRunAt(|t| + |s|, p, G.PerformanceKind, i);
    }
    FilterAppend(a + b, c, OfKind(kind));
    FilterAppend(a, b, OfKind(kind));
    RunOfKind(a, G.TeamKind, kind);
    RunOfKind(b, G.SalaryKind, kind);
    RunOfKind(c, G.PerformanceKind, kind);
  }

  /**
   * The summary of a season's graph counts one team node per used team
   * name, and at most three salary ranges and three performance levels:
   * the used ones.
   */
  lemma SeasonSummary(teamData: seq<TeamRow>, salaryData: seq<SalaryRow>, year: int)
    ensures var es := SeasonEntries(teamData, salaryData, year);
      var s := DataSummary(GraphOf(teamData, salaryData, year), year);
      s.teams == |UsedTeamNames(es)| &&
      s.salaryRanges == |UsedSalaryNames(es)| && s.salaryRanges <= 3 &&
      s.performanceLevels == |UsedPerformanceNames(es)| && s.performanceLevels <= 3
  {
    var es := SeasonEntries(teamData, salaryData, year);
    UsedTeamNamesHaveIds(es);
    var t, ids, s, p := UsedTeamNames(es), TeamIdsByName(es), UsedSalaryNames(es), UsedPerformanceNames(es);
    assert GraphOf(teamData, salaryData, year).nodes == Layout(t, ids, s, p);
    var nodes := Layout(t, ids, s, p);
    LayoutKindCount(t, ids, s, p, G.TeamKind);
    LayoutKindCount(t, ids, s, p, G.SalaryKind);
    LayoutKindCount(t, ids, s, p, G.PerformanceKind);
    KindCountIsFilterLength(nodes, G.TeamKind);
    KindCountIsFilterLength(nodes, G.SalaryKind);
    KindCountIsFilterLength(nodes, G.PerformanceKind);
  }

  // ---------------------------------------------------------------- the views

  datatype View = Overview | TeamDetail

  /** `selectedTeamData`. */
  datatype Selection = Selection(teamName: string, teamId: string)

  /** The three loaded tables. */
  datatype Tables = Tables(teamData: seq<TeamRow>, salaryData: seq<SalaryRow>, battingData: seq<BattingRow>)

  /** The range input: enabled or disabled, its bounds and its value. */
  datatype YearSlider = YearSlider(enabled: bool, min: int, max: int, value: int)

  /**
   * `initializeYearSlider`: with years, the slider is enabled over their
   * range and set to 2010, which the range input pulls into its bounds, so
   * that it starts on 2010 exactly when 2010 lies within them; without
   * years, it is disabled and otherwise left as it was.
   */
  function InitialSlider(years: seq<int>, markup: YearSlider): (s: YearSlider)
    ensures years == [] ==> s == markup.(enabled := false)
    ensures years != [] ==> s.enabled && SliderBounds(years) == Some((s.min, s.max)) && s.min <= s.value <= s.max
    ensures years != [] ==> (s.value == 2010 <==> s.min <= 2010 <= s.max)
  {
    match SliderBounds(years)
    case None => markup.(enabled := false)
    case Some((lo, hi)) => YearSlider(true, lo, hi, Slider.Clamp(2010, lo, hi))
  }

  /**
   * `g` is the graph the processor builds for the season `year` of the
   * tables. It is stated for every year equal to `year`, so that the
   * solver expands the graph's definition only where a proof names that
   * graph itself.
   */
  predicate SeasonShown(g: TeamGraph, t: Tables, year: int)
  {
    forall y :: y == year ==> g == GraphOf(t.teamData, t.salaryData, y)
  }

  /**
   * `if (parseInt(slider.value) !== year) slider.value = year`: the range
   * input keeps a value written to it within its bounds, so a year within
   * them is taken as it is.
   */
  function MovedSlider(s: YearSlider, year: int): (r: YearSlider)
    ensures r.enabled == s.enabled && r.min == s.min && r.max == s.max
    ensures s.min <= year <= s.max ==> r.value == year
    ensures s.min <= s.value <= s.max ==> r.min <= r.value <= r.max
  {
    if s.value == year then s else s.(value := Slider.Clamp(year, s.min, s.max))
  }

  /** What `calculateBattingStats` returns, as a value. */
  function DetailOf(battingData: seq<BattingRow>, teamId: string, year: int): Option<TeamDetailChart.BattingComparison>
  {
    var rows := TeamDetailChart.TeamRows(battingData, teamId, year);
    if rows == [] then None
    else Some(TeamDetailChart.BattingComparison(
      TeamDetailChart.StatsOf(rows), TeamDetailChart.StatsOf(TeamDetailChart.LeagueRows(battingData, year)), teamId, year))
  }

  /**
   * The module-level state of `main.js` and what the page shows: the graph
   * the Sankey chart last drew (empty before any drawing), the summary
   * panel last displayed and the statistics the team detail chart last
   * drew. The chart and the summary are visible in the overview, the
   * detail chart in the team detail view.
   */
  class Dashboard {
    /** `dataProcessor`, which counts as set once `loaded` holds. */
    const processor: TeamProcessor.DataProcessor
    var loaded: bool
    var data: Tables
    var availableYears: seq<int>
    var slider: YearSlider
    var currentView: View
    var selectedTeam: Option<Selection>
    var chart: TeamGraph
    var summary: Option<Summary>
    var detail: Option<TeamDetailChart.BattingComparison>

    /** The team detail view belongs to the selected team, and shows its statistics. */
    predicate ViewConsistent()
      reads this
    {
      (currentView == TeamDetail <==> selectedTeam.Some?) &&
      (currentView == TeamDetail ==> detail.Some? && detail.value.teamId == selectedTeam.value.teamId)
    }

    /** The chart shows the processor's graph. */
    predicate ChartConsistent()
      reads this, processor
    {
      chart == processor.Current()
    }

    /** Once loaded, the slider is enabled exactly when there are years, and then spans them. */
    predicate SliderConsistent()
      reads this
    {
      loaded ==>
        (slider.enabled <==> availableYears != []) &&
        (slider.enabled ==>
          SliderBounds(availableYears) == Some((slider.min, slider.max)) && slider.min <= slider.value <= slider.max)
    }

    predicate Valid()
      reads this, processor
    {
      ViewConsistent() && ChartConsistent() && SliderConsistent()
    }

    /** The guard of `updateYear`: a processor and non-empty team and salary data. */
    predicate Ready()
      reads this
    {
      loaded && |data.teamData| > 0 && |data.salaryData| > 0
    }

    /**
     * The state before `init`: no data, no processor, the overview with
     * nothing drawn; the slider holds what the page's markup gives it,
     * which is not part of this model.
     */
    constructor (markup: YearSlider)
      ensures Valid() && !loaded && slider == markup
      ensures currentView == Overview && selectedTeam == None
      ensures data == Tables([], [], []) && availableYears == []
      ensures chart == TeamGraph([], []) && summary == None && detail == None
    {
      processor := new TeamProcessor.DataProcessor();
      loaded := false;
      data := Tables([], [], []);
      availableYears := [];
      slider := markup;
      currentView := Overview;
      selectedTeam := None;
      chart := TeamGraph([], []);
      summary := None;
      detail := None;
    }

    /**
     * `init` once the data has loaded: the processor is set, the available
     * years and the slider computed, and the 2010 graph drawn with its
     * summary when there is any year at all (2010 itself need not have data).
     */
    method Init(tables: Tables)
      requires Valid() && !loaded
      modifies this, processor
      ensures Valid() && loaded && data == tables
      ensures availableYears == TeamProcessor.AvailableYears(tables.teamData, tables.salaryData)
      ensures slider == InitialSlider(availableYears, old(slider))
      ensures currentView == old(currentView) && selectedTeam == old(selectedTeam) && detail == old(detail)
      ensures availableYears != [] ==> SeasonShown(chart, tables, 2010) && summary == Some(DataSummary(chart, 2010))
      ensures availableYears == [] ==> chart == old(chart) && summary == old(summary)
    {
      Load(tables);
      if availableYears != [] {
        DrawFirstYear();
      }
    }

    /** The data, the processor, the available years and the slider of `init`. */
    method Load(tables: Tables)
      requires Valid() && !loaded
      modifies this
      ensures Valid() && loaded && data == tables
      ensures availableYears == TeamProcessor.AvailableYears(tables.teamData, tables.salaryData)
      ensures slider == InitialSlider(availableYears, old(slider))
      ensures currentView == old(currentView) && selectedTeam == old(selectedTeam)
      ensures chart == old(chart) && summary == old(summary) && detail == old(detail)
    {
      data := tables;
      loaded := true;
      availableYears := TeamProcessor.AvailableYears(data.teamData, data.salaryData);
      slider := InitialSlider(availableYears, slider);
    }

    /** The first drawing of `init`, always of 2010. */
    method DrawFirstYear()
      requires Valid()
      modifies this, processor
      ensures Valid()
      ensures SeasonShown(chart, data, 2010) && summary == Some(DataSummary(chart, 2010))
      ensures loaded == old(loaded) && data == old(data) && availableYears == old(availableYears) && slider == old(slider)
      ensures currentView == old(currentView) && selectedTeam == old(selectedTeam) && detail == old(detail)
    {
      chart := ProcessSeason(2010);
      ShowSummary(2010);
    }

    /** `dataProcessor.processDataForYear` on the loaded tables. */
    method ProcessSeason(year: int) returns (g: TeamGraph)
      modifies processor
      ensures g == processor.Current() && SeasonShown(g, data, year)
    {
      g := processor.ProcessDataForYear(data.teamData, data.salaryData, year);
    }

    /** `dataProcessor.updateYear` on the loaded tables. */
    method UpdateSeason(year: int) returns (g: TeamGraph)
      modifies processor
      ensures g == processor.Current() && SeasonShown(g, data, year)
    {
      g := processor.UpdateYear(year, data.teamData, data.salaryData);
    }

    /** `displayDataSummary` for the graph on the chart. */
    method ShowSummary(year: int)
      modifies this
      ensures summary == Some(DataSummary(chart, year))
      ensures loaded == old(loaded) && data == old(data) && availableYears == old(availableYears) && slider == old(slider)
      ensures currentView == old(currentView) && selectedTeam == old(selectedTeam) && detail == old(detail)
      ensures chart == old(chart)
    {
      summary := Some(DataSummary(chart, year));
    }

    /**
     * `updateYear`: nothing happens and the result is `None` unless the
     * guard holds. Then the slider is moved to the year; in the overview
     * the processor rebuilds the graph of that year, which is drawn,
     * summarised and returned; in the team detail view the selected team's
     * statistics of that year are drawn when it has rows, and the result is
     * `None`.
     */
    method UpdateYear(year: int) returns (r: Option<TeamGraph>)
      requires Valid()
      modifies this, processor
      ensures Valid()
      ensures loaded == old(loaded) && data == old(data) && availableYears == old(availableYears)
      ensures currentView == old(currentView) && selectedTeam == old(selectedTeam)
      ensures !old(Ready()) ==> r == None && unchanged(this, processor)
      ensures old(Ready()) ==> slider == MovedSlider(old(slider), year)
      ensures old(Ready()) && currentView == Overview ==>
        r == Some(chart) && SeasonShown(chart, data, year) &&
        summary == Some(DataSummary(chart, year)) && detail == old(detail)
      ensures currentView == TeamDetail ==>
        r == None && chart == old(chart) && summary == old(summary)
      ensures old(Ready()) && currentView == TeamDetail ==>
        detail == match DetailOf(data.battingData, selectedTeam.value.teamId, year)
          case Some(stats) => Some(stats)
          case None => old(detail)
    {
      r := None;
      if loaded && |data.teamData| > 0 && |data.salaryData| > 0 {
        slider := MovedSlider(slider, year);
        if currentView == Overview {
          var g := RedrawOverview(year);
          r := Some(g);
        } else if currentView == TeamDetail && selectedTeam.Some? {
          RedrawDetail(year);
        }
      }
    }

    /** The overview branch of `updateYear`: the year's graph is rebuilt, drawn and summarised. */
    method RedrawOverview(year: int) returns (g: TeamGraph)
      requires Valid()
      modifies this, processor
      ensures Valid()
      ensures chart == g && SeasonShown(g, data, year) && summary == Some(DataSummary(g, year))
      ensures loaded == old(loaded) && data == old(data) && availableYears == old(availableYears) && slider == old(slider)
      ensures currentView == old(currentView) && selectedTeam == old(selectedTeam) && detail == old(detail)
    {
      g := UpdateSeason(year);
      chart := g;
      ShowSummary(year);
    }

    /** The team detail branch of `updateYear`: the selected team's statistics, when it has rows. */
    method RedrawDetail(year: int)
      requires Valid() && currentView == TeamDetail
      modifies this
      ensures Valid() && selectedTeam == old(selectedTeam)
      ensures detail == match DetailOf(data.battingData, selectedTeam.value.teamId, year)
        case Some(stats) => Some(stats)
        case None => old(detail)
      ensures loaded == old(loaded) && data == old(data) && availableYears == old(availableYears) && slider == old(slider)
      ensures currentView == old(currentView) && selectedTeam == old(selectedTeam)
      ensures chart == old(chart) && summary == old(summary)
    {
      var teamId := selectedTeam.value.teamId;
      var stats := TeamDetailChart.CalculateBattingStats(data.battingData, teamId, year);
      TeamDetailChart.NoTeamRows(data.battingData, teamId, year);
      if stats.Some? {
        detail := stats;
      }
    }

    /**
     * The slider's `input` handler, attached only when there are years:
     * the year shown is the selected one if it has data and the closest
     * available one otherwise, and the slider ends on it.
     */
    method OnSliderInput(selected: int) returns (r: Option<TeamGraph>)
      requires Valid() && loaded && availableYears != []
      requires slider.min <= selected <= slider.max
      modifies this, processor
      ensures Valid()
      ensures loaded == old(loaded) && data == old(data) && availableYears == old(availableYears)
      ensures slider.enabled == old(slider.enabled) && slider.min == old(slider.min) && slider.max == old(slider.max)
      ensures slider.value == if old(Ready()) then YearToShow(availableYears, selected) else selected
      ensures currentView == old(currentView) && selectedTeam == old(selectedTeam)
      ensures old(Ready()) && currentView == Overview ==>
        r == Some(chart) && SeasonShown(chart, data, YearToShow(availableYears, selected)) &&
        summary == Some(DataSummary(chart, YearToShow(availableYears, selected))) && detail == old(detail)
      ensures !old(Ready()) || currentView == TeamDetail ==>
        r == None && chart == old(chart) && summary == old(summary)
      ensures old(Ready()) && currentView == TeamDetail ==>
        detail == match DetailOf(data.battingData, selectedTeam.value.teamId, YearToShow(availableYears, selected))
          case Some(stats) => Some(stats)
          case None => old(detail)
      ensures !old(Ready()) ==> detail == old(detail)
    {
      slider := slider.(value := selected);
      var year: int;
      if selected in availableYears {
        year := selected;
      } else {
        year := ClosestYear(availableYears, selected);
      }
      YearWithinBounds(availableYears, year);
      r := UpdateYear(year);
    }

    /**
     * `handleTeamSelection`: the team is selected and its statistics for
     * the slider's year are drawn in the team detail view; when it has no
     * rows that year, the page falls back to the overview with no team
     * selected.
     */
    method HandleTeamSelection(teamName: string, teamId: string)
      requires Valid()
      modifies this
      ensures Valid()
      ensures var stats := DetailOf(data.battingData, teamId, slider.value);
        (stats.Some? ==> currentView == TeamDetail && selectedTeam == Some(Selection(teamName, teamId)) && detail == stats) &&
        (stats.None? ==> currentView == Overview && selectedTeam == None && detail == old(detail))
      ensures loaded == old(loaded) && data == old(data) && availableYears == old(availableYears) && slider == old(slider)
      ensures chart == old(chart) && summary == old(summary)
    {
      selectedTeam := Some(Selection(teamName, teamId));
      currentView := TeamDetail;
      var stats := TeamDetailChart.CalculateBattingStats(data.battingData, teamId, slider.value);
      TeamDetailChart.NoTeamRows(data.battingData, teamId, slider.value);
      if stats.Some? {
        detail := stats;
      } else {
        HandleBackToOverview();
      }
    }

    /**
     * `handleBackToOverview`: the overview with no team selected. The chart
     * is not redrawn: it still shows the graph of the last year drawn in
     * the overview, whatever year the slider shows.
     */
    method HandleBackToOverview()
      requires ChartConsistent() && SliderConsistent()
      modifies this
      ensures Valid()
      ensures currentView == Overview && selectedTeam == None
      ensures loaded == old(loaded) && data == old(data) && availableYears == old(availableYears) && slider == old(slider)
      ensures chart == old(chart) && summary == old(summary) && detail == old(detail)
    {
      currentView := Overview;
      selectedTeam := None;
    }
  }
}
