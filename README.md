# Baseball salary and performance dashboard: a Dafny model

The dashboard shows each Major League season as a Sankey diagram.
Flows run from teams to salary ranges (Low, Medium, High) and from salary
ranges to performance levels (Low, Medium, High). A slider picks the season.
Clicking a team opens a detail view, which compares the team's on-base
percentage and slugging with the league's.

This project models the parts of the dashboard that compute something:

- **Two aggregation engines.** Each is a `DataProcessor` class whose
  `processDataForYear` rebuilds its node and link lists for one season.
  - The team-level engine (`dataProcessor.js`) uses one row per team and
    season. Salary is the mean of the team's salary rows, and performance is
    the win percentage.
  - The player-level engine (`src/dataProcessor.js`) joins batting and salary
    rows per player. It scores each player as `0.5*H + 2B` and sets
    performance cuts at the 33rd and 67th percentiles of the season's scores.
    It then groups the players by team, categorises each team by its
    averages, and keeps the players behind every node and link.
- **Two statistics helpers.**
  - `TeamDetailChart` pools a team's and the league's batting totals.
  - `TeamBarChart` averages per-player ratios over the players with at-bats.
- **The value logic of the `D3Slider` year slider.** The year is clamped into
  its range, and a callback is told of every change.
- **The string rules of `LocationProcessor`.** These cover the geocoding query
  built from a park's name and address, the park table, its statistics, and
  the CSV export with its quoting.
- **The page logic of `main.js`.** This covers the available years, the
  slider's bounds, the closest year used when a season has no data, the data
  summary, and the overview / team-detail view state with its handlers.
  `main.js` is wired to the team-level engine.

## How the model is organised

- **Modules that take the source's imperative form.**
  - `TeamProcessor.DataProcessor` and `PlayerProcessor.DataProcessor` are
    classes. Their fields are the source object's fields.
  - The loops of the two `DataProcessor` classes and of the two chart
    helpers (`TeamDetailChart.CalculateStats`, `TeamBarChart.Average`) are
    `while` or `for` loops in methods. Each method is proved equal to a
    function of the modules below.
  - Three loops of the page and export code are functions instead: the
    park loop of `exportFile` is `Location.ExportCsv` over a mapped
    sequence, the closest-year `reduce` is the recursive `App.ClosestYear`,
    and the node filters of `displayDataSummary` are `App.KindCount`.
  - `Slider.D3Slider` and `App.Dashboard` are classes too.
  - `Sorting.SortInPlace` is the in-place array sort of the percentile
    computation.
- **Value-level modules.** `TeamEngine`, `PlayerJoin`, `PlayerTeams`,
  `PlayerGraph` and `PlayerLinks` define what the engines compute. The
  properties are proved about these definitions.
- **Shared modules.**
  - `Categories`: the two category ladders and the classification rules.
  - `Flows`: the `flows` dictionary, with keys in insertion order.
  - `Years`: the available years.
  - `Records`: the three input tables as typed rows.
  - `Seqs`: generic sequence helpers.

## Model

| member | source | states |
|---|---|---|
| Categories.CategorizeSalary | src/dataProcessor.js:45-50 | High exactly from 6,000,000 up, Medium exactly in [2,500,000, 6,000,000), Low exactly below 2,500,000 |
| Categories.CategorizeSalaryMonotone | src/dataProcessor.js:45-50 | a larger salary never gets a lower salary category |
| Categories.CategorizeByCuts | src/dataProcessor.js:38-42 | High exactly when the score reaches the high cut, Medium exactly between the medium and the high cut, Low otherwise |
| Categories.CategorizeByCutsMonotone | src/dataProcessor.js:38-42 | whatever the cuts, a larger score never gets a lower performance category |
| Categories.SalaryNameSubstrings | src/dataProcessor.js:341-352 | the substring test that classifies links sees "Salary" and not "Performance" in every salary range name |
| Categories.PerformanceNameSubstring | src/dataProcessor.js:341-345 | every performance level name contains "Performance" |
| Categories.CategoryNamesDistinct | src/dataProcessor.js:271-297 | the six category node names are pairwise distinct |
| Flows.Bump | src/dataProcessor.js:233-234 | `flows[k] = (flows[k] \|\| 0) + 1` raises k's count by one, leaves every other count alone, and appends k to the key order only when it is new |
| Flows.BumpTotal | dataProcessor.js:103-109 | each bump adds one to a selected total exactly when the bumped key is selected |
| Years.CommonYears | dataProcessor.js:185-192 | a year is listed iff it occurs in both inputs; the list is strictly newest first, so it has no duplicate |
| Years.CommonYearsFacts | src/dataProcessor.js:380-387 | the de-duplicated, intersected and descending-sorted year list has exactly the common years, strictly descending |
| Sorting.SortAsc | src/dataProcessor.js:54 | the ascending sort is sorted and a permutation of its input |
| Sorting.SortedAscUnique | src/dataProcessor.js:54 | two ascending lists with the same elements are equal, so the result does not depend on the sort algorithm |
| Sorting.SortInPlace | src/dataProcessor.js:54 | the in-place sort leaves the array equal to the ascending sort of its old contents |
| Sorting.InsertLast | src/dataProcessor.js:54 | one insertion pass extends the sorted prefix by one element and keeps the array a permutation |
| Sorting.SortDesc | src/dataProcessor.js:386 | the descending sort is sorted newest first and a permutation of its input |
| PlayerJoin.TeamName | src/dataProcessor.js:26-28 | `getTeamName` returns the looked-up name or the id itself, and an empty name only for an empty id |
| PlayerJoin.TeamNameFallback | src/dataProcessor.js:17-28 | an id that no team row has resolves to itself |
| PlayerJoin.TeamNameResolution | src/dataProcessor.js:17-23 | an id resolves to the display name (`name \|\| team_id`) of the last team row with that id |
| PlayerJoin.PerformanceScoreMonotone | src/dataProcessor.js:31-35 | the score never drops when hits or doubles grow |
| PlayerJoin.JoinRowsIsMap | src/dataProcessor.js:88-114 | the join loop yields exactly one record per batting row whose player has a salary, in row order |
| PlayerJoin.JoinYearSpec | src/dataProcessor.js:72-114 | the k-th joined record comes from the k-th batting row of the year whose player has a salary that year; it carries that row's ids and counts, the score 0.5*h + doubles and the category of its salary |
| PlayerJoin.JoinedSalaryIsLast | src/dataProcessor.js:79-82 | a joined salary is the salary of the last salary row of that player in the year |
| PlayerJoin.JoinedSalaryAt | src/dataProcessor.js:93-108 | the k-th record carries the looked-up salary of the k-th kept row's player |
| PlayerJoin.JoinExcludes | src/dataProcessor.js:93-96 | a batting row drops out of the join exactly when its player has no salary row that year |
| PlayerJoin.PercentilesOf | src/dataProcessor.js:53-65 | thresholds exist exactly for a non-empty score list |
| PlayerJoin.PercentilesSpec | src/dataProcessor.js:53-65 | for any sorted permutation of the scores, the thresholds sit at indices 0, floor(0.33n), floor(0.67n) and n-1, all in range; `count` is n; low <= medium <= high <= max; the average lies in [low, max] |
| PlayerJoin.ThresholdsAt | src/dataProcessor.js:57-64 | on an ascending list the thresholds are read off by position and are ordered |
| PlayerJoin.PercentilesOfSorted | src/dataProcessor.js:53-65 | sorting an already sorted list changes nothing: the thresholds are the list's own entries and its mean |
| PlayerJoin.IndicesInRange | src/dataProcessor.js:59-60 | for a non-empty list, medium index <= high index < n |
| PlayerJoin.CategorizePerformance | src/dataProcessor.js:38-42 | against thresholds the score is High exactly from `high` up and Medium exactly in [medium, high); with no thresholds (an empty year) it is Low |
| PlayerJoin.ClassifyAll | src/dataProcessor.js:130-135 | one classified record per joined record, in the same order |
| PlayerJoin.Scores | src/dataProcessor.js:97-98 | `performanceScores` lists every joined record's score, in join order |
| PlayerJoin.ProcessPlayerDataSpec | src/dataProcessor.js:118-137 | after `processPlayerData`, each record keeps its score and salary and carries the category of its score against the year's cuts; `totalPlayers` is the record count; thresholds exist exactly when some record does |
| PlayerTeams.TallyTotals | src/dataProcessor.js:154-164 | every player is counted under exactly one salary and one performance category, so each counter object adds up to the player count |
| PlayerTeams.AggregateKeys | src/dataProcessor.js:142-157 | the grouping's keys are the distinct team ids, in order of first appearance |
| PlayerTeams.AggregateSpec | src/dataProcessor.js:144-165 | each group holds exactly its team's players in input order, with totals that are sums over them and counters that count them |
| PlayerTeams.TeamSizesSum | src/dataProcessor.js:144-165 | grouping is a partition: the team sizes add up to the number of records |
| PlayerTeams.Finish | src/dataProcessor.js:168-181 | the averages times the player count give back the totals; the team categories are those of the averages, and the performance cuts are the year's player cuts |
| PlayerTeams.TeamAt | src/dataProcessor.js:168-181 | the k-th finished team is the one of the k-th distinct team id, with all the facts above |
| PlayerTeams.AggregateByTeamSpec | src/dataProcessor.js:141-184 | one finished team per distinct team id in order of first appearance, with pairwise distinct ids; every record lands in some team, and the team sizes add up to the records |
| PlayerGraph.FlowCountIsTeamCount | src/dataProcessor.js:229-234 | a flow's count is the number of teams that emit it |
| PlayerGraph.SalaryToPerformanceCount | src/dataProcessor.js:231-234 | a salary-to-performance flow counts teams with that pair of team-level categories, not players |
| PlayerGraph.FlowTotals | src/dataProcessor.js:219-237 | all flow counts add up to twice the number of teams, and the flows into performance levels to the number of teams |
| PlayerGraph.FlowKeyTeam | src/dataProcessor.js:219-237 | every flow key is one of the two flows of some team |
| PlayerGraph.UsedNamesSpec | src/dataProcessor.js:224-227 | a name is used iff some team names it as its own name or one of its two category names |
| PlayerGraph.FlowEndpointsUsed | src/dataProcessor.js:224-234 | both ends of every flow are used names |
| PlayerGraph.SalaryNameUsed | src/dataProcessor.js:224-227 | a salary range is used iff some team is in it (or is named like it); without such team names, iff some team is in it |
| PlayerGraph.TeamNamesUsed | src/dataProcessor.js:219-227 | every team's name is used, so every team gets a node |
| PlayerGraph.PushNodeValid | src/dataProcessor.js:247-266 | pushing a node with its details keeps ids equal to positions, details under exactly the node ids, and the index pointing at nodes of that name |
| PlayerGraph.TeamNodesShape | src/dataProcessor.js:243-268 | one team node per team in order, with its player count and details; the index holds exactly the team names |
| PlayerGraph.CategoryNodesShape | src/dataProcessor.js:270-320 | a category loop appends one node per used name of its list, in list order, each with its players and their count; earlier nodes, details and other index entries are unchanged |
| PlayerGraph.BuildNodesValid | src/dataProcessor.js:239-320 | the node table is consistent and has one node per team plus one per used salary range and performance level |
| PlayerGraph.BuildNodesTeams | src/dataProcessor.js:243-268 | node k, for k below the team count, is the k-th team's node with its details |
| PlayerGraph.BuildNodesSalary | src/dataProcessor.js:270-294 | the j-th used salary range is the node right after the teams plus j, indexed by its name, holding the players of that salary category |
| PlayerGraph.BuildNodesPerformance | src/dataProcessor.js:296-320 | the j-th used performance level follows the salary nodes, indexed by its name, holding the players of that level |
| PlayerGraph.BuildNodesLength | src/dataProcessor.js:239-320 | node count = teams + used salary ranges + used performance levels |
| PlayerGraph.BuildNodesIndex | src/dataProcessor.js:240-320 | `nodeIndex` holds exactly the used names |
| PlayerGraph.NodeKindAt | src/dataProcessor.js:243-320 | nodes are teams, then salary ranges, then performance levels |
| PlayerGraph.SalaryNodeContents | src/dataProcessor.js:270-294 | a salary node's players are all players whose own salary category is that range |
| PlayerGraph.PerformanceNodeContents | src/dataProcessor.js:296-320 | a performance node's players are all players whose own performance category is that level |
| PlayerGraph.UsedSalaryNamesOrder | src/dataProcessor.js:271-273 | used salary ranges are materialised in Low, Medium, High order |
| PlayerGraph.UsedPerformanceNamesOrder | src/dataProcessor.js:297-299 | used performance levels are materialised in Low, Medium, High order |
| PlayerLinks.FindTeam | src/dataProcessor.js:348 | `teams.find` returns a team of that name, and nothing exactly when no team has it |
| PlayerLinks.FindTeamFirst | src/dataProcessor.js:348 | the team found is the first one of that name |
| PlayerLinks.BuildLinksAll | src/dataProcessor.js:323-365 | with both ends indexed, key i becomes link i carrying its count, with its details filed under exactly id i |
| PlayerLinks.BuildLinksDropsUnindexed | src/dataProcessor.js:329 | a key with an end that has no node produces no link |
| PlayerLinks.LinkCountBound | src/dataProcessor.js:323-365 | there are never more links than flow keys |
| PlayerLinks.LinksTotalIsFlowTotal | src/dataProcessor.js:323-336 | the selected link values add up to the selected flow counts |
| PlayerLinks.SankeyLinks | src/dataProcessor.js:322-365 | every flow becomes a link; link i's value and details agree with flow key i and with the link itself |
| PlayerLinks.TargetIndexKind | src/dataProcessor.js:325-326 | a flow ends at a performance node iff its target is a performance name |
| PlayerLinks.SankeyLinkTotals | src/dataProcessor.js:323-336 | all link values add up to twice the team count, and links into performance nodes to the team count |
| PlayerLinks.SalaryToPerformanceDetails | src/dataProcessor.js:341-345 | a salary-to-performance link lists all players with exactly that pair of player-level categories, while its value counts teams with that pair of team-level categories |
| PlayerLinks.TeamToSalaryDetails | src/dataProcessor.js:346-351 | a team-to-salary link lists the players of the first team of that name whose own salary category is the target |
| PlayerProcessor.YearWithoutRecords | src/dataProcessor.js:202-206 | a season without joined players gives the empty graph |
| PlayerProcessor.YearWithRecords | src/dataProcessor.js:208-377 | otherwise the graph is built from the season's finished teams and records, and the snapshot carries the season's statistics |
| PlayerProcessor.SankeyGraphValid | src/dataProcessor.js:239-365 | in the built graph, node ids are positions, every link joins two existing nodes, and details match their nodes and links |
| PlayerProcessor.YearGraphValid | src/dataProcessor.js:187-377 | every season's graph is consistent |
| PlayerProcessor.AvailableYears | src/dataProcessor.js:380-387 | the years with both batting and salary rows, strictly newest first |
| PlayerProcessor.GroupsNonEmpty | src/dataProcessor.js:168-171 | every grouped team has a player, so the averages never divide by zero |
| PlayerProcessor.DataProcessor.constructor | src/dataProcessor.js:6-14 | empty graph, year 2004, no statistics, no team names |
| PlayerProcessor.DataProcessor.InitializeTeamLookup | src/dataProcessor.js:17-23 | the lookup becomes the team table's id-to-name map; nothing else changes |
| PlayerProcessor.DataProcessor.BuildLookup | src/dataProcessor.js:19-21 | the loop builds the id-to-name map, a later row overwriting an earlier one |
| PlayerProcessor.DataProcessor.GetTeamName | src/dataProcessor.js:26-28 | resolves through the current lookup with the id as fallback |
| PlayerProcessor.DataProcessor.SumScores | src/dataProcessor.js:63 | the reduce gives the sum of the array |
| PlayerProcessor.DataProcessor.CalculatePerformancePercentiles | src/dataProcessor.js:53-65 | sorts the copied array in place into the ascending sort of its old contents, and returns the thresholds of the scores |
| PlayerProcessor.DataProcessor.BuildSalaryLookup | src/dataProcessor.js:79-82 | player id to the salary of the player's last row |
| PlayerProcessor.DataProcessor.JoinPlayers | src/dataProcessor.js:88-114 | the loop builds the joined records and, in step, their scores |
| PlayerProcessor.DataProcessor.ClassifyPlayers | src/dataProcessor.js:130-135 | the loop classifies every joined record against the thresholds |
| PlayerProcessor.DataProcessor.JoinAndClassify | src/dataProcessor.js:72-135 | the season's classified records and statistics |
| PlayerProcessor.DataProcessor.ProcessPlayerData | src/dataProcessor.js:68-138 | returns the season's classified records and stores the season's statistics under `year`; the graph fields are unchanged |
| PlayerProcessor.DataProcessor.GroupByTeam | src/dataProcessor.js:144-165 | the first pass builds the grouping of the records |
| PlayerProcessor.DataProcessor.AggregateByTeam | src/dataProcessor.js:141-184 | the finished teams, with the current year's thresholds |
| PlayerProcessor.DataProcessor.CollectFlows | src/dataProcessor.js:214-237 | the `flows` dictionary and the `usedNodes` set of the teams |
| PlayerProcessor.DataProcessor.AddTeamNodes | src/dataProcessor.js:243-268 | pushes exactly the team node table onto the emptied fields |
| PlayerProcessor.DataProcessor.AddCategoryNodes | src/dataProcessor.js:270-320 | pushes the used nodes of one category list after those already there |
| PlayerProcessor.DataProcessor.AddLinks | src/dataProcessor.js:322-365 | pushes the link table of the flows onto the emptied link fields |
| PlayerProcessor.DataProcessor.RebuildGraph | src/dataProcessor.js:208-365 | the fields become the graph of the teams and records |
| PlayerProcessor.DataProcessor.ClearGraph | src/dataProcessor.js:195-199 | the four graph fields are emptied; year, statistics and lookup are kept |
| PlayerProcessor.DataProcessor.LoadYear | src/dataProcessor.js:195-377 | the year becomes current, its statistics are stored, and the fields and the result are the season's graph |
| PlayerProcessor.DataProcessor.BuildYear | src/dataProcessor.js:202-377 | from the joined records, the fields and the result become the season's graph (empty without records) |
| PlayerProcessor.DataProcessor.ProcessDataForYear | src/dataProcessor.js:187-377 | reloads the names only when team rows are given, makes the year current, stores its statistics, and leaves the season's consistent graph in the fields and the result |
| PlayerProcessor.DataProcessor.UpdateYear | src/dataProcessor.js:402-404 | the same as `processDataForYear` for that year |
| PlayerProcessor.DataProcessor.GetNodeDetails | src/dataProcessor.js:407-409 | details exist exactly for node ids in range, and they describe that node |
| PlayerProcessor.DataProcessor.GetLinkDetails | src/dataProcessor.js:412-414 | details exist exactly for link ids in range; they carry the link's id and value and the names of its two nodes |
| PlayerProcessor.DataProcessor.GetPerformanceStats | src/dataProcessor.js:417-419 | the statistics stored for that year, and none exactly when none were stored |
| PlayerScenarios.PairTeam | src/dataProcessor.js:168-181 | two players of one team earning 0 and 12,000,000 form a single "High Salary" team |
| PlayerScenarios.PairNodes | src/dataProcessor.js:270-294 | that season has one salary node, and its value is 1 |
| PlayerScenarios.SalaryNodesMissPlayers | src/dataProcessor.js:270-294 | in that season the salary node values add up to 1 while there are 2 joined players |
| TeamEngine.WinPercentage | dataProcessor.js:11-14 | the percentage times the games gives back the wins; 0 with no games; a proportion for non-negative counts |
| TeamEngine.CategorizeWinPercentage | dataProcessor.js:17-21 | High exactly from 0.6, Medium exactly in [0.5, 0.6), Low exactly below 0.5 |
| TeamEngine.GroupSalariesSpec | dataProcessor.js:35-43 | exactly the teams with a salary row get a list, holding that team's salaries in row order |
| TeamEngine.TeamAvgSalaries | dataProcessor.js:31-54 | exactly the teams with a salary row that season, each mapped to the mean of its salaries that season |
| TeamEngine.AveragesOfGroups | dataProcessor.js:45-51 | any map with those keys and those means is the averages map |
| TeamEngine.MissingSalaryIsLow | dataProcessor.js:97-98 | a team without salary rows that season falls back to 0 and is Low Salary |
| TeamEngine.PresentSalaryCategory | dataProcessor.js:97-98 | otherwise its category is that of the mean of its salaries |
| TeamEngine.Entries | dataProcessor.js:88-99 | one entry per team row of the season, in row order |
| TeamEngine.EntryFlowCount | dataProcessor.js:103-109 | a flow's count is the number of team rows that emit it |
| TeamEngine.EntryFlowTotal | dataProcessor.js:103-109 | all flow counts add up to twice the number of team rows |
| TeamEngine.EntryFlowKeySource | dataProcessor.js:103-109 | every flow key is one of the two flows of some team row |
| TeamEngine.EndpointsSpec | dataProcessor.js:131-136 | a name is in `usedNodes` iff it is an end of some flow key |
| TeamEngine.UsedNodesSpec | dataProcessor.js:131-136 | a name is used iff some team row names it as its name or one of its categories |
| TeamEngine.TeamNamesUsed | dataProcessor.js:94 | the `teams` Map's keys are the rows' names; each is used and has an id |
| TeamEngine.TeamRunAt | dataProcessor.js:139-144 | team node k has id k, the k-th name and that name's team id |
| TeamEngine.CategoryRunAt | dataProcessor.js:147-162 | category node k has id start + k and the k-th name |
| TeamEngine.LayoutAt | dataProcessor.js:138-162 | node k has id k and is a team, salary or performance node according to its position |
| TeamEngine.LayoutNames | dataProcessor.js:138-162 | a name has a node iff it is in one of the three lists |
| TeamEngine.UsedTeamNamesAll | dataProcessor.js:139-144 | every team name is used, so the used-only filter keeps them all |
| TeamEngine.NodeNamesAreEndpoints | dataProcessor.js:130-162 | a name has a node iff it is the end of some flow |
| TeamEngine.NodesAreEndpoints | dataProcessor.js:127-162 | ids run 0..n-1, the nodes are exactly the flow ends, and `nodeIndex` maps exactly the used names, each to a node of that name |
| TeamEngine.NodeIndexPoints | dataProcessor.js:142-161 | the index sends every name it holds to a node of that name |
| TeamEngine.BuildLinksAll | dataProcessor.js:165-178 | with both ends indexed, key i becomes link i between their nodes, carrying its count |
| TeamEngine.LinkValuesTotal | dataProcessor.js:165-178 | the link values add up to the flow counts |
| TeamEngine.BuildLinksBound | dataProcessor.js:171 | never more links than keys, and as many only when every key is indexed |
| TeamEngine.GraphLinks | dataProcessor.js:164-178 | one link per flow, in flow order, with its count; all values add up to twice the season's team rows |
| TeamEngine.EntryGraphValid | dataProcessor.js:126-178 | the graph is consistent, and link i joins the nodes named by flow i |
| TeamEngine.GraphOfValid | dataProcessor.js:57-182 | the season's graph is consistent, and link i joins the nodes named by flow i |
| TeamProcessor.AvailableYears | dataProcessor.js:185-192 | the years with both team and salary rows, strictly newest first |
| TeamProcessor.CollectStep | dataProcessor.js:88-110 | one team row bumps its two flows, appends its name when new and records its id |
| TeamProcessor.NodesOfSeason | dataProcessor.js:138-162 | the three node loops on the season's names build its node list |
| TeamProcessor.DataProcessor.constructor | dataProcessor.js:4-8 | no nodes, no links, year 2015 |
| TeamProcessor.DataProcessor.ProcessTeamSalaries | dataProcessor.js:31-54 | the map of each team's mean salary in the season |
| TeamProcessor.DataProcessor.AverageGroups | dataProcessor.js:46-51 | one mean per grouped team and no other key |
| TeamProcessor.DataProcessor.SumSalaries | dataProcessor.js:49 | the reduce gives the sum of the salaries |
| TeamProcessor.DataProcessor.CollectTeamFlows | dataProcessor.js:88-110 | the `flows` dictionary and the `teams` Map of the season's rows |
| TeamProcessor.DataProcessor.UsedEndpoints | dataProcessor.js:131-136 | `usedNodes` is the set of both ends of every key |
| TeamProcessor.DataProcessor.PushTeamNodes | dataProcessor.js:139-144 | the used team names' nodes in Map order, with the index of their ids |
| TeamProcessor.DataProcessor.PushCategoryNodes | dataProcessor.js:147-162 | the used names of a category list appended as nodes, with the index updated |
| TeamProcessor.DataProcessor.AddNodes | dataProcessor.js:138-162 | the node list is the layout of the used teams, salary ranges and performance levels |
| TeamProcessor.DataProcessor.AddLinks | dataProcessor.js:165-178 | the link list is built from the flows and the index |
| TeamProcessor.DataProcessor.ProcessDataForYear | dataProcessor.js:57-182 | makes the year current; the fields and the result are the season's graph, which is consistent |
| TeamProcessor.DataProcessor.BuildGraph | dataProcessor.js:80-182 | on emptied fields, builds the consistent graph of the season's entries |
| TeamProcessor.DataProcessor.UpdateYear | dataProcessor.js:200-202 | the same as `processDataForYear` for that year |
| TeamProcessor.DataProcessor.GetCurrentData | dataProcessor.js:195-197 | the current nodes, links and year |
| TeamDetailChart.TotalsAreSums | teamDetailChart.js:128-151 | every running total is the sum of its field over the rows |
| TeamDetailChart.SinglesTotal | teamDetailChart.js:140 | the singles total is hits less doubles, triples and home runs |
| TeamDetailChart.CalculateStats | teamDetailChart.js:128-164 | the loop yields the pooled statistics, with `games` the number of rows |
| TeamDetailChart.PooledOnBase | teamDetailChart.js:153-155 | OBP is the on-base ratio of the summed counts, 0 when its denominator is not positive |
| TeamDetailChart.SluggingFormula | teamDetailChart.js:157-159 | slugging is (H + 2B + 2*3B + 3*HR) / AB over the totals, 0 without at-bats |
| TeamDetailChart.TotalsPlausible | teamDetailChart.js:128-151 | totals of plausible rows are plausible |
| TeamDetailChart.StatsBounds | teamDetailChart.js:153-159 | for plausible rows OBP lies in [0, 1] and slugging in [0, 4] |
| TeamDetailChart.TeamWithinLeague | teamDetailChart.js:104-109 | the team's rows are the league's rows of that team, so never more of them |
| TeamDetailChart.CalculateBattingStats | teamDetailChart.js:102-124 | nothing exactly when the team has no row that season; otherwise the team's and the league's pooled statistics, with the team never having more games |
| TeamDetailChart.NoTeamRows | teamDetailChart.js:104-113 | the team's filtered list is empty exactly when no row has that team and year |
| TeamBarChart.CalculateOBP | src/teamBarChart.js:89-98 | 0 without a positive denominator; a proportion for a plausible row |
| TeamBarChart.CalculateSluggingAverage | src/teamBarChart.js:102-113 | 0 without at-bats; between 0 and 4 for a plausible row |
| TeamBarChart.OnBaseFormula | src/teamBarChart.js:89-98 | OBP times the denominator gives back the times on base |
| TeamBarChart.SluggingFormula | src/teamBarChart.js:102-113 | slugging times at-bats gives H + 2B + 2*3B + 3*HR |
| TeamBarChart.Average | src/teamBarChart.js:125-138 | the loop gives the means of the per-player ratios over the players with at-bats, and their count |
| TeamBarChart.CalculateAverages | src/teamBarChart.js:116-172 | the team's averages over its season rows, the league's over all season rows; the team never counts more players |
| TeamBarChart.TeamCountWithinLeague | src/teamBarChart.js:117-118 | the team's counted players are among the league's |
| TeamBarChart.AveragesBounds | src/teamBarChart.js:116-158 | for plausible rows the average OBP lies in [0, 1] and slugging in [0, 4]; both are 0 when no player has at-bats |
| Slider.Clamp | slider.js:230 | the result lies in a non-empty range and equals the value exactly when the value is in range; it is the nearer bound otherwise |
| Slider.ClampIdempotent | slider.js:228-234 | clamping twice is clamping once |
| Slider.ClampMonotone | slider.js:230 | clamping keeps the order of values |
| Slider.D3Slider.constructor | slider.js:2-19 | the options are stored as given, with defaults 2000, 1990 and 2015 |
| Slider.D3Slider.UpdateValue | slider.js:228-272 | the year becomes the clamped value; the callback fires exactly when the year changed; the range and the tick count are kept and the year is in the range |
| Slider.D3Slider.SetValue | slider.js:300-303 | the same update as `updateValue`, with the tick count kept |
| Slider.D3Slider.GetValue | slider.js:305-307 | the current year, within the range whenever the range invariant holds |
| Slider.D3Slider.SetRange | slider.js:309-314 | both bounds are replaced and the year is pulled into them without a callback; for a non-empty range the tick count lies in [1, 10], and it is one per year exactly when the range spans fewer than ten steps |
| Slider.D3Slider.TickCount | slider.js:145 | `Math.min(10, max - min + 1)`: never above 10 or the number of years in the range, equal to that number exactly when it is at most 10, and at least 1 for a non-empty range |
| Location.Trim | getLocation.js:19-20 | `trim()` is empty exactly for a blank string, and otherwise starts and ends with a non-space |
| Location.CollapseNoSpace | getLocation.js:20 | `replace(/\s+/g, '+')` leaves no whitespace |
| Location.CollapseTrimmed | getLocation.js:20 | a trimmed part collapses to its words joined by `+` |
| Location.FormatQuery | getLocation.js:16-22 | the query has no whitespace, and it is empty exactly when all four parts are blank |
| Location.QueryShape | getLocation.js:18-21 | for any parts: no whitespace, empty exactly when no part is kept |
| Location.FormatQueryWords | getLocation.js:16-22 | the query is the words of name, city, state and country, in order, joined by `+` |
| Location.NewPark | getLocation.js:93-110 | the name falls back from `park_name` to `name`, the country to US, and both coordinates start null, so the record is not geocoded (`Location.NewParkStats`) |
| Location.NewParkStats | getLocation.js:102-110 | a freshly stored park is not geocoded and exports empty coordinates; a new id adds one park and one failure to `getStats`, an existing id keeps the total and drops out of the geocoded count if it was in it |
| Location.NewParkAdds | getLocation.js:102-110 | storing a new park id adds one to the total and to `failed`, and nothing to `geocoded` |
| Location.NewParkReplaces | getLocation.js:102-110 | storing over an existing park id keeps the total, and `geocoded` loses one exactly when that park was geocoded |
| Location.SetPark | getLocation.js:103-110 | an existing park id keeps its place and gets the new record; a new one goes last; other entries stay |
| Location.SetParkKeepsKeys | getLocation.js:103-110 | the park ids stay distinct, and exactly the stored id is added |
| Location.GetStats | getLocation.js:207-216 | total is the park count; `failed` is exactly the parks without truthy coordinates and is never negative |
| Location.FilterPartition | getLocation.js:208-213 | geocoded and not-geocoded parks split the table |
| Location.QuoteField | getLocation.js:168-173 | a string with a comma, quote or newline is wrapped in quotes; every other field is written as is |
| Location.FieldRoundTrip | getLocation.js:168-173 | a quoted field followed by a separator reads back as its text |
| Location.RowRoundTrip | getLocation.js:167-174 | a formatted row reads back as its field texts |
| Location.CsvRoundTrip | getLocation.js:167-175 | reading the CSV text back gives every row's field texts |
| Location.ExportCsv | getLocation.js:139-175 | nothing to export exactly for an empty table |
| Location.ExportRoundTrip | getLocation.js:147-175 | the export reads back as the header and each park's id, coordinates (empty when falsy), name, city, state and country, in key order |
| App.ClosestYear | main.js:104-106 | the reduce returns an available year at the least distance from the selected one |
| App.ClosestIsFirst | main.js:104-106 | on a tie the strict `<` keeps the earliest such year in the list |
| App.NewerYearWinsTie | main.js:104-106 | in the newest-first list, the newer of two equally close years wins |
| App.YearToShow | main.js:99-109 | the selected year when it has data, otherwise a closest available year |
| App.ClosestOfAvailableYear | main.js:99-109 | the membership test changes nothing: a year with data is its own closest year |
| App.MinYear | main.js:80 | `Math.min` is a listed year no greater than any other |
| App.MaxYear | main.js:81 | `Math.max` is a listed year no less than any other |
| App.SliderBounds | main.js:79-86 | no bounds exactly without years; otherwise the least and the greatest year, which enclose every year |
| App.DescendingBounds | main.js:79-81 | for the newest-first list the bounds are its last and its first year |
| App.YearWithinBounds | main.js:79-86 | every available year lies within the slider's bounds |
| App.KindCountIsFilterLength | main.js:131-133 | each category count is the length of the filtered node list |
| App.DataSummary | main.js:126-134 | the summary's year and node and link counts are the graph's, and the three category counts add up to the node count |
| App.KindsPartition | main.js:131-133 | the three category counts split any node list |
| App.LayoutKindCount | main.js:131-133 | a layout has as many nodes of a kind as that kind's name list |
| App.SeasonSummary | main.js:126-134 | a season's summary counts its used teams, and at most three salary ranges and three performance levels |
| App.InitialSlider | main.js:79-122 | with years the slider is enabled over their range and starts on 2010 exactly when 2010 is in range; without years it is disabled |
| App.MovedSlider | main.js:184-188 | a year in range becomes the slider's value; the bounds stay |
| App.Dashboard.constructor | main.js:4-14 | no data, the overview, no team selected, nothing drawn |
| App.Dashboard.Init | main.js:17-72 | loads the tables and the available years and sets up the slider; with any year at all, draws the 2010 graph and its summary |
| App.Dashboard.Load | main.js:20-48 | the data, the processor, the years and the slider of `init`; nothing drawn |
| App.Dashboard.DrawFirstYear | main.js:51-64 | the chart shows the 2010 graph and the summary describes it |
| App.Dashboard.ProcessSeason | main.js:54 | the processor builds the season's graph from the loaded tables |
| App.Dashboard.UpdateSeason | main.js:193 | the processor rebuilds the season's graph from the loaded tables |
| App.Dashboard.ShowSummary | main.js:126-134 | the summary describes the graph on the chart |
| App.Dashboard.UpdateYear | main.js:174-206 | without the guard, nothing changes and there is no result; otherwise the slider moves to the year and, in the overview, the year's graph is drawn, summarised and returned, while in the detail view the team's statistics are drawn when it has rows |
| App.Dashboard.RedrawOverview | main.js:191-196 | the year's graph is rebuilt, drawn and summarised |
| App.Dashboard.RedrawDetail | main.js:197-203 | the selected team's statistics for the year are drawn when it has rows, and left as they were otherwise |
| App.Dashboard.OnSliderInput | main.js:94-110 | the year shown is the selected one if it has data and the closest available one otherwise; the slider ends on it within unchanged bounds; the data stays; in the overview that year's graph is drawn and summarised, in the team detail view the team's statistics of that year are drawn when it has rows |
| App.Dashboard.HandleTeamSelection | main.js:209-247 | with rows for the slider's year, the detail view of that team with its statistics; otherwise back to the overview with no team selected |
| App.Dashboard.HandleBackToOverview | main.js:250-271 | the overview with no team selected; the chart is not redrawn |

## Salary node values and joined players

One might expect the player-level salary nodes together to count every
joined player. The code does not guarantee this:

- A salary node exists for each TEAM-level salary category, that is, the
  category of a team's average salary (`src/dataProcessor.js:272-273`).
- The node's value counts the PLAYERS whose own salary falls in that range
  (`src/dataProcessor.js:275-281`).

`PlayerScenarios.SalaryNodesMissPlayers` proves a season where the two
numbers differ. One team has two players earning 0 and 12,000,000. Their mean
is exactly 6,000,000, so only the "High Salary" node is built, and its value
is 1, not 2. The model follows the code.

## Left out

- Drawing: the Sankey charts, the bar and detail charts, the story and overlay pages, the mini dashboard, tooltips, fades, visibility, control styling (`updateControlsForView`), the summary panel's markup, and the slider's SVG, handle, label, the tick values d3's `scale.ticks` picks from the tick count, animation, resize and drag/click geometry. These are DOM and SVG effects with no computed value.
- I/O and time:
  - Loading the CSV files (`fetchData.js`, `loadData`, `d3.csvParse`).
  - The geocoding request and its rate limiting (`makeGeocodingRequest`, `sleep`, the daily limit and `requestCount`).
  - The park-file loading loop around it (`loadParkFile`).
  - The altitude lookup (`util/getAltitude.js`).
  - The file download of the export.
  - Console output and `logDetailedSummary`, and `alert`.

  These are network, clock and browser effects. The park record a load step stores is modelled by `Location.NewPark` and `Location.SetPark`, and the exported text by `Location.ExportCsv`.
- `init`'s `try`/`catch`, and its asynchrony: a failure to load is not modelled. `App.Dashboard.Init` takes the loaded tables as a parameter.
- Number parsing at the input boundary. Rows are typed: each numeric field holds the number its text denotes, and a missing field is 0. The source parses with several rules that agree on well-formed numbers but not on other text: `parseInt`/`parseFloat` read a numeric prefix, `+x` gives NaN for anything that is not wholly a number, and `|| 0` turns NaN into 0 only where it is written. The model does not carry NaN, so malformed text, NaN years and fractional counts are not modelled.
- TeamEngine.TeamAvgSalaries: the team-level engine reads salaries with `+row.salary` and no `|| 0` (dataProcessor.js:37). One salary text that is not wholly a number, such as "n/a", makes the team's mean NaN, and `teamSalaries[team.team_id] || 0` (dataProcessor.js:97) then treats the team as having no salary, so it is Low Salary. The model reads such a row as a number and averages it in: for the rows "10000000" and "n/a" the source gives Low Salary and the model, taking "n/a" as 0, a mean of 5,000,000, which is Medium Salary. The player-level engine's `parseFloat(row.salary) || 0` (src/dataProcessor.js:81) would instead read "12000000abc" as 12,000,000, where `+` gives NaN; one salary field stands for both readings of well-formed text.
- TeamBarChart.CalculateOBP: the counts are whole numbers, whereas the source's `parseFloat` would also accept fractional text. The same holds for TeamBarChart.CalculateSluggingAverage.
- PlayerJoin.PercentilesOf: the index `Math.floor(n * 0.33)` is modelled as `(33 * n) / 100`, and `Math.floor(n * 0.67)` as `(67 * n) / 100`. They agree except where floating-point rounding of n * 0.33 or n * 0.67 would cross an integer. For an empty score list the source reads undefined entries and divides by zero; the model returns no thresholds, and `PlayerJoin.CategorizePerformance` then gives Low, as comparisons with undefined do.
- Flow keys are the pairs (source, target), not the strings "source->target". This agrees with the source's `split('->')` as long as no team name contains "->".
- JavaScript object keys are kept in insertion order. The integer-like keys that JavaScript would list first are not modelled; team ids are letter codes.
- App.InitialSlider: the range input's own behaviour is modelled as clamping a value written to it into its bounds. The HTML attribute values (strings) and the markup's initial slider are not modelled. The same holds for App.MovedSlider.
- App.Dashboard.HandleTeamSelection: `parseInt(slider.value)` is taken to be the slider's integer value.
- The slider's callback is modelled as the list of years it has been called with.
- The player-level `getCurrentData` is not a separate member. It returns the fields, the current year and the stored statistics, which are `PlayerProcessor.DataProcessor.Current`, `currentYear` and `GetPerformanceStats`.
- The `LocationProcessor` object itself (its constructor and `getData`) is not modelled: the park table is passed as a value. A JavaScript number's text is a parameter of a numeric CSV field (`Location.Field`), and `Location.ExportRoundTrip` assumes that text holds no comma, quote or newline.
- The team-level engine's debug logging (the salary range, average and category distribution) computes values that only reach the console.
