/**
 * The statistics half of `TeamBarChart` (`src/teamBarChart.js`): per-player
 * on-base percentage and slugging average, and their means over a team's
 * and over the league's players with at least one at-bat.
 */
module TeamBarChart {
  import opened Seqs
  import opened Records
  import TeamDetailChart

  /**
   * `calculateOBP`: `(H + BB + HBP) / (AB + BB + HBP + SF)` for one row, 0
   * when that denominator is not positive; a proportion for a plausible row.
   */
  function CalculateOBP(stats: BattingRow): (obp: real)
    ensures stats.ab + stats.bb + stats.hbp + stats.sf <= 0 ==> obp == 0.0
    ensures TeamDetailChart.Plausible(stats) ==> 0.0 <= obp <= 1.0
  {
    var denominator := stats.ab + stats.bb + stats.hbp + stats.sf;
    var obp := if denominator > 0 then ((stats.h + stats.bb + stats.hbp) as real) / (denominator as real) else 0.0;
    assert TeamDetailChart.Plausible(stats) ==> 0.0 <= obp <= 1.0 by {
      if TeamDetailChart.Plausible(stats) {
        TeamDetailChart.RatioBounds(stats.h + stats.bb + stats.hbp, denominator, 1);
      }
    }
    obp
  }

  /**
   * `calculateSluggingAverage`: total bases over at-bats, 0 without
   * at-bats. Total bases come out as `H + 2B + 2*3B + 3*HR`; a plausible
   * row slugs between 0 and 4.
   */
  function CalculateSluggingAverage(stats: BattingRow): (slg: real)
    ensures stats.ab <= 0 ==> slg == 0.0
    ensures TeamDetailChart.Plausible(stats) ==> 0.0 <= slg <= 4.0
  {
    var singles := stats.h - stats.doubles - stats.triples - stats.hr;
    var totalBases := singles + 2 * stats.doubles + 3 * stats.triples + 4 * stats.hr;
    var slg := if stats.ab > 0 then (totalBases as real) / (stats.ab as real) else 0.0;
    assert TeamDetailChart.Plausible(stats) ==> 0.0 <= slg <= 4.0 by {
      if TeamDetailChart.Plausible(stats) {
        TeamDetailChart.RatioBounds(totalBases, stats.ab, 4);
      }
    }
    slg
  }

  /** With a positive denominator, OBP times the denominator gives back the times on base. */
  lemma OnBaseFormula(stats: BattingRow)
    requires stats.ab + stats.bb + stats.hbp + stats.sf > 0
    ensures CalculateOBP(stats) * ((stats.ab + stats.bb + stats.hbp + stats.sf) as real) == (stats.h + stats.bb + stats.hbp) as real
  {
  }

  /** With at-bats, slugging times at-bats is `H + 2B + 2*3B + 3*HR`, the total bases. */
  lemma SluggingFormula(stats: BattingRow)
    requires stats.ab > 0
    ensures CalculateSluggingAverage(stats) * (stats.ab as real) == (stats.h + stats.doubles + 2 * stats.triples + 3 * stats.hr) as real
  {
  }

  /** Only players with at-bats enter an average. */
  predicate HasAtBats(player: BattingRow) { player.ab > 0 }

  /** What `calculateAverages` reports for one group of players. */
  datatype Averages = Averages(obp: real, slg: real, playerCount: nat)

  /** The team's and the league's averages. */
  datatype Comparison = Comparison(team: Averages, league: Averages)

  /**
   * The averages of a group: the means of the per-player OBP and slugging
   * over the players with at-bats, and their number; both means are 0 when
   * no player has an at-bat.
   */
  function AveragesOf(players: seq<BattingRow>): Averages
  {
    var counted := Filter(players, HasAtBats);
    var n := |counted|;
    Averages(
      if n > 0 then SumReal(counted, CalculateOBP) / (n as real) else 0.0,
      if n > 0 then SumReal(counted, CalculateSluggingAverage) / (n as real) else 0.0,
      n)
  }

  /** The running totals and count after the players of `prefix`. */
  ghost predicate Running(prefix: seq<BattingRow>, totalOBP: real, totalSLG: real, playerCount: nat)
  {
    playerCount == |Filter(prefix, HasAtBats)| &&
    totalOBP == SumRealWhere(prefix, HasAtBats, CalculateOBP) &&
    totalSLG == SumRealWhere(prefix, HasAtBats, CalculateSluggingAverage)
  }

  /** One more player adds to both totals and the count exactly when it has at-bats. */
  lemma RunningStep(prefix: seq<BattingRow>, p: BattingRow, totalOBP: real, totalSLG: real, playerCount: nat)
    requires Running(prefix, totalOBP, totalSLG, playerCount)
    ensures HasAtBats(p) ==>
      Running(prefix + [p], totalOBP + CalculateOBP(p), totalSLG + CalculateSluggingAverage(p), playerCount + 1)
    ensures !HasAtBats(p) ==> Running(prefix + [p], totalOBP, totalSLG, playerCount)
  {
    FilterStep(prefix, p, HasAtBats);
    assert (prefix + [p])[..|prefix|] == prefix;
  }

  /**
   * One of the two `forEach` loops of `calculateAverages` with its
   * division: the running totals and the count of players with at-bats.
   */
  method Average(players: seq<BattingRow>) returns (a: Averages)
    ensures a == AveragesOf(players)
    ensures a.playerCount <= |players|
  {
    var totalOBP, totalSLG := 0.0, 0.0;
    var playerCount: nat := 0;
    for i := 0 to |players|
      invariant Running(players[..i], totalOBP, totalSLG, playerCount)
    {
      var player := players[i];
      RunningStep(players[..i], player, totalOBP, totalSLG, playerCount);
      TakeStep(players, i);
      if player.ab > 0 {
        totalOBP := totalOBP + CalculateOBP(player);
        totalSLG := totalSLG + CalculateSluggingAverage(player);
        playerCount := playerCount + 1;
      }
    }
    assert players[..|players|] == players;
    RunningDone(players, totalOBP, totalSLG, playerCount);
    var avgOBP := if playerCount > 0 then totalOBP / (playerCount as real) else 0.0;
    var avgSLG := if playerCount > 0 then totalSLG / (playerCount as real) else 0.0;
    a := Averages(avgOBP, avgSLG, playerCount);
  }

  /** After the last player, the totals and count give the group's averages. */
  lemma RunningDone(players: seq<BattingRow>, totalOBP: real, totalSLG: real, playerCount: nat)
    requires Running(players, totalOBP, totalSLG, playerCount)
    ensures AveragesOf(players) == Averages(
      if playerCount > 0 then totalOBP / (playerCount as real) else 0.0,
      if playerCount > 0 then totalSLG / (playerCount as real) else 0.0,
      playerCount)
    ensures playerCount <= |players|
  {
    SumRealWhereFilter(players, HasAtBats, CalculateOBP);
    SumRealWhereFilter(players, HasAtBats, CalculateSluggingAverage);
  }

  /** The season's rows (`yearData`). */
  function YearData(battingData: seq<BattingRow>, year: int): seq<BattingRow>
  {
    Filter(battingData, BattingInYear(year))
  }

  /** The team's rows among them (`teamData`). */
  function TeamData(battingData: seq<BattingRow>, teamId: string, year: int): seq<BattingRow>
  {
    Filter(YearData(battingData, year), BattingOfTeam(teamId))
  }

  /**
   * `calculateAverages`: the team's averages over its rows of the season,
   * the league's over every row of the season; the team's players are
   * among the league's, so the team never counts more of them.
   */
  method CalculateAverages(battingData: seq<BattingRow>, teamId: string, year: int) returns (c: Comparison)
    ensures c.team == AveragesOf(TeamData(battingData, teamId, year))
    ensures c.league == AveragesOf(YearData(battingData, year))
    ensures c.team.playerCount <= c.league.playerCount
  {
    var yearData := Filter(battingData, BattingInYear(year));
    var teamData := Filter(yearData, BattingOfTeam(teamId));
    TeamCountWithinLeague(yearData, teamId);
    var team := Average(teamData);
    var league := Average(yearData);
    c := Comparison(team, league);
  }

  /** Filtering to a team keeps only players of the group: at most as many with at-bats. */
  lemma TeamCountWithinLeague(yearData: seq<BattingRow>, teamId: string)
    ensures AveragesOf(Filter(yearData, BattingOfTeam(teamId))).playerCount <= AveragesOf(yearData).playerCount
  {
    var both := (r: BattingRow) => r.teamId == teamId && r.ab > 0;
    FilterFilter(yearData, BattingOfTeam(teamId), HasAtBats, both);
    FilterFilter(yearData, HasAtBats, BattingOfTeam(teamId), both);
  }

  /**
   * For plausible rows both averages are means of values in range: OBP
   * lies in `[0, 1]` and slugging in `[0, 4]`; a group without at-bats
   * averages 0 for both.
   */
  lemma AveragesBounds(players: seq<BattingRow>)
    requires forall i :: 0 <= i < |players| ==> TeamDetailChart.Plausible(players[i])
    ensures 0.0 <= AveragesOf(players).obp <= 1.0
    ensures 0.0 <= AveragesOf(players).slg <= 4.0
    ensures AveragesOf(players).playerCount == 0 ==> AveragesOf(players).obp == 0.0 && AveragesOf(players).slg == 0.0
  {
    var counted := Filter(players, HasAtBats);
    if counted != [] {
      forall i | 0 <= i < |counted| ensures TeamDetailChart.Plausible(counted[i]) {
        assert counted[i] in players;
      }
      MeanRealBounds(counted, CalculateOBP, 0.0, 1.0);
      MeanRealBounds(counted, CalculateSluggingAverage, 0.0, 4.0);
    }
  }
}
