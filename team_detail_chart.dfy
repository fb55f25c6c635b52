/**
 * The statistics half of `TeamDetailChart` (`teamDetailChart.js`): a
 * team's and the league's on-base percentage and slugging for one
 * season, each computed from totals pooled over all of their batting
 * rows.
 */
module TeamDetailChart {
  import opened Wrappers
  import opened Seqs
  import opened Records

  /** The nine running totals of `calculateStats`. */
  datatype Totals = Totals(ab: int, h: int, bb: int, hbp: int, sf: int,
                           singles: int, doubles: int, triples: int, hr: int)

  const NoTotals := Totals(0, 0, 0, 0, 0, 0, 0, 0, 0)

  /** Singles are the hits that are not extra-base hits. */
  function Singles(r: BattingRow): int { r.h - r.doubles - r.triples - r.hr }

  /** One row's contribution to every total. */
  function AddRow(t: Totals, r: BattingRow): Totals
  {
    Totals(t.ab + r.ab, t.h + r.h, t.bb + r.bb, t.hbp + r.hbp, t.sf + r.sf,
      t.singles + Singles(r), t.doubles + r.doubles, t.triples + r.triples, t.hr + r.hr)
  }

  /** The totals after the `forEach` over `rows`. */
  function TotalsOf(rows: seq<BattingRow>): Totals
    decreases |rows|
  {
    if rows == [] then NoTotals else AddRow(TotalsOf(rows[..|rows| - 1]), rows[|rows| - 1])
  }

  function AtBats(r: BattingRow): int { r.ab }
  function Hits(r: BattingRow): int { r.h }
  function Walks(r: BattingRow): int { r.bb }
  function HitByPitch(r: BattingRow): int { r.hbp }
  function SacrificeFlies(r: BattingRow): int { r.sf }
  function Doubles(r: BattingRow): int { r.doubles }
  function Triples(r: BattingRow): int { r.triples }
  function HomeRuns(r: BattingRow): int { r.hr }

  /** Every total is the plain sum of its field over the rows. */
  lemma {:induction false} TotalsAreSums(rows: seq<BattingRow>)
    ensures var t := TotalsOf(rows);
      t.ab == SumInt(rows, AtBats) && t.h == SumInt(rows, Hits) && t.bb == SumInt(rows, Walks) &&
      t.hbp == SumInt(rows, HitByPitch) && t.sf == SumInt(rows, SacrificeFlies) &&
      t.doubles == SumInt(rows, Doubles) && t.triples == SumInt(rows, Triples) && t.hr == SumInt(rows, HomeRuns)
    decreases |rows|
  {
    if rows != [] {
      TotalsAreSums(rows[..|rows| - 1]);
    }
  }

  /** The singles total is the hits total less the extra-base-hit totals. */
  lemma {:induction false} SinglesTotal(rows: seq<BattingRow>)
    ensures var t := TotalsOf(rows); t.singles == t.h - t.doubles - t.triples - t.hr
    decreases |rows|
  {
    if rows != [] {
      SinglesTotal(rows[..|rows| - 1]);
    }
  }

  /** What `calculateStats` returns. */
  datatype Stats = Stats(obp: real, slug: real, games: nat)

  /** `(H + BB + HBP) / (AB + BB + HBP + SF)`, or 0 when that denominator is not positive. */
  function OnBase(t: Totals): real
  {
    var denominator := t.ab + t.bb + t.hbp + t.sf;
    if denominator > 0 then ((t.h + t.bb + t.hbp) as real) / (denominator as real) else 0.0
  }

  /** `(1B + 2*2B + 3*3B + 4*HR) / AB`, or 0 when there are no at-bats. */
  function Slugging(t: Totals): real
  {
    var totalBases := t.singles + 2 * t.doubles + 3 * t.triples + 4 * t.hr;
    if t.ab > 0 then (totalBases as real) / (t.ab as real) else 0.0
  }

  /** The statistics of a list of rows: pooled OBP and slugging, and the row count as `games`. */
  function StatsOf(rows: seq<BattingRow>): Stats
  {
    Stats(OnBase(TotalsOf(rows)), Slugging(TotalsOf(rows)), |rows|)
  }

  /**
   * `calculateStats`: the loop accumulating the nine totals, then the two
   * guarded ratios. OBP is the on-base ratio of the summed counts, and
   * `games` the number of rows aggregated.
   */
  method CalculateStats(rows: seq<BattingRow>) returns (s: Stats)
    ensures s == StatsOf(rows)
    ensures s.games == |rows|
  {
    var totalAB, totalH, totalBB, totalHBP, totalSF := 0, 0, 0, 0, 0;
    var totalSingles, totalDoubles, totalTriples, totalHR := 0, 0, 0, 0;
    for i := 0 to |rows|
      invariant Totals(totalAB, totalH, totalBB, totalHBP, totalSF, totalSingles, totalDoubles, totalTriples, totalHR)
        == TotalsOf(rows[..i])
    {
      var d := rows[i];
      TotalsStep(rows, i);
      var singles := d.h - d.doubles - d.triples - d.hr;
      totalAB := totalAB + d.ab;
      totalH := totalH + d.h;
      totalBB := totalBB + d.bb;
      totalHBP := totalHBP + d.hbp;
      totalSF := totalSF + d.sf;
      totalSingles := totalSingles + singles;
      totalDoubles := totalDoubles + d.doubles;
      totalTriples := totalTriples + d.triples;
      totalHR := totalHR + d.hr;
    }
    assert rows[..|rows|] == rows;
    var obpDenominator := totalAB + totalBB + totalHBP + totalSF;
    var obp := if obpDenominator > 0 then ((totalH + totalBB + totalHBP) as real) / (obpDenominator as real) else 0.0;
    var totalBases := totalSingles + 2 * totalDoubles + 3 * totalTriples + 4 * totalHR;
    var slug := if totalAB > 0 then (totalBases as real) / (totalAB as real) else 0.0;
    s := Stats(obp, slug, |rows|);
  }

  /** One more row adds its counts to the totals. */
  lemma TotalsStep(rows: seq<BattingRow>, i: nat)
    requires i < |rows|
    ensures TotalsOf(rows[..i + 1]) == AddRow(TotalsOf(rows[..i]), rows[i])
  {
    TakeStep(rows, i);
  }

  /** The pooled OBP is the on-base ratio of the summed counts of all rows. */
  lemma PooledOnBase(rows: seq<BattingRow>)
    ensures var denominator := SumInt(rows, AtBats) + SumInt(rows, Walks) + SumInt(rows, HitByPitch) + SumInt(rows, SacrificeFlies);
      StatsOf(rows).obp == if denominator > 0
        then ((SumInt(rows, Hits) + SumInt(rows, Walks) + SumInt(rows, HitByPitch)) as real) / (denominator as real)
        else 0.0
  {
    TotalsAreSums(rows);
  }

  /**
   * Slugging counts total bases as `H + 2B + 2*3B + 3*HR` over the at-bats,
   * since singles are the hits that are not doubles, triples or home runs.
   */
  lemma SluggingFormula(rows: seq<BattingRow>)
    ensures var t := TotalsOf(rows);
      StatsOf(rows).slug ==
        if t.ab > 0 then ((t.h + t.doubles + 2 * t.triples + 3 * t.hr) as real) / (t.ab as real) else 0.0
  {
    SinglesTotal(rows);
  }

  /**
   * A plausible batting line: no negative count, and the extra-base hits
   * are among the hits, which are among the at-bats.
   */
  predicate Plausible(r: BattingRow)
  {
    0 <= r.doubles && 0 <= r.triples && 0 <= r.hr && 0 <= r.bb && 0 <= r.hbp && 0 <= r.sf &&
    r.doubles + r.triples + r.hr <= r.h <= r.ab
  }

  /** The same conditions on totals. */
  predicate PlausibleTotals(t: Totals)
  {
    0 <= t.doubles && 0 <= t.triples && 0 <= t.hr && 0 <= t.bb && 0 <= t.hbp && 0 <= t.sf &&
    t.doubles + t.triples + t.hr <= t.h <= t.ab &&
    t.singles == t.h - t.doubles - t.triples - t.hr
  }

  lemma {:induction false} TotalsPlausible(rows: seq<BattingRow>)
    requires forall i :: 0 <= i < |rows| ==> Plausible(rows[i])
    ensures PlausibleTotals(TotalsOf(rows))
    decreases |rows|
  {
    if rows != [] {
      TotalsPlausible(rows[..|rows| - 1]);
    }
  }

  /** For plausible rows OBP is a proportion and slugging lies between 0 and 4. */
  lemma StatsBounds(rows: seq<BattingRow>)
    requires forall i :: 0 <= i < |rows| ==> Plausible(rows[i])
    ensures 0.0 <= StatsOf(rows).obp <= 1.0
    ensures 0.0 <= StatsOf(rows).slug <= 4.0
  {
    var t := TotalsOf(rows);
    TotalsPlausible(rows);
    RatioBounds(t.h + t.bb + t.hbp, t.ab + t.bb + t.hbp + t.sf, 1);
    RatioBounds(t.singles + 2 * t.doubles + 3 * t.triples + 4 * t.hr, t.ab, 4);
  }

  /** A ratio `num / den` with `0 <= num <= k * den` lies in `[0, k]`. */
  lemma RatioBounds(num: int, den: int, k: nat)
    requires 0 <= num <= k * den
    ensures den > 0 ==> 0.0 <= (num as real) / (den as real) <= k as real
  {
    if den > 0 {
      var q := (num as real) / (den as real);
      assert q * (den as real) == num as real;
      assert (num as real) <= (k as real) * (den as real);
    }
  }

  /** What `calculateBattingStats` returns when the team has rows that season. */
  datatype BattingComparison = BattingComparison(team: Stats, league: Stats, teamId: string, year: int)

  /** The team's rows of the season. */
  function TeamRows(battingData: seq<BattingRow>, teamId: string, year: int): seq<BattingRow>
  {
    Filter(battingData, BattingOfTeamInYear(teamId, year))
  }

  /** Every row of the season, the league. */
  function LeagueRows(battingData: seq<BattingRow>, year: int): seq<BattingRow>
  {
    Filter(battingData, BattingInYear(year))
  }

  /**
   * The team's rows are the league's rows of that team: the team is a
   * sub-list of the league, so it never has more games.
   */
  lemma TeamWithinLeague(battingData: seq<BattingRow>, teamId: string, year: int)
    ensures TeamRows(battingData, teamId, year) == Filter(LeagueRows(battingData, year), BattingOfTeam(teamId))
    ensures |TeamRows(battingData, teamId, year)| <= |LeagueRows(battingData, year)|
  {
    FilterFilter(battingData, BattingInYear(year), BattingOfTeam(teamId), BattingOfTeamInYear(teamId, year));
  }

  /**
   * `calculateBattingStats`: `None` (the source's `null`) when the team
   * has no row that season (the league then may or may not have rows; with
   * no league rows the team has none either); otherwise the team's and the
   * league's statistics, with the team id and the year echoed.
   */
  method CalculateBattingStats(battingData: seq<BattingRow>, teamId: string, year: int)
    returns (r: Option<BattingComparison>)
    ensures r.None? <==> forall i :: 0 <= i < |battingData| ==> !(battingData[i].teamId == teamId && battingData[i].year == year)
    ensures r.Some? ==>
      r.value.teamId == teamId && r.value.year == year &&
      r.value.team == StatsOf(TeamRows(battingData, teamId, year)) &&
      r.value.league == StatsOf(LeagueRows(battingData, year)) &&
      r.value.team.games <= r.value.league.games
  {
    var teamBatting := Filter(battingData, BattingOfTeamInYear(teamId, year));
    var leagueBatting := Filter(battingData, BattingInYear(year));
    TeamWithinLeague(battingData, teamId, year);
    NoTeamRows(battingData, teamId, year);
    if |teamBatting| == 0 || |leagueBatting| == 0 {
      return None;
    }
    var teamStats := CalculateStats(teamBatting);
    var leagueStats := CalculateStats(leagueBatting);
    r := Some(BattingComparison(teamStats, leagueStats, teamId, year));
  }

  /** The team has no row that season exactly when its filtered list is empty. */
  lemma NoTeamRows(battingData: seq<BattingRow>, teamId: string, year: int)
    ensures TeamRows(battingData, teamId, year) == [] <==>
      forall i :: 0 <= i < |battingData| ==> !(battingData[i].teamId == teamId && battingData[i].year == year)
  {
    var rows := TeamRows(battingData, teamId, year);
    if rows != [] {
      assert rows[0] in rows;
      var i :| 0 <= i < |battingData| && battingData[i] == rows[0];
      assert BattingOfTeamInYear(teamId, year)(battingData[i]);
    } else {
      forall i | 0 <= i < |battingData| ensures !(battingData[i].teamId == teamId && battingData[i].year == year) {
        assert battingData[i] in battingData && battingData[i] !in rows;
      }
    }
  }
}
