/**
 * The rows of the three input tables (batting, salaries, teams) as typed
 * records. A numeric field holds the number its text denotes, and a
 * missing one is 0; text that is not a well-formed number, which the
 * source's `+x`, `parseInt` and `parseFloat` read in different ways, is
 * not represented. A missing team name is "".
 */
module Records {

  /** One batting line: a player's counting stats for one team and season. */
  datatype BattingRow = BattingRow(
    playerId: string,
    teamId: string,
    year: int,
    ab: int,      // at-bats
    h: int,       // hits
    doubles: int,
    triples: int,
    hr: int,      // home runs
    bb: int,      // walks
    hbp: int,     // hit by pitch
    sf: int)      // sacrifice flies

  /** One salary line: a player's salary with one team in one season. */
  datatype SalaryRow = SalaryRow(playerId: string, teamId: string, year: int, salary: real)

  /** One team-season line of the team table. */
  datatype TeamRow = TeamRow(teamId: string, year: int, name: string, w: int, l: int)

  function BattingInYear(year: int): BattingRow -> bool
  {
    (r: BattingRow) => r.year == year
  }

  function SalaryInYear(year: int): SalaryRow -> bool
  {
    (r: SalaryRow) => r.year == year
  }

  function TeamInYear(year: int): TeamRow -> bool
  {
    (r: TeamRow) => r.year == year
  }

  function BattingOfTeam(teamId: string): BattingRow -> bool
  {
    (r: BattingRow) => r.teamId == teamId
  }

  function BattingOfTeamInYear(teamId: string, year: int): BattingRow -> bool
  {
    (r: BattingRow) => r.teamId == teamId && r.year == year
  }

  function BattingYear(r: BattingRow): int { r.year }
  function SalaryYear(r: SalaryRow): int { r.year }
  function TeamYear(r: TeamRow): int { r.year }
}
