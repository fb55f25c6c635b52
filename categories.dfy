/**
 * The ordinal labels both aggregation engines assign, the strings they use
 * as node names, and the two classification rules.
 */
module Categories {

  datatype SalaryCategory = LowSalary | MediumSalary | HighSalary
  datatype PerformanceCategory = LowPerformance | MediumPerformance | HighPerformance

  /** Average or individual salary at or above which a salary is "High". */
  const HighSalaryThreshold: real := 6000000.0
  /** Salary at or above which a salary below the high threshold is "Medium". */
  const MediumSalaryThreshold: real := 2500000.0

  /** The fixed Low, Medium, High order in which category nodes are materialised. */
  const SalaryOrder: seq<SalaryCategory> := [LowSalary, MediumSalary, HighSalary]
  const PerformanceOrder: seq<PerformanceCategory> := [LowPerformance, MediumPerformance, HighPerformance]

  function SalaryName(c: SalaryCategory): string
  {
    match c
    case LowSalary => "Low Salary"
    case MediumSalary => "Medium Salary"
    case HighSalary => "High Salary"
  }

  function PerformanceName(c: PerformanceCategory): string
  {
    match c
    case LowPerformance => "Low Performance"
    case MediumPerformance => "Medium Performance"
    case HighPerformance => "High Performance"
  }

  function SalaryRank(c: SalaryCategory): nat
  {
    match c
    case LowSalary => 0
    case MediumSalary => 1
    case HighSalary => 2
  }

  function PerformanceRank(c: PerformanceCategory): nat
  {
    match c
    case LowPerformance => 0
    case MediumPerformance => 1
    case HighPerformance => 2
  }

  /** True of the six category node names. */
  predicate IsCategoryName(s: string)
  {
    (exists c :: SalaryName(c) == s) || (exists c :: PerformanceName(c) == s)
  }

  /**
   * `categorizeSalary`: High from 6,000,000 up, Medium from 2,500,000 up,
   * Low below.
   */
  function CategorizeSalary(salary: real): (c: SalaryCategory)
    ensures c == HighSalary <==> HighSalaryThreshold <= salary
    ensures c == MediumSalary <==> MediumSalaryThreshold <= salary < HighSalaryThreshold
    ensures c == LowSalary <==> salary < MediumSalaryThreshold
  {
    if salary >= HighSalaryThreshold then HighSalary
    else if salary >= MediumSalaryThreshold then MediumSalary
    else LowSalary
  }

  /** A larger salary never gets a lower category. */
  lemma CategorizeSalaryMonotone(s1: real, s2: real)
    requires s1 <= s2
    ensures SalaryRank(CategorizeSalary(s1)) <= SalaryRank(CategorizeSalary(s2))
  {
  }

  /**
   * The two-cut rule shared by both `categorizePerformance` versions: High
   * when the score reaches `high`, else Medium when it reaches `medium`,
   * else Low.
   */
  function CategorizeByCuts(score: real, medium: real, high: real): (c: PerformanceCategory)
    ensures c == HighPerformance <==> high <= score
    ensures c == MediumPerformance <==> medium <= score < high
    ensures c == LowPerformance <==> score < high && score < medium
  {
    if score >= high then HighPerformance
    else if score >= medium then MediumPerformance
    else LowPerformance
  }

  /** A larger score never gets a lower category, whatever the cuts. */
  lemma CategorizeByCutsMonotone(s1: real, s2: real, medium: real, high: real)
    requires s1 <= s2
    ensures PerformanceRank(CategorizeByCuts(s1, medium, high)) <= PerformanceRank(CategorizeByCuts(s2, medium, high))
  {
  }

  /** Whether `sub` occurs in `s` (the source's `String.prototype.includes`). */
  predicate Contains(s: string, sub: string)
  {
    exists i :: 0 <= i <= |s| - |sub| && OccursAt(s, sub, i)
  }

  predicate OccursAt(s: string, sub: string, i: int)
    requires 0 <= i <= |s| - |sub|
  {
    s[i..i + |sub|] == sub
  }

  /**
   * What the substring test that tells a salary-to-performance link from a
   * team-to-salary link sees: a salary name contains "Salary" and not
   * "Performance".
   */
  lemma SalaryNameSubstrings(c: SalaryCategory)
    ensures Contains(SalaryName(c), "Salary")
    ensures !Contains(SalaryName(c), "Performance")
  {
    match c {
      case LowSalary => assert OccursAt(SalaryName(c), "Salary", 4);
      case MediumSalary =>
        assert OccursAt(SalaryName(c), "Salary", 7);
        forall i | 0 <= i <= 2 ensures !OccursAt(SalaryName(c), "Performance", i) {
          assert SalaryName(c)[i..i + 11][0] != 'P';
        }
      case HighSalary =>
        assert OccursAt(SalaryName(c), "Salary", 5);
        assert SalaryName(c)[0..11][0] != 'P';
    }
  }

  /** A performance name contains "Performance". */
  lemma PerformanceNameSubstring(d: PerformanceCategory)
    ensures Contains(PerformanceName(d), "Performance")
  {
    match d {
      case LowPerformance => assert OccursAt(PerformanceName(d), "Performance", 4);
      case MediumPerformance => assert OccursAt(PerformanceName(d), "Performance", 7);
      case HighPerformance => assert OccursAt(PerformanceName(d), "Performance", 5);
    }
  }

  /** Category names never clash with one another. */
  lemma CategoryNamesDistinct(c1: SalaryCategory, c2: SalaryCategory, d1: PerformanceCategory, d2: PerformanceCategory)
    ensures SalaryName(c1) == SalaryName(c2) ==> c1 == c2
    ensures PerformanceName(d1) == PerformanceName(d2) ==> d1 == d2
    ensures SalaryName(c1) != PerformanceName(d1)
  {
    assert SalaryName(c1)[|SalaryName(c1)| - 1] == 'y';
    assert PerformanceName(d1)[|PerformanceName(d1)| - 1] == 'e';
  }
}
