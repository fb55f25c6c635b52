/**
 * `getAvailableYears`, common to both engines: the years present in both
 * inputs, newest first.
 */
module Years {
  import opened Seqs
  import opened Sorting

  function InSeq(b: seq<int>): int -> bool
  {
    (y: int) => y in b
  }

  /**
   * `[...new Set(a)].filter(y => new Set(b).has(y)).sort((x, y) => y - x)`.
   * The result holds exactly the years of both inputs, strictly
   * descending, so with no duplicates.
   */
  function CommonYears(a: seq<int>, b: seq<int>): (r: seq<int>)
    ensures forall y :: y in r <==> y in a && y in b
    ensures forall i, j :: 0 <= i < j < |r| ==> r[i] > r[j]
  {
    var sorted := SortDesc(Filter(Distinct(a), InSeq(b)));
    CommonYearsFacts(a, b, sorted);
    sorted
  }

  lemma CommonYearsFacts(a: seq<int>, b: seq<int>, sorted: seq<int>)
    requires sorted == SortDesc(Filter(Distinct(a), InSeq(b)))
    ensures forall y :: y in sorted <==> y in a && y in b
    ensures forall i, j :: 0 <= i < j < |sorted| ==> sorted[i] > sorted[j]
  {
    var common := Filter(Distinct(a), InSeq(b));
    FilterNoDup(Distinct(a), InSeq(b));
    PermutationNoDup(common, sorted);
    assert NoDup(sorted) && SortedDesc(sorted);
    forall i, j | 0 <= i < j < |sorted| ensures sorted[i] > sorted[j] {
      assert sorted[i] >= sorted[j] && sorted[i] != sorted[j];
    }
    forall y ensures y in sorted <==> y in a && y in b {
      assert y in sorted <==> y in multiset(sorted);
      assert y in common <==> y in multiset(common);
      assert y in common <==> y in Distinct(a) && InSeq(b)(y);
    }
  }
}
