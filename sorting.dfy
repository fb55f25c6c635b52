/**
 * The two sorts the source relies on: `scores.sort((a, b) => a - b)`
 * (ascending, in place, over performance scores) and
 * `years.sort((a, b) => b - a)` (descending, over years). Each is given as
 * a function that states the result is a sorted permutation, and the
 * ascending one also as the in-place array algorithm.
 */
module Sorting {

  predicate SortedAsc(s: seq<real>)
  {
    forall i, j :: 0 <= i < j < |s| ==> s[i] <= s[j]
  }

  predicate SortedDesc(s: seq<int>)
  {
    forall i, j :: 0 <= i < j < |s| ==> s[i] >= s[j]
  }

  function InsertAsc(x: real, s: seq<real>): (r: seq<real>)
    requires SortedAsc(s)
    ensures SortedAsc(r)
    ensures multiset(r) == multiset(s) + multiset{x}
    ensures forall k :: 0 <= k < |r| ==> r[k] == x || r[k] in s
  {
    if s == [] then [x]
    else if x <= s[0] then [x] + s
    else
      var r := InsertAsc(x, s[1..]);
      InsertAscBehind(x, s, r);
      [s[0]] + r
  }

  /** Putting the head back in front of the tail with `x` inserted keeps the order and the elements. */
  lemma InsertAscBehind(x: real, s: seq<real>, r: seq<real>)
    requires SortedAsc(s) && s != [] && s[0] < x
    requires SortedAsc(r) && multiset(r) == multiset(s[1..]) + multiset{x}
    requires forall k :: 0 <= k < |r| ==> r[k] == x || r[k] in s[1..]
    ensures SortedAsc([s[0]] + r)
    ensures multiset([s[0]] + r) == multiset(s) + multiset{x}
    ensures forall k :: 0 <= k < |[s[0]] + r| ==> ([s[0]] + r)[k] == x || ([s[0]] + r)[k] in s
  {
    assert s == [s[0]] + s[1..];
    forall k | 0 <= k < |r| ensures s[0] <= r[k] {
      if r[k] != x {
        var j :| 1 <= j < |s| && s[j] == r[k];
      }
    }
  }

  /** The ascending sorted permutation of `s`. */
  function SortAsc(s: seq<real>): (r: seq<real>)
    ensures SortedAsc(r)
    ensures multiset(r) == multiset(s)
  {
    if s == [] then []
    else
      assert s == [s[0]] + s[1..];
      InsertAsc(s[0], SortAsc(s[1..]))
  }

  /**
   * Sorting determines its result: two ascending sequences with the same
   * elements are equal. So any sort the source's engine happens to use
   * yields `SortAsc`.
   */
  lemma {:induction false} SortedAscUnique(s: seq<real>, t: seq<real>)
    requires SortedAsc(s) && SortedAsc(t)
    requires multiset(s) == multiset(t)
    ensures s == t
    decreases |s|
  {
    if s != [] {
      SortedHeadsAgree(s, t);
      SortedAscUnique(s[1..], t[1..]);
    }
  }

  /** Two sorted sequences with one multiset start with the same element and have tails with one multiset. */
  lemma SortedHeadsAgree(s: seq<real>, t: seq<real>)
    requires SortedAsc(s) && SortedAsc(t)
    requires multiset(s) == multiset(t) && s != []
    ensures t != [] && s[0] == t[0] && multiset(s[1..]) == multiset(t[1..])
  {
    assert s[0] in multiset(t);
    var i :| 0 <= i < |t| && t[i] == s[0];
    assert t[0] in multiset(s);
    var j :| 0 <= j < |s| && s[j] == t[0];
    assert t[0] <= t[i] && s[0] <= s[j];
    DropHead(s);
    DropHead(t);
  }

  lemma DropHead(s: seq<real>)
    requires s != []
    ensures multiset(s[1..]) == multiset(s) - multiset{s[0]}
  {
    assert s == [s[0]] + s[1..];
  }

  /**
   * The in-place sort of a copied score array: an insertion sort by
   * adjacent swaps.
   */
  method SortInPlace(a: array<real>)
    modifies a
    ensures a[..] == SortAsc(old(a[..]))
  {
    for i := 0 to a.Length
      invariant SortedAsc(a[..i])
      invariant multiset(a[..]) == multiset(old(a[..]))
    {
      InsertLast(a, i);
    }
    assert a[..] == a[..a.Length];
    SortedAscUnique(a[..], SortAsc(old(a[..])));
  }

  /** One pass of the insertion sort: sinks `a[i]` into the sorted prefix `a[..i]`. */
  method InsertLast(a: array<real>, i: nat)
    modifies a
    requires i < a.Length
    requires SortedAsc(a[..i])
    ensures SortedAsc(a[..i + 1])
    ensures multiset(a[..]) == multiset(old(a[..]))
  {
    var j := i;
    while j > 0 && a[j - 1] > a[j]
      invariant 0 <= j <= i
      invariant multiset(a[..]) == multiset(old(a[..]))
      invariant forall k, l :: 0 <= k < l <= i && k != j && l != j ==> a[k] <= a[l]
      invariant forall l :: j < l <= i ==> a[j] <= a[l]
    {
      Swap(a, j - 1, j);
      j := j - 1;
    }
  }

  /** Exchanges two entries; the multiset of entries stays the same. */
  method Swap(a: array<real>, i: nat, j: nat)
    modifies a
    requires i < a.Length && j < a.Length
    ensures a[..] == old(a[..])[i := old(a[j])][j := old(a[i])]
    ensures multiset(a[..]) == multiset(old(a[..]))
  {
    a[i], a[j] := a[j], a[i];
  }

  function InsertDesc(x: int, s: seq<int>): (r: seq<int>)
    requires SortedDesc(s)
    ensures SortedDesc(r)
    ensures multiset(r) == multiset(s) + multiset{x}
    ensures forall k :: 0 <= k < |r| ==> r[k] == x || r[k] in s
  {
    if s == [] then [x]
    else if x >= s[0] then [x] + s
    else
      var r := InsertDesc(x, s[1..]);
      InsertDescBehind(x, s, r);
      [s[0]] + r
  }

  lemma InsertDescBehind(x: int, s: seq<int>, r: seq<int>)
    requires SortedDesc(s) && s != [] && s[0] > x
    requires SortedDesc(r) && multiset(r) == multiset(s[1..]) + multiset{x}
    requires forall k :: 0 <= k < |r| ==> r[k] == x || r[k] in s[1..]
    ensures SortedDesc([s[0]] + r)
    ensures multiset([s[0]] + r) == multiset(s) + multiset{x}
    ensures forall k :: 0 <= k < |[s[0]] + r| ==> ([s[0]] + r)[k] == x || ([s[0]] + r)[k] in s
  {
    assert s == [s[0]] + s[1..];
    forall k | 0 <= k < |r| ensures s[0] >= r[k] {
      if r[k] != x {
        var j :| 1 <= j < |s| && s[j] == r[k];
      }
    }
  }

  /** The descending sorted permutation of `s`. */
  function SortDesc(s: seq<int>): (r: seq<int>)
    ensures SortedDesc(r)
    ensures multiset(r) == multiset(s)
  {
    if s == [] then []
    else
      assert s == [s[0]] + s[1..];
      InsertDesc(s[0], SortDesc(s[1..]))
  }
}
