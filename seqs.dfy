/**
 * Sequence helpers shared by every module: the `Array.prototype.filter`
 * of the source, and sums over a projection (the `forEach` accumulators
 * and `reduce((a, b) => a + b, 0)` calls).
 *
 * All three are defined from the back of the sequence, so that the loop
 * step "append one more element" unfolds them directly.
 */
module Seqs {

  /** A prefix one longer is the prefix and the next element. */
  lemma TakeStep<T>(s: seq<T>, i: nat)
    requires i < |s|
    ensures s[..i + 1] == s[..i] + [s[i]]
    ensures s[..i + 1][..i] == s[..i]
  {
  }

  /** The elements of `s` that satisfy `p`, in their original order. */
  function Filter<T(!new)>(s: seq<T>, p: T -> bool): (r: seq<T>)
    ensures |r| <= |s|
    ensures forall x :: x in r <==> x in s && p(x)
    ensures forall i :: 0 <= i < |r| ==> p(r[i])
    decreases |s|
  {
    if s == [] then []
    else Filter(s[..|s| - 1], p) + (if p(s[|s| - 1]) then [s[|s| - 1]] else [])
  }

  /** An element of three joined sequences comes from the one its index falls in. */
  lemma ConcatAt<T>(a: seq<T>, b: seq<T>, c: seq<T>, k: nat)
    requires k < |a| + |b| + |c|
    ensures (a + b + c)[k] == if k < |a| then a[k] else if k < |a| + |b| then b[k - |a|] else c[k - |a| - |b|]
  { }

  lemma FilterStep<T(!new)>(s: seq<T>, x: T, p: T -> bool)
    ensures Filter(s + [x], p) == Filter(s, p) + (if p(x) then [x] else [])
  {
    assert (s + [x])[..|s|] == s;
  }

  lemma {:induction false} FilterAppend<T(!new)>(s: seq<T>, t: seq<T>, p: T -> bool)
    ensures Filter(s + t, p) == Filter(s, p) + Filter(t, p)
    decreases |t|
  {
    if t == [] {
      assert s + t == s;
    } else {
      var t' := t[..|t| - 1];
      var x := t[|t| - 1];
      var tail := if p(x) then [x] else [];
      calc {
        Filter(s + t, p);
      == { assert s + t == (s + t') + [x]; }
        Filter((s + t') + [x], p);
      == { FilterStep(s + t', x, p); }
        Filter(s + t', p) + tail;
      == { FilterAppend(s, t', p); }
        (Filter(s, p) + Filter(t', p)) + tail;
        Filter(s, p) + (Filter(t', p) + tail);
      == { assert t == t' + [x]; FilterStep(t', x, p); }
        Filter(s, p) + Filter(t, p);
      }
    }
  }

  /** Filtering twice is filtering by the conjunction. */
  lemma {:induction false} FilterFilter<T(!new)>(s: seq<T>, p: T -> bool, q: T -> bool, pq: T -> bool)
    requires forall x :: pq(x) == (p(x) && q(x))
    ensures Filter(Filter(s, p), q) == Filter(s, pq)
    decreases |s|
  {
    if s != [] {
      var s' := s[..|s| - 1];
      var x := s[|s| - 1];
      assert s == s' + [x];
      FilterFilter(s', p, q, pq);
      FilterStep(s', x, p);
      FilterStep(Filter(s', p), x, q);
      if p(x) {
        assert Filter(s, p) == Filter(s', p) + [x];
      } else {
        assert Filter(s, p) == Filter(s', p) + [];
        assert Filter(s', p) + [] == Filter(s', p);
      }
    }
  }

  /** A filter whose predicate every element meets changes nothing. */
  lemma {:induction false} FilterAll<T(!new)>(s: seq<T>, p: T -> bool)
    requires forall i :: 0 <= i < |s| ==> p(s[i])
    ensures Filter(s, p) == s
    decreases |s|
  {
    if s != [] {
      var s' := s[..|s| - 1];
      var x := s[|s| - 1];
      forall i | 0 <= i < |s'| ensures p(s'[i]) {
        assert s'[i] == s[i];
      }
      FilterAll(s', p);
      assert p(x);
      calc {
        Filter(s, p);
        Filter(s', p) + [x];
        s' + [x];
        s;
      }
    }
  }

  /** A filter by a predicate nothing meets is empty. */
  lemma {:induction false} FilterNone<T(!new)>(s: seq<T>, p: T -> bool)
    requires forall i :: 0 <= i < |s| ==> !p(s[i])
    ensures Filter(s, p) == []
    decreases |s|
  {
    if s != [] {
      FilterNone(s[..|s| - 1], p);
    }
  }

  /** Filters by predicates that agree everywhere are equal. */
  lemma {:induction false} FilterEquiv<T(!new)>(s: seq<T>, p: T -> bool, q: T -> bool)
    requires forall x :: p(x) == q(x)
    ensures Filter(s, p) == Filter(s, q)
    decreases |s|
  {
    if s != [] {
      FilterEquiv(s[..|s| - 1], p, q);
    }
  }

  /** A filter over a three-element list, written out. */
  lemma FilterThree<T(!new)>(a: T, b: T, c: T, p: T -> bool)
    ensures Filter([a, b, c], p) ==
      (if p(a) then [a] else []) + (if p(b) then [b] else []) + (if p(c) then [c] else [])
  {
    FilterStep([], a, p);
    assert [a] == [] + [a];
    FilterStep([a], b, p);
    assert [a, b] == [a] + [b];
    FilterStep([a, b], c, p);
    assert [a, b, c] == [a, b] + [c];
  }

  /** `Array.prototype.map`. */
  function MapSeq<T, U>(s: seq<T>, f: T -> U): (r: seq<U>)
    ensures |r| == |s|
    ensures forall i :: 0 <= i < |s| ==> r[i] == f(s[i])
  {
    seq(|s|, i requires 0 <= i < |s| => f(s[i]))
  }

  lemma MapSeqStep<T, U>(s: seq<T>, x: T, f: T -> U)
    ensures MapSeq(s + [x], f) == MapSeq(s, f) + [f(x)]
  {
  }

  lemma MapSeqCons<T, U>(s: seq<T>, f: T -> U)
    requires s != []
    ensures MapSeq(s, f) == [f(s[0])] + MapSeq(s[1..], f)
  {
  }

  /** Sum of a real-valued projection. */
  function SumReal<T>(s: seq<T>, f: T -> real): real
    decreases |s|
  {
    if s == [] then 0.0 else SumReal(s[..|s| - 1], f) + f(s[|s| - 1])
  }

  /** Sum of an integer-valued projection. */
  function SumInt<T>(s: seq<T>, f: T -> int): int
    decreases |s|
  {
    if s == [] then 0 else SumInt(s[..|s| - 1], f) + f(s[|s| - 1])
  }

  lemma SumRealStep<T>(s: seq<T>, x: T, f: T -> real)
    ensures SumReal(s + [x], f) == SumReal(s, f) + f(x)
  {
    assert (s + [x])[..|s|] == s;
  }

  /** The sum of `f` over the elements that satisfy `p`, as a `forEach` with a guard adds it up. */
  function SumRealWhere<T>(s: seq<T>, p: T -> bool, f: T -> real): real
    decreases |s|
  {
    if s == [] then 0.0
    else SumRealWhere(s[..|s| - 1], p, f) + (if p(s[|s| - 1]) then f(s[|s| - 1]) else 0.0)
  }

  /** Summing with a guard is summing over the filtered list. */
  lemma {:induction false} SumRealWhereFilter<T(!new)>(s: seq<T>, p: T -> bool, f: T -> real)
    ensures SumRealWhere(s, p, f) == SumReal(Filter(s, p), f)
    decreases |s|
  {
    if s != [] {
      var s' := s[..|s| - 1];
      var x := s[|s| - 1];
      SumRealWhereFilter(s', p, f);
      assert s == s' + [x];
      FilterStep(s', x, p);
      if p(x) {
        SumRealStep(Filter(s', p), x, f);
      } else {
        assert Filter(s, p) == Filter(s', p) + [];
        assert Filter(s', p) + [] == Filter(s', p);
      }
    }
  }

  lemma SumIntStep<T>(s: seq<T>, x: T, f: T -> int)
    ensures SumInt(s + [x], f) == SumInt(s, f) + f(x)
  {
    assert (s + [x])[..|s|] == s;
  }

  /** A sum of terms that all lie in [lo, hi] lies in [n*lo, n*hi]. */
  lemma {:induction false} SumRealBounds<T>(s: seq<T>, f: T -> real, lo: real, hi: real)
    requires forall i :: 0 <= i < |s| ==> lo <= f(s[i]) <= hi
    ensures (|s| as real) * lo <= SumReal(s, f) <= (|s| as real) * hi
    decreases |s|
  {
    if s != [] {
      SumRealBounds(s[..|s| - 1], f, lo, hi);
    }
  }

  /** A sum of zeros is zero. */
  lemma {:induction false} SumIntZero<T>(s: seq<T>, f: T -> int)
    requires forall x :: x in s ==> f(x) == 0
    ensures SumInt(s, f) == 0
    decreases |s|
  {
    if s != [] {
      SumIntZero(s[..|s| - 1], f);
    }
  }

  /**
   * Two projections that agree on a duplicate-free `s` except at one
   * element `x`, where the second is one larger, have sums one apart.
   */
  lemma {:induction false} SumIntBumpOne<T>(s: seq<T>, f: T -> int, g: T -> int, x: T)
    requires NoDup(s) && x in s
    requires forall y :: y in s && y != x ==> g(y) == f(y)
    requires g(x) == f(x) + 1
    ensures SumInt(s, g) == SumInt(s, f) + 1
    decreases |s|
  {
    var s' := s[..|s| - 1];
    var last := s[|s| - 1];
    assert forall y :: y in s' ==> y in s;
    if last == x {
      assert x !in s';
      SumIntSame(s', f, g);
    } else {
      assert x in s';
      SumIntBumpOne(s', f, g, x);
    }
  }

  /** Projections that agree on `s` have equal sums. */
  lemma {:induction false} SumIntSame<T>(s: seq<T>, f: T -> int, g: T -> int)
    requires forall y :: y in s ==> g(y) == f(y)
    ensures SumInt(s, g) == SumInt(s, f)
    decreases |s|
  {
    if s != [] {
      assert forall y :: y in s[..|s| - 1] ==> y in s;
      SumIntSame(s[..|s| - 1], f, g);
    }
  }

  /** The mean of terms that all lie in [lo, hi] lies in [lo, hi]. */
  lemma MeanRealBounds<T>(s: seq<T>, f: T -> real, lo: real, hi: real)
    requires s != []
    requires forall i :: 0 <= i < |s| ==> lo <= f(s[i]) <= hi
    ensures lo <= SumReal(s, f) / (|s| as real) <= hi
  {
    SumRealBounds(s, f, lo, hi);
    DivideBounds(SumReal(s, f), |s| as real, lo, hi);
  }

  /** Dividing a sum in [n*lo, n*hi] by n > 0 lands in [lo, hi]. */
  lemma DivideBounds(sum: real, n: real, lo: real, hi: real)
    requires n > 0.0 && n * lo <= sum <= n * hi
    ensures lo <= sum / n <= hi
  {
    var m := sum / n;
    assert m * n == sum;
    assert (m - lo) * n == sum - lo * n;
    assert (hi - m) * n == hi * n - sum;
  }

  /** No element occurs twice. */
  predicate NoDup<T(==)>(s: seq<T>)
  {
    forall i, j :: 0 <= i < j < |s| ==> s[i] != s[j]
  }

  /**
   * The distinct elements of `s` in order of first occurrence: what
   * spreading a JavaScript `Set` built from `s` yields.
   */
  function Distinct<T(==,!new)>(s: seq<T>): (r: seq<T>)
    ensures NoDup(r)
    ensures forall x :: x in r <==> x in s
    decreases |s|
  {
    if s == [] then []
    else
      var d := Distinct(s[..|s| - 1]);
      if s[|s| - 1] in d then d else d + [s[|s| - 1]]
  }

  lemma DistinctStep<T(!new)>(s: seq<T>, x: T)
    ensures Distinct(s + [x]) == if x in Distinct(s) then Distinct(s) else Distinct(s) + [x]
  {
    assert (s + [x])[..|s|] == s;
  }

  lemma {:induction false} FilterNoDup<T(!new)>(s: seq<T>, p: T -> bool)
    requires NoDup(s)
    ensures NoDup(Filter(s, p))
    decreases |s|
  {
    if s != [] {
      var s' := s[..|s| - 1];
      FilterNoDup(s', p);
      assert s[|s| - 1] !in s';
    }
  }

  lemma {:induction false} NoDupMultiplicity<T>(s: seq<T>)
    requires NoDup(s)
    ensures forall x :: multiset(s)[x] <= 1
    decreases |s|
  {
    if s != [] {
      var s' := s[..|s| - 1];
      NoDupMultiplicity(s');
      assert s == s' + [s[|s| - 1]];
      assert s[|s| - 1] !in s';
    }
  }

  lemma RepeatMultiplicity<T>(s: seq<T>, i: nat, j: nat)
    requires i < j < |s| && s[i] == s[j]
    ensures multiset(s)[s[i]] >= 2
  {
    assert s == s[..j] + s[j..];
    assert s[..j][i] == s[i];
    assert s[j..][0] == s[i];
    assert multiset(s) == multiset(s[..j]) + multiset(s[j..]);
  }

  /** A permutation of a duplicate-free sequence is duplicate-free. */
  lemma PermutationNoDup<T>(s: seq<T>, r: seq<T>)
    requires NoDup(s) && multiset(r) == multiset(s)
    ensures NoDup(r)
  {
    NoDupMultiplicity(s);
    forall i, j | 0 <= i < j < |r| ensures r[i] != r[j] {
      if r[i] == r[j] {
        RepeatMultiplicity(r, i, j);
      }
    }
  }

  /**
   * A dictionary filled by `rows.forEach(r => d[key(r)] = value(r))`:
   * every key that occurs, mapped to the value of the LAST row with it.
   */
  function Lookup<T, K, V>(s: seq<T>, key: T -> K, value: T -> V): map<K, V>
    decreases |s|
  {
    if s == [] then map[]
    else Lookup(s[..|s| - 1], key, value)[key(s[|s| - 1]) := value(s[|s| - 1])]
  }

  lemma LookupStep<T, K, V>(s: seq<T>, x: T, key: T -> K, value: T -> V)
    ensures Lookup(s + [x], key, value) == Lookup(s, key, value)[key(x) := value(x)]
  {
    assert (s + [x])[..|s|] == s;
  }

  /** A key is present iff some row has it, and then holds the last such row's value. */
  lemma {:induction false} LookupLastWins<T, K, V>(s: seq<T>, key: T -> K, value: T -> V, k: K)
    ensures k in Lookup(s, key, value) <==> exists i :: 0 <= i < |s| && key(s[i]) == k
    ensures k in Lookup(s, key, value) ==>
      exists i :: 0 <= i < |s| && key(s[i]) == k && Lookup(s, key, value)[k] == value(s[i]) &&
        forall j :: i < j < |s| ==> key(s[j]) != k
    decreases |s|
  {
    if s != [] {
      var s' := s[..|s| - 1];
      var n := |s| - 1;
      LookupLastWins(s', key, value, k);
      if key(s[n]) == k {
        assert key(s[n]) == k && Lookup(s, key, value)[k] == value(s[n]);
      } else {
        if k in Lookup(s, key, value) {
          var i :| 0 <= i < |s'| && key(s'[i]) == k && Lookup(s', key, value)[k] == value(s'[i]) &&
            forall j :: i < j < |s'| ==> key(s'[j]) != k;
          assert s[i] == s'[i];
          assert forall j :: i < j < |s| ==> key(s[j]) != k;
        }
        if exists i :: 0 <= i < |s| && key(s[i]) == k {
          var i :| 0 <= i < |s| && key(s[i]) == k;
          assert s'[i] == s[i];
        }
      }
    }
  }
}
