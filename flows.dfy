/**
 * The `flows` dictionary both engines fill: a count per "source->target"
 * key, with the keys in insertion order (the order `Object.keys` gives
 * back). A key is modelled as the pair (source, target).
 */
module Flows {
  import opened Seqs

  type FlowKey = (string, string)

  datatype FlowCounts = FlowCounts(keys: seq<FlowKey>, count: map<FlowKey, nat>)

  const NoFlows := FlowCounts([], map[])

  /** Every key is listed once, and exactly the listed keys have counts. */
  ghost predicate Valid(f: FlowCounts)
  {
    NoDup(f.keys) && (forall k :: k in f.count <==> k in f.keys)
  }

  function CountOf(f: FlowCounts, k: FlowKey): nat
  {
    if k in f.count then f.count[k] else 0
  }

  /**
   * `flows[k] = (flows[k] || 0) + 1`: the key's count goes up by one, a new
   * key is appended to the key order, nothing else changes.
   */
  function Bump(f: FlowCounts, k: FlowKey): (g: FlowCounts)
    requires Valid(f)
    ensures Valid(g)
    ensures CountOf(g, k) == CountOf(f, k) + 1
    ensures forall k' :: k' != k ==> CountOf(g, k') == CountOf(f, k')
    ensures g.keys == if k in f.keys then f.keys else f.keys + [k]
  {
    var g := FlowCounts(if k in f.count then f.keys else f.keys + [k], f.count[k := CountOf(f, k) + 1]);
    assert NoDup(g.keys);
    g
  }

  /** A key of a bumped table other than the bumped one was already a key. */
  lemma BumpKeyFrom(f: FlowCounts, a: FlowKey, k: FlowKey)
    requires Valid(f)
    requires k in Bump(f, a).keys && k != a
    ensures k in f.keys
  {
  }

  /** The sum of the counts of those `keys` that satisfy `sel`. */
  function SumCounts(keys: seq<FlowKey>, count: map<FlowKey, nat>, sel: FlowKey -> bool): nat
    decreases |keys|
  {
    if keys == [] then 0
    else
      var k := keys[|keys| - 1];
      SumCounts(keys[..|keys| - 1], count, sel) + (if sel(k) && k in count then count[k] else 0)
  }

  function AnyKey(k: FlowKey): bool { true }

  /** The sum of the counts of the keys `sel` selects. */
  function TotalWhere(f: FlowCounts, sel: FlowKey -> bool): nat
  {
    SumCounts(f.keys, f.count, sel)
  }

  /** The sum of all counts. */
  function Total(f: FlowCounts): nat
  {
    TotalWhere(f, AnyKey)
  }

  lemma {:induction false} SumCountsUpdateOutside(keys: seq<FlowKey>, count: map<FlowKey, nat>, sel: FlowKey -> bool, k: FlowKey, v: nat)
    requires k !in keys
    ensures SumCounts(keys, count[k := v], sel) == SumCounts(keys, count, sel)
    decreases |keys|
  {
    if keys != [] {
      SumCountsUpdateOutside(keys[..|keys| - 1], count, sel, k, v);
    }
  }

  lemma {:induction false} SumCountsIncrement(keys: seq<FlowKey>, count: map<FlowKey, nat>, sel: FlowKey -> bool, k: FlowKey)
    requires NoDup(keys) && k in keys && k in count
    ensures SumCounts(keys, count[k := count[k] + 1], sel) == SumCounts(keys, count, sel) + (if sel(k) then 1 else 0)
    decreases |keys|
  {
    var init := keys[..|keys| - 1];
    var last := keys[|keys| - 1];
    if last == k {
      assert k !in init;
      SumCountsUpdateOutside(init, count, sel, k, count[k] + 1);
    } else {
      assert k in init;
      SumCountsIncrement(init, count, sel, k);
    }
  }

  /** Each bump adds one to the total of the keys `sel` selects when it selects the bumped key, else nothing. */
  lemma BumpTotal(f: FlowCounts, k: FlowKey, sel: FlowKey -> bool)
    requires Valid(f)
    ensures TotalWhere(Bump(f, k), sel) == TotalWhere(f, sel) + (if sel(k) then 1 else 0)
  {
    var g := Bump(f, k);
    if k in f.keys {
      SumCountsIncrement(f.keys, f.count, sel, k);
    } else {
      assert g.keys[..|g.keys| - 1] == f.keys;
      SumCountsUpdateOutside(f.keys, f.count, sel, k, 1);
    }
  }
}
