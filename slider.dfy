/**
 * The value logic of the `D3Slider` year slider (`slider.js`): a year
 * kept within a range, updated by clamping, with a callback told of every
 * change. The callback is modelled by the list of years it has been called
 * with, so "the callback fires" reads "a year is appended".
 */
module Slider {

  /**
   * `Math.max(lo, Math.min(hi, v))`: the nearest value of `[lo, hi]`, and
   * `lo` itself when the range is empty.
   */
  function Clamp(v: int, lo: int, hi: int): (r: int)
    ensures lo <= hi ==> lo <= r <= hi
    ensures lo <= hi ==> (r == v <==> lo <= v <= hi)
    ensures lo <= hi && v < lo ==> r == lo
    ensures lo <= hi && hi < v ==> r == hi
    ensures hi < lo ==> r == lo
  {
    var below := if hi < v then hi else v;
    if lo < below then below else lo
  }

  /** Clamping twice is clamping once. */
  lemma ClampIdempotent(v: int, lo: int, hi: int)
    ensures Clamp(Clamp(v, lo, hi), lo, hi) == Clamp(v, lo, hi)
  {
  }

  /** Clamping keeps the order of values. */
  lemma ClampMonotone(v: int, w: int, lo: int, hi: int)
    requires v <= w
    ensures Clamp(v, lo, hi) <= Clamp(w, lo, hi)
  {
  }

  class D3Slider {
    var yearValue: int
    var minValue: int
    var maxValue: int
    /** Whether a callback function was supplied. */
    var hasCallback: bool
    /** The years the callback has been called with, oldest first. */
    var notified: seq<int>

    /** The year lies within the range. */
    predicate InRange()
      reads this
    {
      minValue <= yearValue <= maxValue
    }

    /**
     * The tick count `createTicks` asks of the scale, `min(10, max - min + 1)`:
     * one tick per year of a range of at most ten years, ten otherwise.
     */
    function TickCount(): (n: int)
      reads this
      ensures n <= 10 && n <= maxValue - minValue + 1
      ensures n == maxValue - minValue + 1 <==> maxValue - minValue + 1 <= 10
      ensures minValue <= maxValue ==> 1 <= n
    {
      if 10 < maxValue - minValue + 1 then 10 else maxValue - minValue + 1
    }

    /**
     * The constructor stores the options as given (defaults 2000, 1990,
     * 2015 and no callback); it does not clamp the initial year.
     */
    constructor (yearValue: int := 2000, minValue: int := 1990, maxValue: int := 2015, hasCallback: bool := false)
      ensures this.yearValue == yearValue && this.minValue == minValue && this.maxValue == maxValue
      ensures this.hasCallback == hasCallback && notified == []
    {
      this.yearValue := yearValue;
      this.minValue := minValue;
      this.maxValue := maxValue;
      this.hasCallback := hasCallback;
      notified := [];
    }

    /**
     * `updateValue`: the clamped value becomes the year; only when it
     * differs from the old year is the callback, if any, called with it.
     * The range never changes, and afterwards a repeat of the same call
     * finds nothing to change.
     */
    method UpdateValue(newValue: int)
      modifies this
      ensures yearValue == Clamp(newValue, minValue, maxValue)
      ensures minValue == old(minValue) && maxValue == old(maxValue) && hasCallback == old(hasCallback)
      ensures notified ==
        if hasCallback && yearValue != old(yearValue) then old(notified) + [yearValue] else old(notified)
      ensures minValue <= maxValue ==> InRange()
      ensures TickCount() == old(TickCount())
    {
      var clamped := Clamp(newValue, minValue, maxValue);
      if clamped != yearValue {
        yearValue := clamped;
        if hasCallback {
          notified := notified + [yearValue];
        }
      }
    }

    /** `setValue`: the same update (the source returns the slider for chaining). */
    method SetValue(newValue: int)
      modifies this
      ensures yearValue == Clamp(newValue, minValue, maxValue)
      ensures minValue == old(minValue) && maxValue == old(maxValue) && hasCallback == old(hasCallback)
      ensures notified ==
        if hasCallback && yearValue != old(yearValue) then old(notified) + [yearValue] else old(notified)
      ensures TickCount() == old(TickCount())
    {
      UpdateValue(newValue);
    }

    /** `getValue`: the current year, which lies in the range whenever the range invariant holds. */
    function GetValue(): (v: int)
      reads this
      ensures InRange() ==> minValue <= v <= maxValue
    {
      yearValue
    }

    /**
     * `setRange`: both bounds are replaced and the year is pulled into the
     * new range, silently: the callback is not called even when the year moves.
     * The tick count follows the new range: one per year up to ten years.
     */
    method SetRange(minValue: int, maxValue: int)
      modifies this
      ensures this.minValue == minValue && this.maxValue == maxValue
      ensures yearValue == Clamp(old(yearValue), minValue, maxValue)
      ensures hasCallback == old(hasCallback) && notified == old(notified)
      ensures minValue <= maxValue ==> InRange() && 1 <= TickCount() <= 10
      ensures TickCount() == maxValue - minValue + 1 <==> maxValue - minValue < 10
    {
      this.minValue := minValue;
      this.maxValue := maxValue;
      yearValue := Clamp(yearValue, minValue, maxValue);
    }
  }
}
