/** One index price out of many feeds: median, deviation filter, median again. */
module Aggregation {
  import opened Machine
  import opened Sorting
  import opened Sums

  const DEVIATION_SCALE := 10_000

  datatype OracleParams = OracleParams(
    stalenessWindow: U64, minFeedsRequired: U8, maxDeviationBps: U32, aggregateMaxAge: U64)

  datatype AggregationError =
    | TooFewFreshFeeds(feeds: U8, required: U8)
    | TooFewAfterDeviationFilter(remaining: U8, required: U8)

  predicate AtMost(a: U64, b: U64) { a <= b }

  /** The middle of the sorted prices, or the floored mean of the middle two. */
  function MiddleOf(sorted: seq<U64>): U64
    requires sorted != []
  {
    var n := |sorted|;
    if n % 2 == 1 then sorted[n / 2] else (sorted[n / 2 - 1] as int + sorted[n / 2]) / 2
  }

  function Median(prices: seq<U64>): Option<U64> {
    var sorted := Sort(prices, AtMost);
    if sorted == [] then None else Some(MiddleOf(sorted))
  }

  function AbsDiff(a: U64, b: U64): U64 { if a >= b then a - b else b - a }

  function DeviationBps(price: U64, reference: U64): U32 {
    if reference == 0 then U32_MAX
    else
      var bps := SatU128(AbsDiff(price, reference) * DEVIATION_SCALE) / reference;
      if bps <= U32_MAX then bps else U32_MAX
  }

  function FilterByDeviation(prices: seq<U64>, reference: U64, cap: U32): seq<U64> {
    if prices == [] then []
    else (if DeviationBps(prices[0], reference) <= cap then [prices[0]] else [])
         + FilterByDeviation(prices[1..], reference, cap)
  }

  function AggregateIndex(prices: seq<U64>, p: OracleParams): Result<U64, AggregationError> {
    if SatU8(|prices|) < p.minFeedsRequired then Err(TooFewFreshFeeds(SatU8(|prices|), p.minFeedsRequired))
    else
      match Median(prices)
      case None => Err(TooFewFreshFeeds(0, p.minFeedsRequired))
      case Some(initial) =>
        var kept := FilterByDeviation(prices, initial, p.maxDeviationBps);
        if SatU8(|kept|) < p.minFeedsRequired
        then Err(TooFewAfterDeviationFilter(SatU8(|kept|), p.minFeedsRequired))
        else
          match Median(kept)
          case None => Err(TooFewAfterDeviationFilter(0, p.minFeedsRequired))
          case Some(index) => Ok(index)
  }

  /** The steps the source takes to a median: copy, sort the copy, pick. */
  method ComputeMedian(prices: seq<U64>) returns (r: Option<U64>)
    ensures r == Median(prices)
    ensures r.None? <==> prices == []
  {
    SortedPrices(prices);
    if prices == [] {
      return None;
    }
    var sorted := Sort(prices, AtMost);
    var n := |sorted|;
    var median: U64;
    if n % 2 == 1 {
      median := sorted[n / 2];
    } else {
      median := (sorted[n / 2 - 1] as int + sorted[n / 2]) / 2;
    }
    r := Some(median);
  }

  /** The median of any prices, by their sorted list: the middle one of an odd number,
      the mean of the middle two, rounded down, of an even number. */
  lemma {:induction false} MedianMeaning(prices: seq<U64>, s: seq<U64>)
    requires prices != [] && Sorted(s, AtMost) && multiset(s) == multiset(prices)
    ensures |s| == |prices| && Median(prices).Some?
    ensures var n, m := |prices|, Median(prices).value;
            if n % 2 == 1 then m == s[n / 2]
            else n >= 2 && 2 * m <= s[n / 2 - 1] + s[n / 2] <= 2 * m + 1
  {
    SortedPrices(prices);
    SortedUnique(Sort(prices, AtMost), s, AtMost);
  }

  // ---------------------------------------------------------- input order

  lemma SortedPrices(prices: seq<U64>)
    ensures var s := Sort(prices, AtMost);
            Sorted(s, AtMost) && multiset(s) == multiset(prices) && |s| == |prices|
  {
    SortCorrect(prices, AtMost);
  }

  lemma MedianIgnoresOrder(xs: seq<U64>, ys: seq<U64>)
    requires multiset(xs) == multiset(ys)
    ensures Median(xs) == Median(ys)
  {
    SortIgnoresOrder(xs, ys, AtMost);
  }

  lemma {:induction false} FilterCounts(prices: seq<U64>, reference: U64, cap: U32, x: U64)
    ensures multiset(FilterByDeviation(prices, reference, cap))[x]
            == if DeviationBps(x, reference) <= cap then multiset(prices)[x] else 0
  {
    if prices != [] {
      FilterCounts(prices[1..], reference, cap, x);
      MultisetTail(prices);
    }
  }

  lemma FilterIgnoresOrder(xs: seq<U64>, ys: seq<U64>, reference: U64, cap: U32)
    requires multiset(xs) == multiset(ys)
    ensures multiset(FilterByDeviation(xs, reference, cap)) == multiset(FilterByDeviation(ys, reference, cap))
  {
    forall x: U64
      ensures multiset(FilterByDeviation(xs, reference, cap))[x] == multiset(FilterByDeviation(ys, reference, cap))[x]
    {
      FilterCounts(xs, reference, cap, x);
      FilterCounts(ys, reference, cap, x);
    }
  }

  /** Price or error, the result does not depend on the order of the feeds. */
  lemma AggregateIgnoresOrder(xs: seq<U64>, ys: seq<U64>, p: OracleParams)
    requires multiset(xs) == multiset(ys)
    ensures AggregateIndex(xs, p) == AggregateIndex(ys, p)
  {
    SameLength(xs, ys);
    MedianIgnoresOrder(xs, ys);
    if Median(xs).Some? {
      var initial := Median(xs).value;
      FilterIgnoresOrder(xs, ys, initial, p.maxDeviationBps);
      var kx, ky := FilterByDeviation(xs, initial, p.maxDeviationBps),
                    FilterByDeviation(ys, initial, p.maxDeviationBps);
      SameLength(kx, ky);
      MedianIgnoresOrder(kx, ky);
    }
  }

  // ------------------------------------------------------------ robustness

  function InRange(lo: int, hi: int): U64 -> int { (x: U64) => if lo <= x <= hi then 1 else 0 }

  /** How many prices lie in [lo, hi]. */
  function Inside(prices: seq<U64>, lo: int, hi: int): int { Sum(prices, InRange(lo, hi)) }

  lemma InsideSplit(s: seq<U64>, k: nat, lo: int, hi: int)
    requires k <= |s|
    ensures Inside(s, lo, hi) == Inside(s[..k], lo, hi) + Inside(s[k..], lo, hi)
    ensures 0 <= Inside(s[..k], lo, hi) <= k && 0 <= Inside(s[k..], lo, hi) <= |s| - k
  {
    assert s == s[..k] + s[k..];
    SumAppend(s[..k], s[k..], InRange(lo, hi));
    SumBounds(s[..k], InRange(lo, hi), 0, 1);
    SumBounds(s[k..], InRange(lo, hi), 0, 1);
  }

  /** A sorted price below the range has at most the prices after it inside. */
  lemma BelowRange(s: seq<U64>, k: nat, lo: int, hi: int)
    requires Sorted(s, AtMost) && k < |s| && s[k] < lo
    ensures Inside(s, lo, hi) <= |s| - k - 1
  {
    InsideSplit(s, k + 1, lo, hi);
    var below := s[..k + 1];
    forall i | 0 <= i < |below|
      ensures below[i] < lo
    {
      assert i == k || AtMost(s[i], s[k]);
    }
    SumBounds(s[..k + 1], InRange(lo, hi), 0, 0);
  }

  lemma AboveRange(s: seq<U64>, k: nat, lo: int, hi: int)
    requires Sorted(s, AtMost) && k < |s| && s[k] > hi
    ensures Inside(s, lo, hi) <= k
  {
    InsideSplit(s, k, lo, hi);
    var above := s[k..];
    forall i | 0 <= i < |above|
      ensures above[i] > hi
    {
      assert i == 0 || AtMost(s[k], s[k + i]);
    }
    SumBounds(s[k..], InRange(lo, hi), 0, 0);
  }

  lemma MiddleInRange(s: seq<U64>, k: nat, lo: int, hi: int)
    requires Sorted(s, AtMost) && k < |s| && 2 * Inside(s, lo, hi) > |s|
    requires |s| - 1 <= 2 * k + 1 && 2 * k <= |s|
    ensures lo <= s[k] <= hi
  {
    if s[k] < lo {
      BelowRange(s, k, lo, hi);
    } else if s[k] > hi {
      AboveRange(s, k, lo, hi);
    }
  }

  /** If more than half of the feeds lie in a range, so does the median: a
      minority cannot move it out, whatever prices it reports. */
  lemma MajorityHoldsMedian(prices: seq<U64>, lo: int, hi: int)
    requires 2 * Inside(prices, lo, hi) > |prices|
    ensures Median(prices).Some? && lo <= Median(prices).value <= hi
  {
    var s := Sort(prices, AtMost);
    SortedPrices(prices);
    SumOfMultiset(s, prices, InRange(lo, hi));
    InsideSplit(s, 0, lo, hi);
    var n := |s|;
    assert s[..0] == [];
    MiddleInRange(s, n / 2, lo, hi);
    if n % 2 == 0 {
      MiddleInRange(s, n / 2 - 1, lo, hi);
    }
  }

  lemma MedianWithin(prices: seq<U64>, lo: int, hi: int)
    requires prices != [] && forall i :: 0 <= i < |prices| ==> lo <= prices[i] <= hi
    ensures Median(prices).Some? && lo <= Median(prices).value <= hi
  {
    SumBounds(prices, InRange(lo, hi), 1, 1);
    MajorityHoldsMedian(prices, lo, hi);
  }

  /** A price passes the filter exactly when it is within the cap, counted without
      division; no product saturates, and nothing is within any cap of zero. */
  lemma {:induction false} DeviationMeaning(price: U64, m: U64, cap: U32)
    requires cap < U32_MAX
    ensures DeviationBps(price, m) <= cap <==> AbsDiff(price, m) * DEVIATION_SCALE < (cap + 1) * m
  {
    if m == 0 {
      return;
    }
    var x := AbsDiff(price, m) * DEVIATION_SCALE;
    var q := x / m;
    FloorBounds(x, m, q);
    if q <= cap {
      MulMono(q + 1, cap + 1, m);
      assert (q + 1) * m == q * m + m;
    } else {
      MulMono(cap + 1, q, m);
    }
  }

  predicate Near(price: U64, m: U64, cap: U32) { AbsDiff(price, m) * DEVIATION_SCALE < (cap + 1) * m }

  /** What passes the filter was a feed's price and is near the reference. */
  lemma {:induction false} KeptWithinCap(prices: seq<U64>, m: U64, cap: U32, i: nat)
    requires m > 0 && i < |FilterByDeviation(prices, m, cap)|
    ensures var kept := FilterByDeviation(prices, m, cap)[i];
            (cap < U32_MAX ==> Near(kept, m, cap)) && exists j :: 0 <= j < |prices| && prices[j] == kept
  {
    if cap < U32_MAX {
      DeviationMeaning(prices[0], m, cap);
    }
    if DeviationBps(prices[0], m) > cap {
      KeptWithinCap(prices[1..], m, cap, i);
    } else if i > 0 {
      KeptWithinCap(prices[1..], m, cap, i - 1);
    }
  }

  /** The prices near m, as a range. */
  lemma NearRange(price: U64, m: U64, cap: U32, d: int)
    requires m > 0 && d == ((cap + 1) * m - 1) / DEVIATION_SCALE
    ensures Near(price, m, cap) <==> m - d <= price <= m + d
  {
    DivBounds((cap + 1) * m - 1, DEVIATION_SCALE);
  }

  ghost predicate AllPositive(prices: seq<U64>) { forall i :: 0 <= i < |prices| ==> prices[i] > 0 }

  lemma KeptInRange(prices: seq<U64>, m: U64, cap: U32, d: int)
    requires AllPositive(prices) && m > 0
    requires d == if cap < U32_MAX then ((cap + 1) * m - 1) / DEVIATION_SCALE else U64_MAX
    ensures var kept := FilterByDeviation(prices, m, cap);
            forall i :: 0 <= i < |kept| ==> Max(1, m - d) <= kept[i] <= m + d
  {
    var kept := FilterByDeviation(prices, m, cap);
    forall i | 0 <= i < |kept|
      ensures Max(1, m - d) <= kept[i] <= m + d
    {
      KeptWithinCap(prices, m, cap, i);
      if cap < U32_MAX {
        NearRange(kept[i], m, cap, d);
      }
    }
  }

  lemma KeptMedianNear(prices: seq<U64>, m: U64, cap: U32)
    requires AllPositive(prices) && m > 0 && FilterByDeviation(prices, m, cap) != []
    ensures var r := Median(FilterByDeviation(prices, m, cap));
            r.Some? && r.value > 0 && (cap < U32_MAX ==> Near(r.value, m, cap))
  {
    var kept := FilterByDeviation(prices, m, cap);
    var d := if cap < U32_MAX then ((cap + 1) * m - 1) / DEVIATION_SCALE else U64_MAX;
    KeptInRange(prices, m, cap, d);
    MedianWithin(kept, Max(1, m - d), m + d);
    if cap < U32_MAX {
      NearRange(Median(kept).value, m, cap, d);
    }
  }

  lemma MedianOfNone(prices: seq<U64>)
    ensures Median(prices).None? <==> prices == []
  {
    SortedPrices(prices);
  }

  /** A published index is a positive price within the deviation cap of the
      median of all the feeds; the largest cap filters nothing, because the
      deviation itself saturates there. */
  lemma IndexNearMedian(prices: seq<U64>, p: OracleParams)
    requires AllPositive(prices) && AggregateIndex(prices, p).Ok?
    ensures Median(prices).Some?
    ensures var m, index := Median(prices).value, AggregateIndex(prices, p).value;
            m > 0 && index > 0 && (p.maxDeviationBps < U32_MAX ==> Near(index, m, p.maxDeviationBps))
  {
    MedianOfNone(prices);
    MedianWithin(prices, 1, U64_MAX);
    var m := Median(prices).value;
    MedianOfNone(FilterByDeviation(prices, m, p.maxDeviationBps));
    KeptMedianNear(prices, m, p.maxDeviationBps);
  }

  ghost predicate AllWithin(prices: seq<U64>, m: U64, cap: U32) {
    forall i :: 0 <= i < |prices| ==> DeviationBps(prices[i], m) <= cap
  }

  /** The filter never adds feeds, and keeps all of them exactly when all are
      within the cap. */
  lemma {:induction false} FilterKeepsAllExactly(prices: seq<U64>, m: U64, cap: U32)
    ensures |FilterByDeviation(prices, m, cap)| <= |prices|
    ensures |FilterByDeviation(prices, m, cap)| == |prices| <==> AllWithin(prices, m, cap)
  {
    if prices != [] {
      FilterKeepsAllExactly(prices[1..], m, cap);
      assert prices == [prices[0]] + prices[1..];
      if DeviationBps(prices[0], m) <= cap && AllWithin(prices[1..], m, cap) {
        forall i | 0 <= i < |prices|
          ensures DeviationBps(prices[i], m) <= cap
        {
          assert i > 0 ==> prices[i] == prices[1..][i - 1];
        }
      }
    }
  }

  /** How many prices are within the cap of a reference. */
  function Within(prices: seq<U64>, m: U64, cap: U32): nat {
    if prices == [] then 0
    else (if AbsDiff(prices[0], m) * DEVIATION_SCALE < (cap + 1) * m then 1 else 0) + Within(prices[1..], m, cap)
  }

  lemma {:induction false} FilterCountsWithin(prices: seq<U64>, m: U64, cap: U32)
    requires m > 0 && cap < U32_MAX
    ensures |FilterByDeviation(prices, m, cap)| == Within(prices, m, cap)
  {
    if prices != [] {
      DeviationMeaning(prices[0], m, cap);
      FilterCountsWithin(prices[1..], m, cap);
    }
  }

  /** An index is published exactly when there are enough feeds and enough of them are
      within the cap of their median, at least one in either case; otherwise the error
      says how many there were. */
  lemma {:induction false} AggregatesExactly(prices: seq<U64>, p: OracleParams)
    requires AllPositive(prices) && p.maxDeviationBps < U32_MAX
    ensures var n, r := Min(|prices|, 255), AggregateIndex(prices, p);
            if prices == [] || n < p.minFeedsRequired then r == Err(TooFewFreshFeeds(n, p.minFeedsRequired))
            else
              && Median(prices).Some?
              && var kept := Min(Within(prices, Median(prices).value, p.maxDeviationBps), 255);
                 if kept == 0 || kept < p.minFeedsRequired
                 then r == Err(TooFewAfterDeviationFilter(kept, p.minFeedsRequired)) else r.Ok?
  {
    MedianOfNone(prices);
    if prices != [] {
      MedianWithin(prices, 1, U64_MAX);
      var m := Median(prices).value;
      FilterCountsWithin(prices, m, p.maxDeviationBps);
      MedianOfNone(FilterByDeviation(prices, m, p.maxDeviationBps));
    }
  }

  /** How often a price occurs. */
  function CountOf(s: seq<U64>, x: U64): nat { multiset(s)[x] }

  lemma {:induction false} SameCounts(s: seq<U64>, t: seq<U64>)
    requires forall x: U64 :: CountOf(s, x) == CountOf(t, x)
    ensures multiset(s) == multiset(t)
  {
    forall x: U64
      ensures multiset(s)[x] == multiset(t)[x]
    {
      assert CountOf(s, x) == CountOf(t, x);
    }
  }

  /** What the filter keeps is what is near, as often as it occurs. */
  lemma {:induction false} NearAreKept(prices: seq<U64>, m: U64, cap: U32, s: seq<U64>)
    requires m > 0 && cap < U32_MAX
    requires forall x: U64 :: CountOf(s, x) == if Near(x, m, cap) then CountOf(prices, x) else 0
    ensures multiset(s) == multiset(FilterByDeviation(prices, m, cap))
  {
    var kept := FilterByDeviation(prices, m, cap);
    forall x: U64
      ensures CountOf(s, x) == CountOf(kept, x)
    {
      FilterCounts(prices, m, cap, x);
      DeviationMeaning(x, m, cap);
    }
    SameCounts(s, kept);
  }

  /** The index published is the median of the prices near the first median: the middle
      one of their sorted list, or the mean of the middle two rounded down. */
  lemma {:induction false} IndexIsMedianOfNear(prices: seq<U64>, p: OracleParams, s: seq<U64>)
    requires AllPositive(prices) && p.maxDeviationBps < U32_MAX && AggregateIndex(prices, p).Ok?
    requires Sorted(s, AtMost) && Median(prices).Some?
    requires forall x: U64 ::
               CountOf(s, x) == if Near(x, Median(prices).value, p.maxDeviationBps) then CountOf(prices, x) else 0
    ensures var n, index := |s|, AggregateIndex(prices, p).value;
            && n > 0
            && if n % 2 == 1 then index == s[n / 2]
               else n >= 2 && 2 * index <= s[n / 2 - 1] + s[n / 2] <= 2 * index + 1
  {
    MedianOfNone(prices);
    MedianWithin(prices, 1, U64_MAX);
    var kept := FilterByDeviation(prices, Median(prices).value, p.maxDeviationBps);
    NearAreKept(prices, Median(prices).value, p.maxDeviationBps, s);
    MedianOfNone(kept);
    MedianMeaning(kept, s);
  }
}
