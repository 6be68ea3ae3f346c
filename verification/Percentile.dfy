/** The nearest-rank percentile of app/costs/funding_projection.py, computed by sorting. */
module Percentile {
  import opened Arithmetic
  import opened Sorting

  function Value(x: real): real {
    x
  }

  /** The 1-based rank a percentile stands for among n values. */
  function Rank(percentile: real, n: nat): (rank: nat)
    requires n > 0
    ensures 1 <= rank <= n
  {
    var raw := Ceil(percentile / 100.0 * n as real);
    if raw < 1 then 1 else if raw > n then n else raw
  }

  /** The least rank that covers the percentile, or the last one if none does. */
  lemma RankIsLeast(percentile: real, n: nat)
    requires n > 0
    ensures var rank := Rank(percentile, n);
            && (rank < n ==> rank as real >= percentile / 100.0 * n as real)
            && (rank > 1 ==> (rank - 1) as real < percentile / 100.0 * n as real)
  {
  }

  function NearestRank(values: seq<real>, percentile: real): real {
    if values == [] then 0.0 else Sorted(Value, values)[Rank(percentile, |values|) - 1]
  }

  function CountAtMost(values: seq<real>, t: real): nat {
    if values == [] then 0 else (if values[0] <= t then 1 else 0) + CountAtMost(values[1..], t)
  }

  lemma {:induction false} InsertCounts(x: real, ordered: seq<real>, t: real)
    ensures CountAtMost(Insert(Value, x, ordered), t) == (if x <= t then 1 else 0) + CountAtMost(ordered, t)
  {
    if ordered == [] || x <= ordered[0] {
      assert ([x] + ordered)[1..] == ordered;
    } else {
      InsertCounts(x, ordered[1..], t);
      assert Insert(Value, x, ordered)[1..] == Insert(Value, x, ordered[1..]);
    }
  }

  lemma {:induction false} SortCounts(values: seq<real>, t: real)
    ensures CountAtMost(Sorted(Value, values), t) == CountAtMost(values, t)
  {
    if values != [] {
      SortCounts(values[1..], t);
      InsertCounts(values[0], Sorted(Value, values[1..]), t);
    }
  }

  lemma {:induction false} CountOfAscending(values: seq<real>, k: nat, t: real)
    requires Ascending(Value, values) && k < |values|
    ensures values[k] <= t <==> CountAtMost(values, t) >= k + 1
  {
    if k == 0 {
      if values[0] > t {
        NoneAtMost(values, t);
      }
    } else {
      CountOfAscending(values[1..], k - 1, t);
      if values[0] > t {
        NoneAtMost(values, t);
      }
    }
  }

  lemma {:induction false} NoneAtMost(values: seq<real>, t: real)
    requires Ascending(Value, values) && (values != [] ==> values[0] > t)
    ensures CountAtMost(values, t) == 0
  {
    if values != [] {
      NoneAtMost(values[1..], t);
    }
  }

  /** What the percentile means: it is at most t exactly when rank many of the values are. */
  lemma NearestRankMeans(values: seq<real>, percentile: real, t: real)
    requires values != []
    ensures NearestRank(values, percentile) <= t <==> CountAtMost(values, t) >= Rank(percentile, |values|)
    ensures NearestRank(values, percentile) in values
  {
    SortSorts(Value, values);
    SortCounts(values, t);
    CountOfAscending(Sorted(Value, values), Rank(percentile, |values|) - 1, t);
    assert NearestRank(values, percentile) in multiset(Sorted(Value, values));
  }

  lemma {:induction false} CountShrinks(lower: seq<real>, higher: seq<real>, t: real)
    requires |lower| == |higher| && forall i | 0 <= i < |lower| :: lower[i] <= higher[i]
    ensures CountAtMost(lower, t) >= CountAtMost(higher, t)
  {
    if lower != [] {
      CountShrinks(lower[1..], higher[1..], t);
    }
  }

  /** Raising samples, in whatever order they come, never lowers the percentile. */
  lemma NearestRankIsMonotone(lower: seq<real>, higher: seq<real>, percentile: real)
    requires |lower| == |higher| && forall i | 0 <= i < |lower| :: lower[i] <= higher[i]
    ensures NearestRank(lower, percentile) <= NearestRank(higher, percentile)
  {
    if lower != [] {
      var t := NearestRank(higher, percentile);
      NearestRankMeans(higher, percentile, t);
      CountShrinks(lower, higher, t);
      NearestRankMeans(lower, percentile, t);
    }
  }
}
