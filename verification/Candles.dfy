/** Gap detection in a candle series (app/data/candle_service.py). Times are integers, a candle is its open time. */
module Candles {
  import opened Options
  import opened Sorting

  /** Missing time: inclusive start, exclusive end. */
  datatype CandleGap = CandleGap(start: int, end: int)

  function MissingBuckets(g: CandleGap, interval: int): int
    requires interval > 0
  {
    (g.end - g.start) / interval
  }

  // ---------------------------------------------------------------- sorted without duplicates

  predicate Rising(times: seq<int>) {
    forall i, j | 0 <= i < j < |times| :: times[i] < times[j]
  }

  function Distinct(times: seq<int>): seq<int> {
    if times == [] then []
    else
      var rest := Distinct(times[1..]);
      if times[0] in rest then rest else [times[0]] + rest
  }

  function AsReal(t: int): real {
    t as real
  }

  function SortedUnique(times: seq<int>): seq<int> {
    Sorted(AsReal, Distinct(times))
  }

  lemma {:induction false} DistinctIsSet(times: seq<int>, x: int)
    ensures multiset(Distinct(times))[x] == if x in times then 1 else 0
  {
    if times != [] {
      DistinctIsSet(times[1..], x);
      assert times == [times[0]] + times[1..];
    }
  }

  lemma TwiceIn(times: seq<int>, i: nat, j: nat)
    requires i < j < |times| && times[i] == times[j]
    ensures multiset(times)[times[i]] >= 2
  {
    assert times == times[..j] + times[j..] && times[..j][i] == times[i] && times[j..][0] == times[i];
    assert times[i] in multiset(times[..j]) && times[i] in multiset(times[j..]);
  }

  lemma SortedUniqueIsSet(times: seq<int>)
    ensures Rising(SortedUnique(times))
    ensures forall x :: x in SortedUnique(times) <==> x in times
  {
    var unique := SortedUnique(times);
    SortSorts(AsReal, Distinct(times));
    forall x
      ensures x in unique <==> x in times
      ensures multiset(unique)[x] <= 1
    {
      DistinctIsSet(times, x);
      assert x in unique <==> x in multiset(unique);
    }
    hide Distinct, SortedUnique;
    forall i, j | 0 <= i < j < |unique|
      ensures unique[i] < unique[j]
    {
      assert AsReal(unique[i]) <= AsReal(unique[j]);
      if unique[i] == unique[j] {
        TwiceIn(unique, i, j);
      }
    }
  }

  // ---------------------------------------------------------------- what is covered

  /** Some candle's bucket holds the time. */
  ghost predicate Covered(times: seq<int>, interval: int, t: int) {
    exists i :: 0 <= i < |times| && times[i] <= t < times[i] + interval
  }

  ghost predicate Missing(gaps: seq<CandleGap>, t: int) {
    exists i :: 0 <= i < |gaps| && gaps[i].start <= t < gaps[i].end
  }

  /** The gaps are exactly the part of [from, until) no candle covers. */
  ghost predicate Tiles(gaps: seq<CandleGap>, times: seq<int>, interval: int, from: int, until: int) {
    forall t :: Missing(gaps, t) <==> from <= t < until && !Covered(times, interval, t)
  }

  /** In time order, none empty, none touching the next. */
  predicate OrderedGaps(gaps: seq<CandleGap>, until: int) {
    && (forall i | 0 <= i < |gaps| :: gaps[i].start < gaps[i].end <= until)
    && (forall i, j | 0 <= i < j < |gaps| :: gaps[i].end < gaps[j].start)
  }

  /** Bounds of the observed range extended by the optional start and end. */
  function HullStart(unique: seq<int>, start: Option<int>): int
    requires unique != []
  {
    if start.Some? && unique[0] > start.value then start.value else unique[0]
  }

  function HullEnd(unique: seq<int>, interval: int, end: Option<int>): int
    requires unique != []
  {
    var last := unique[|unique| - 1] + interval;
    if end.Some? && end.value > last then end.value else last
  }

  function TotalGap(gaps: seq<CandleGap>): int {
    if gaps == [] then 0
    else TotalGap(gaps[..|gaps| - 1]) + (gaps[|gaps| - 1].end - gaps[|gaps| - 1].start)
  }

  predicate SpacedBy(times: seq<int>, interval: int) {
    forall i | 0 < i < |times| :: times[i - 1] + interval <= times[i]
  }

  /** The gaps found once the first n candles were looked at, from the hull's start to the end of the last bucket. */
  ghost predicate Found(gaps: seq<CandleGap>, unique: seq<int>, n: nat, interval: int, from: int)
    requires 0 < n <= |unique|
  {
    var until := unique[n - 1] + interval;
    && Tiles(gaps, unique[..n], interval, from, until)
    && OrderedGaps(gaps, unique[n - 1])
    && (SpacedBy(unique, interval) ==> TotalGap(gaps) + n * interval == until - from)
  }

  lemma MissingOneMore(gaps: seq<CandleGap>, g: CandleGap, t: int)
    ensures Missing(gaps + [g], t) <==> Missing(gaps, t) || g.start <= t < g.end
  {
    var more := gaps + [g];
    assert more[|gaps|] == g;
    assert forall i | 0 <= i < |gaps| :: more[i] == gaps[i];
  }

  lemma CoveredOneMore(unique: seq<int>, n: nat, interval: int, t: int)
    requires n < |unique|
    ensures Covered(unique[..n + 1], interval, t) <==>
            Covered(unique[..n], interval, t) || unique[n] <= t < unique[n] + interval
  {
  }

  lemma CoveredBefore(unique: seq<int>, n: nat, interval: int, t: int)
    requires Rising(unique) && 0 < n <= |unique| && t >= unique[n - 1] + interval
    ensures !Covered(unique[..n], interval, t)
  {
  }

  lemma TotalOneMore(gaps: seq<CandleGap>, g: CandleGap)
    ensures TotalGap(gaps + [g]) == TotalGap(gaps) + (g.end - g.start)
  {
  }

  lemma NextCandleTiles(gaps: seq<CandleGap>, unique: seq<int>, n: nat, interval: int, from: int, more: seq<CandleGap>)
    requires Rising(unique) && 0 < n < |unique| && interval > 0 && from <= unique[n - 1]
    requires Tiles(gaps, unique[..n], interval, from, unique[n - 1] + interval)
    requires var expected := unique[n - 1] + interval;
             more == if unique[n] > expected then gaps + [CandleGap(expected, unique[n])] else gaps
    ensures Tiles(more, unique[..n + 1], interval, from, unique[n] + interval)
  {
    var expected := unique[n - 1] + interval;
    assert unique[n - 1] < unique[n];
    hide Covered, Missing;
    forall t
      ensures Missing(more, t) <==>
              from <= t < unique[n] + interval && !Covered(unique[..n + 1], interval, t)
    {
      MissingOneMore(gaps, CandleGap(expected, unique[n]), t);
      CoveredOneMore(unique, n, interval, t);
      if t >= expected {
        CoveredBefore(unique, n, interval, t);
      }
    }
  }

  /** One more candle, with the gap before it when there is one. */
  lemma NextCandle(gaps: seq<CandleGap>, unique: seq<int>, n: nat, interval: int, from: int)
    requires Rising(unique) && 0 < n < |unique| && interval > 0 && from <= unique[0]
    requires Found(gaps, unique, n, interval, from)
    ensures var expected := unique[n - 1] + interval;
            Found(if unique[n] > expected then gaps + [CandleGap(expected, unique[n])] else gaps,
                  unique, n + 1, interval, from)
  {
    var expected := unique[n - 1] + interval;
    var gap := CandleGap(expected, unique[n]);
    assert unique[n - 1] < unique[n];
    assert 0 < n - 1 ==> unique[0] < unique[n - 1];
    hide Tiles, TotalGap, Rising;
    NextCandleTiles(gaps, unique, n, interval, from, if unique[n] > expected then gaps + [gap] else gaps);
    TotalOneMore(gaps, gap);
  }

  /** The part after the last candle, when an end beyond it is asked for. */
  lemma AfterLast(gaps: seq<CandleGap>, unique: seq<int>, interval: int, from: int, until: int)
    requires Rising(unique) && unique != [] && interval > 0 && from <= unique[0]
    requires Found(gaps, unique, |unique|, interval, from)
    requires until > unique[|unique| - 1] + interval
    ensures var more := gaps + [CandleGap(unique[|unique| - 1] + interval, until)];
            && Tiles(more, unique, interval, from, until) && OrderedGaps(more, until)
            && (SpacedBy(unique, interval) ==> TotalGap(more) + |unique| * interval == until - from)
  {
    var n := |unique|;
    var gap := CandleGap(unique[n - 1] + interval, until);
    assert unique[..n] == unique;
    assert 0 < n - 1 ==> unique[0] < unique[n - 1];
    hide Covered, Missing, TotalGap;
    forall t
      ensures Missing(gaps + [gap], t) <==> from <= t < until && !Covered(unique, interval, t)
    {
      MissingOneMore(gaps, gap, t);
      if t >= gap.start {
        CoveredBefore(unique, n, interval, t);
      }
    }
    TotalOneMore(gaps, gap);
  }

  lemma FirstCandle(unique: seq<int>, interval: int, start: Option<int>)
    requires unique != [] && interval > 0
    ensures var from := HullStart(unique, start);
            Found(if from < unique[0] then [CandleGap(from, unique[0])] else [], unique, 1, interval, from)
  {
    var from := HullStart(unique, start);
    var gap := CandleGap(from, unique[0]);
    forall t
      ensures Covered(unique[..1], interval, t) <==> unique[0] <= t < unique[0] + interval
      ensures Missing([gap], t) <==> from <= t < unique[0]
    {
      assert unique[..1][0] == unique[0] && [gap][0] == gap;
    }
    assert [gap][..0] == [];
  }

  /**
   * The gaps are ordered and disjoint, and together with the candle buckets they are exactly the hull, whatever
   * the order or repetition of the candles and however close they lie. For candles at least one interval apart
   * the lengths add up too.
   */
  method FindGaps(openTimes: seq<int>, interval: int, start: Option<int>, end: Option<int>)
    returns (gaps: seq<CandleGap>)
    requires interval > 0
    ensures var unique := SortedUnique(openTimes);
            if unique == [] then
              gaps == if start.Some? && end.Some? && end.value > start.value
                      then [CandleGap(start.value, end.value)] else []
            else
              var from, until := HullStart(unique, start), HullEnd(unique, interval, end);
              && Tiles(gaps, openTimes, interval, from, until)
              && OrderedGaps(gaps, until)
              && (SpacedBy(unique, interval) ==> TotalGap(gaps) + |unique| * interval == until - from)
  {
    hide Tiles, OrderedGaps, SortedUnique, TotalGap, SpacedBy;
    var unique := SortedUnique(openTimes);
    SortedUniqueIsSet(openTimes);
    if unique == [] {
      return if start.Some? && end.Some? && end.value > start.value then [CandleGap(start.value, end.value)] else [];
    }
    ghost var from := HullStart(unique, start);
    FirstCandle(unique, interval, start);
    gaps := [];
    if start.Some? && unique[0] > start.value {
      gaps := gaps + [CandleGap(start.value, unique[0])];
      assert gaps == [CandleGap(from, unique[0])];
    }
    for n := 1 to |unique|
      invariant Found(gaps, unique, n, interval, from)
    {
      NextCandle(gaps, unique, n, interval, from);
      var expected := unique[n - 1] + interval;
      if unique[n] > expected {
        gaps := gaps + [CandleGap(expected, unique[n])];
      }
    }
    assert unique[..|unique|] == unique;
    CoverageIgnoresOrder(openTimes, interval);
    var lastEnd := unique[|unique| - 1] + interval;
    if end.Some? && end.value > lastEnd {
      AfterLast(gaps, unique, interval, from, end.value);
      gaps := gaps + [CandleGap(lastEnd, end.value)];
    } else {
      WithinLastBucket(gaps, unique[|unique| - 1], lastEnd);
    }
    SameTiles(gaps, unique, openTimes, interval, from, HullEnd(unique, interval, end));
  }

  lemma WithinLastBucket(gaps: seq<CandleGap>, until: int, later: int)
    requires OrderedGaps(gaps, until) && until <= later
    ensures OrderedGaps(gaps, later)
  {
  }

  lemma CoverageIgnoresOrder(openTimes: seq<int>, interval: int)
    ensures forall t :: Covered(SortedUnique(openTimes), interval, t) <==> Covered(openTimes, interval, t)
  {
    SortedUniqueIsSet(openTimes);
    forall t
      ensures Covered(SortedUnique(openTimes), interval, t) <==> Covered(openTimes, interval, t)
    {
      CoveredByMember(openTimes, interval, t);
      CoveredByMember(SortedUnique(openTimes), interval, t);
    }
  }

  lemma CoveredByMember(times: seq<int>, interval: int, t: int)
    ensures Covered(times, interval, t) <==> exists c :: c in times && c <= t < c + interval
  {
    if Covered(times, interval, t) {
      var i :| 0 <= i < |times| && times[i] <= t < times[i] + interval;
      assert times[i] in times;
    }
  }

  lemma SameTiles(gaps: seq<CandleGap>, unique: seq<int>, openTimes: seq<int>, interval: int, from: int, until: int)
    requires Tiles(gaps, unique, interval, from, until)
    requires forall t :: Covered(unique, interval, t) <==> Covered(openTimes, interval, t)
    ensures Tiles(gaps, openTimes, interval, from, until)
  {
  }

  // ---------------------------------------------------------------- counting buckets

  function TotalMissing(gaps: seq<CandleGap>, interval: int): int
    requires interval > 0
  {
    if gaps == [] then 0
    else TotalMissing(gaps[..|gaps| - 1], interval) + MissingBuckets(gaps[|gaps| - 1], interval)
  }

  predicate OnBuckets(gaps: seq<CandleGap>, interval: int)
    requires interval > 0
  {
    forall i | 0 <= i < |gaps| :: (gaps[i].end - gaps[i].start) % interval == 0
  }

  /** When every gap is whole buckets, the counts add up to the missing time: no bucket is lost to rounding. */
  lemma {:induction false} BucketsAddUp(gaps: seq<CandleGap>, interval: int)
    requires interval > 0 && OnBuckets(gaps, interval)
    ensures TotalMissing(gaps, interval) * interval == TotalGap(gaps)
  {
    if gaps != [] {
      var front, last := gaps[..|gaps| - 1], gaps[|gaps| - 1];
      BucketsAddUp(front, interval);
      assert last.end - last.start == MissingBuckets(last, interval) * interval;
      Distribute(TotalMissing(front, interval), MissingBuckets(last, interval), interval);
    }
  }

  lemma Distribute(a: int, b: int, c: int)
    ensures (a + b) * c == a * c + b * c
  {
  }
}
