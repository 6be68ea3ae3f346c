/** The funding cost projection of app/costs/funding_projection.py. */
module Funding {
  import opened Arithmetic
  import opened Options
  import opened CostModel
  import opened Percentile

  const INTRADAY_BUFFER_MAX_MINUTES := 1440
  const HOUR := 3_600_000_000
  const MINUTE := 60_000_000

  /** Times are microseconds. */
  datatype Sample = Sample(at: int, rate: real)

  datatype FundingSnapshot = FundingSnapshot(
    currentRate: Option<real>,
    history: seq<Sample>,
    nextFundingAt: Option<int>,
    intervalHours: real,
    dataFresh: bool)

  datatype FundingProjection = FundingProjection(
    modeled: bool,
    intervalsCharged: int,
    assumedRate: real,
    expectedCost: real,
    bufferCost: real)

  /** Longs pay positive rates, shorts negative ones; income counts as zero. */
  function Adverse(rate: real, bullish: bool): real {
    if bullish then Max(rate, 0.0) else Max(-rate, 0.0)
  }

  function RecentAdverse(history: seq<Sample>, cutoff: int, bullish: bool): seq<real> {
    if history == [] then []
    else
      (if history[0].at >= cutoff then [Adverse(history[0].rate, bullish)] else [])
      + RecentAdverse(history[1..], cutoff, bullish)
  }

  function Intervals(f: FundingSnapshot, holdMinutes: int, asOf: int, s: CostSettings): int {
    var hours := if f.intervalHours != 0.0 then f.intervalHours else s.defaultFundingIntervalHours;
    if f.nextFundingAt.Some? && f.nextFundingAt.value > asOf + holdMinutes * MINUTE then 0
    else if hours > 0.0 then Ceil(holdMinutes as real / 60.0 / hours)
    else 0
  }

  function AssumedRate(current: Option<real>, recent: seq<real>, bullish: bool, percentile: real): real {
    Max(Adverse(if current.Some? then current.value else 0.0, bullish), NearestRank(recent, percentile))
  }

  function ProjectFunding(f: FundingSnapshot, bullish: bool, holdMinutes: int, notional: real, asOf: int,
                          s: CostSettings)
    : Result<FundingProjection, CostError>
  {
    var bufferCost := Buffer(notional, s.fundingBufferBps);
    var bufferOnly := FundingProjection(false, 0, 0.0, bufferCost, bufferCost);
    if !s.fundingEnabled then Ok(bufferOnly)
    else
      var recent := RecentAdverse(f.history, asOf - s.fundingLookbackHours * HOUR, bullish);
      if (f.currentRate.None? && recent == []) || !f.dataFresh then
        if s.requireFundingData || holdMinutes > INTRADAY_BUFFER_MAX_MINUTES then Err(FundingModelUnavailable)
        else Ok(bufferOnly)
      else
        var rate := AssumedRate(f.currentRate, recent, bullish, s.fundingPercentile);
        var intervals := Intervals(f, holdMinutes, asOf, s);
        var applied := if |recent| < 3 then bufferCost else 0.0;
        Ok(FundingProjection(true, intervals, rate, Charge(notional, rate, intervals) + applied, applied))
  }

  function Charge(notional: real, rate: real, intervals: int): real {
    notional * rate * intervals as real
  }

  function Buffer(notional: real, bps: real): (cost: real)
    ensures notional >= 0.0 && bps >= 0.0 ==> cost >= 0.0
  {
    notional * bps / 10000.0
  }

  /** One snapshot is nowhere milder for the direction than another with the same sample times. */
  predicate NowhereMilder(f: FundingSnapshot, harsher: FundingSnapshot, bullish: bool) {
    && |f.history| == |harsher.history|
    && (forall i | 0 <= i < |f.history| ::
          && f.history[i].at == harsher.history[i].at
          && Adverse(f.history[i].rate, bullish) <= Adverse(harsher.history[i].rate, bullish))
    && (f.currentRate.Some? <==> harsher.currentRate.Some?)
    && (f.currentRate.Some? ==>
          Adverse(f.currentRate.value, bullish) <= Adverse(harsher.currentRate.value, bullish))
    && harsher.nextFundingAt == f.nextFundingAt
    && harsher.intervalHours == f.intervalHours && harsher.dataFresh == f.dataFresh
  }

  lemma {:induction false} RecentIsMonotone(h: seq<Sample>, harsher: seq<Sample>, cutoff: int, bullish: bool)
    requires |h| == |harsher|
    requires forall i | 0 <= i < |h| ::
               h[i].at == harsher[i].at && Adverse(h[i].rate, bullish) <= Adverse(harsher[i].rate, bullish)
    ensures var r, r' := RecentAdverse(h, cutoff, bullish), RecentAdverse(harsher, cutoff, bullish);
            |r| == |r'| && forall i | 0 <= i < |r| :: 0.0 <= r[i] <= r'[i]
  {
    if h != [] {
      RecentIsMonotone(h[1..], harsher[1..], cutoff, bullish);
    }
  }

  lemma AssumedRateIsMonotone(f: FundingSnapshot, harsher: FundingSnapshot, cutoff: int, bullish: bool,
                              percentile: real)
    requires NowhereMilder(f, harsher, bullish)
    ensures var r := RecentAdverse(f.history, cutoff, bullish);
            var r' := RecentAdverse(harsher.history, cutoff, bullish);
            && |r| == |r'|
            && 0.0 <= AssumedRate(f.currentRate, r, bullish, percentile)
                   <= AssumedRate(harsher.currentRate, r', bullish, percentile)
  {
    RecentIsMonotone(f.history, harsher.history, cutoff, bullish);
    NearestRankIsMonotone(RecentAdverse(f.history, cutoff, bullish), RecentAdverse(harsher.history, cutoff, bullish),
                          percentile);
  }

  lemma IntervalsNotNegative(f: FundingSnapshot, holdMinutes: int, asOf: int, s: CostSettings)
    requires holdMinutes >= 0
    ensures Intervals(f, holdMinutes, asOf, s) >= 0
  {
  }

  lemma ChargeGrows(notional: real, rate: real, rate': real, intervals: int)
    requires notional >= 0.0 && 0.0 <= rate <= rate' && intervals >= 0
    ensures 0.0 <= Charge(notional, rate, intervals) <= Charge(notional, rate', intervals)
  {
  }

  /**
   * Funding is only ever a cost, and it is decided the same way for a harsher history but never cheaper.
   */
  lemma FundingIsMonotone(f: FundingSnapshot, harsher: FundingSnapshot, bullish: bool, holdMinutes: int,
                          notional: real, asOf: int, s: CostSettings)
    requires NowhereMilder(f, harsher, bullish)
    requires ValidCostSettings(s) && holdMinutes >= 0 && notional >= 0.0
    ensures var p := ProjectFunding(f, bullish, holdMinutes, notional, asOf, s);
            var p' := ProjectFunding(harsher, bullish, holdMinutes, notional, asOf, s);
            && (p.Ok? <==> p'.Ok?)
            && (p.Ok? ==>
                  && 0.0 <= p.value.expectedCost <= p'.value.expectedCost
                  && 0.0 <= p.value.bufferCost == p'.value.bufferCost)
  {
    var cutoff := asOf - s.fundingLookbackHours * HOUR;
    AssumedRateIsMonotone(f, harsher, cutoff, bullish, s.fundingPercentile);
    IntervalsNotNegative(f, holdMinutes, asOf, s);
    hide AssumedRate, Intervals, RecentAdverse, Charge, Buffer;
    assert Intervals(harsher, holdMinutes, asOf, s) == Intervals(f, holdMinutes, asOf, s) by {
      SameIntervals(f, harsher, holdMinutes, asOf, s);
    }
    var recent := RecentAdverse(f.history, cutoff, bullish);
    var harsherRecent := RecentAdverse(harsher.history, cutoff, bullish);
    ChargeGrows(notional, AssumedRate(f.currentRate, recent, bullish, s.fundingPercentile),
                AssumedRate(harsher.currentRate, harsherRecent, bullish, s.fundingPercentile),
                Intervals(f, holdMinutes, asOf, s));
  }

  lemma SameIntervals(f: FundingSnapshot, harsher: FundingSnapshot, holdMinutes: int, asOf: int, s: CostSettings)
    requires harsher.nextFundingAt == f.nextFundingAt && harsher.intervalHours == f.intervalHours
    ensures Intervals(harsher, holdMinutes, asOf, s) == Intervals(f, holdMinutes, asOf, s)
  {
  }

  lemma CeilCovers(x: real)
    ensures Ceil(x) as real - 1.0 < x <= Ceil(x) as real
  {
  }

  /**
   * What a modelled projection charges: a rate no lower than the current adverse one nor than the chosen rank of
   * the recent samples, with the thin-data buffer on top for fewer than three of them.
   */
  lemma RateIsConservative(f: FundingSnapshot, bullish: bool, holdMinutes: int, notional: real, asOf: int,
                           s: CostSettings)
    ensures var p := ProjectFunding(f, bullish, holdMinutes, notional, asOf, s);
            var recent := RecentAdverse(f.history, asOf - s.fundingLookbackHours * HOUR, bullish);
            p.Ok? && p.value.modeled ==>
              && (f.currentRate.Some? ==> p.value.assumedRate >= Adverse(f.currentRate.value, bullish))
              && (recent != [] ==>
                    CountAtMost(recent, p.value.assumedRate) >= Rank(s.fundingPercentile, |recent|))
              && p.value.expectedCost
                 == Charge(notional, p.value.assumedRate, p.value.intervalsCharged) + p.value.bufferCost
              && p.value.bufferCost == (if |recent| < 3 then Buffer(notional, s.fundingBufferBps) else 0.0)
  {
    hide RecentAdverse, NearestRank, Charge, Buffer, CountAtMost, Rank, Intervals, Adverse;
    var recent := RecentAdverse(f.history, asOf - s.fundingLookbackHours * HOUR, bullish);
    if recent != [] {
      NearestRankMeans(recent, s.fundingPercentile, AssumedRate(f.currentRate, recent, bullish, s.fundingPercentile));
    }
  }

  /** The intervals cover the hold time with less than one to spare, or are none when the next funding is later. */
  lemma IntervalsCoverHold(f: FundingSnapshot, holdMinutes: int, asOf: int, s: CostSettings)
    ensures var hours := if f.intervalHours != 0.0 then f.intervalHours else s.defaultFundingIntervalHours;
            var intervals := Intervals(f, holdMinutes, asOf, s);
            if hours <= 0.0 || (f.nextFundingAt.Some? && f.nextFundingAt.value > asOf + holdMinutes * 60_000_000) then
              intervals == 0
            else (intervals as real - 1.0) * hours < holdMinutes as real / 60.0 <= intervals as real * hours
  {
    var hours := if f.intervalHours != 0.0 then f.intervalHours else s.defaultFundingIntervalHours;
    if hours > 0.0 {
      IntervalsCover(holdMinutes as real / 60.0, hours);
    }
    hide Ceil;
  }

  lemma IntervalsCover(holdHours: real, hours: real)
    requires hours > 0.0
    ensures (Ceil(holdHours / hours) as real - 1.0) * hours < holdHours <= Ceil(holdHours / hours) as real * hours
  {
    var intervals := holdHours / hours;
    assert intervals * hours == holdHours;
    CeilCovers(intervals);
    var up := Ceil(intervals) as real;
    hide Ceil;
    StrictlyMore(up - 1.0, intervals, hours);
    assert intervals * hours <= up * hours;
  }

  lemma StrictlyMore(x: real, y: real, hours: real)
    requires hours > 0.0 && x < y
    ensures x * hours < y * hours
  {
  }

  // ---------------------------------------------------------------- the whole projection

  /** How a rate counts against a position: longs pay positive rates, shorts negative ones. */
  function Against(rate: real, bullish: bool): real {
    if bullish then rate else -rate
  }

  /** A sample within the lookback. */
  predicate IsRecent(sample: Sample, asOf: int, lookbackHours: int) {
    sample.at >= asOf - lookbackHours * 3_600_000_000
  }

  function RecentSamples(history: seq<Sample>, asOf: int, lookbackHours: int): nat {
    if history == [] then 0
    else (if IsRecent(history[0], asOf, lookbackHours) then 1 else 0) + RecentSamples(history[1..], asOf, lookbackHours)
  }

  /** How many recent samples count no more than t against the position. */
  function RecentAtMost(history: seq<Sample>, asOf: int, lookbackHours: int, bullish: bool, t: real): nat {
    if history == [] then 0
    else
      (if IsRecent(history[0], asOf, lookbackHours) && Against(history[0].rate, bullish) <= t then 1 else 0)
      + RecentAtMost(history[1..], asOf, lookbackHours, bullish, t)
  }

  lemma {:induction false} RecentMeans(history: seq<Sample>, asOf: int, lookbackHours: int, bullish: bool, t: real)
    requires t >= 0.0
    ensures var recent := RecentAdverse(history, asOf - lookbackHours * HOUR, bullish);
            && |recent| == RecentSamples(history, asOf, lookbackHours)
            && CountAtMost(recent, t) == RecentAtMost(history, asOf, lookbackHours, bullish, t)
            && forall x | x in recent :: x >= 0.0
  {
    if history != [] {
      RecentMeans(history[1..], asOf, lookbackHours, bullish, t);
      var rest := RecentAdverse(history[1..], asOf - lookbackHours * HOUR, bullish);
      var first := [Adverse(history[0].rate, bullish)];
      assert (first + rest)[1..] == rest && [] + rest == rest;
    }
  }

  /** No rate to go by, or a stale one. */
  predicate NoFundingData(f: FundingSnapshot, asOf: int, lookbackHours: int) {
    (f.currentRate.None? && RecentSamples(f.history, asOf, lookbackHours) == 0) || !f.dataFresh
  }

  /**
   * Funding is refused exactly when it is to be charged, there is no usable data, and data is required or the hold
   * is longer than a day; what is charged without data, or with funding switched off, is the buffer.
   */
  lemma ProjectedExactlyWhen(f: FundingSnapshot, bullish: bool, holdMinutes: int, notional: real, asOf: int,
                             s: CostSettings)
    ensures var p := ProjectFunding(f, bullish, holdMinutes, notional, asOf, s);
            var noData := NoFundingData(f, asOf, s.fundingLookbackHours);
            && (p.Err? <==> s.fundingEnabled && noData && (s.requireFundingData || holdMinutes > 1440))
            && (p.Err? ==> p.error == FundingModelUnavailable)
            && (p.Ok? ==> (p.value.modeled <==> s.fundingEnabled && !noData))
            && (p.Ok? && !p.value.modeled ==>
                  && p.value.expectedCost == p.value.bufferCost == notional * s.fundingBufferBps / 10000.0
                  && p.value.intervalsCharged == 0 && p.value.assumedRate == 0.0)
  {
    RecentMeans(f.history, asOf, s.fundingLookbackHours, bullish, 0.0);
    hide RecentAdverse, RecentSamples, RecentAtMost, CountAtMost, NearestRank, AssumedRate, Intervals, Charge;
  }

  /**
   * A modelled projection: the rate is the greater of the current one and the percentile of the recent ones, each
   * as it counts against the position and at least zero; it is charged once per interval, and thin data adds the
   * buffer.
   */
  lemma ModelledMeans(f: FundingSnapshot, bullish: bool, holdMinutes: int, notional: real, asOf: int, s: CostSettings,
                      t: real)
    requires t >= 0.0
    ensures var p := ProjectFunding(f, bullish, holdMinutes, notional, asOf, s);
            var n := RecentSamples(f.history, asOf, s.fundingLookbackHours);
            p.Ok? && p.value.modeled ==>
              && 0.0 <= p.value.assumedRate
              && (p.value.assumedRate <= t <==>
                    && (f.currentRate.Some? ==> Against(f.currentRate.value, bullish) <= t)
                    && (n > 0 ==> RecentAtMost(f.history, asOf, s.fundingLookbackHours, bullish, t)
                                  >= Rank(s.fundingPercentile, n)))
              && p.value.bufferCost == (if n < 3 then notional * s.fundingBufferBps / 10000.0 else 0.0)
              && p.value.expectedCost
                 == notional * p.value.assumedRate * p.value.intervalsCharged as real + p.value.bufferCost
  {
    var recent := RecentAdverse(f.history, asOf - s.fundingLookbackHours * HOUR, bullish);
    RecentMeans(f.history, asOf, s.fundingLookbackHours, bullish, t);
    ModelledParts(f, bullish, holdMinutes, notional, asOf, s);
    AssumedRateMeans(f.currentRate, recent, bullish, s.fundingPercentile, t);
    hide RecentAdverse, RecentSamples, RecentAtMost, CountAtMost, AssumedRate, Rank, ProjectFunding, Charge, Buffer;
  }

  lemma ModelledParts(f: FundingSnapshot, bullish: bool, holdMinutes: int, notional: real, asOf: int, s: CostSettings)
    ensures var p := ProjectFunding(f, bullish, holdMinutes, notional, asOf, s);
            var recent := RecentAdverse(f.history, asOf - s.fundingLookbackHours * HOUR, bullish);
            p.Ok? && p.value.modeled ==>
              && p.value.assumedRate == AssumedRate(f.currentRate, recent, bullish, s.fundingPercentile)
              && p.value.bufferCost == (if |recent| < 3 then notional * s.fundingBufferBps / 10000.0 else 0.0)
              && p.value.expectedCost
                 == notional * p.value.assumedRate * p.value.intervalsCharged as real + p.value.bufferCost
  {
    hide RecentAdverse, AssumedRate, Intervals;
  }

  lemma AssumedRateMeans(current: Option<real>, recent: seq<real>, bullish: bool, percentile: real, t: real)
    requires t >= 0.0
    ensures var rate := AssumedRate(current, recent, bullish, percentile);
            && 0.0 <= rate
            && (rate <= t <==>
                  && (current.Some? ==> Against(current.value, bullish) <= t)
                  && (recent != [] ==> CountAtMost(recent, t) >= Rank(percentile, |recent|)))
  {
    if recent != [] {
      NearestRankMeans(recent, percentile, t);
    } else {
      NearestRankOfNone(percentile);
    }
    hide NearestRank, CountAtMost, Rank;
  }

  lemma NearestRankOfNone(percentile: real)
    ensures NearestRank([], percentile) == 0.0
  {
  }

  /** The intervals of a modelled projection are those of the hold. */
  lemma IntervalsAreCharged(f: FundingSnapshot, bullish: bool, holdMinutes: int, notional: real, asOf: int,
                            s: CostSettings)
    ensures var p := ProjectFunding(f, bullish, holdMinutes, notional, asOf, s);
            p.Ok? && p.value.modeled ==> p.value.intervalsCharged == Intervals(f, holdMinutes, asOf, s)
  {
  }
}
