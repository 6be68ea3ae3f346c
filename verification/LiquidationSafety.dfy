/** What a leverage that passes means in prices: how far the liquidation threshold stays from the invalidation. */
module LiquidationSafety {
  import opened Arithmetic
  import opened Options
  import opened RiskModel
  import opened MarginModel

  /** Where an isolated position opened at the anchor has only its maintenance margin and stress buffer left. */
  function Threshold(anchor: real, leverage: real, maintenance: real, stressBps: real, bullish: bool): real
    requires leverage > 0.0
  {
    var move := 1.0 / leverage - maintenance - stressBps / 10000.0;
    if bullish then anchor * (1.0 - move) else anchor * (1.0 + move)
  }

  /** From the invalidation on to a threshold: positive when the invalidation is met first. */
  function GapTo(threshold: real, invalidation: real, bullish: bool): real {
    if bullish then invalidation - threshold else threshold - invalidation
  }

  /** Far enough in all three senses. */
  predicate WideEnough(gap: real, mark: real, atr: real, s: RiskSettings) {
    gap > 0.0 && gap * 10000.0 >= s.minLiquidationBufferBps * mark && gap >= s.minLiquidationBufferAtr * atr
  }

  /** The margin rates in force: the instrument's own, or the approximation if that is allowed and it has none. */
  predicate RatesInForce(i: Instrument, s: RiskSettings, initial: real, maintenance: real) {
    && 0.0 < maintenance < initial < 1.0
    && ((i.initialMarginRate == Some(initial) && i.maintenanceMarginRate == Some(maintenance))
        || (&& i.initialMarginRate.None? && i.maintenanceMarginRate.None? && s.allowApproximatedMargin
            && s.approxInitialMarginRate == initial && s.approxMaintenanceMarginRate == maintenance))
  }

  /**
    A leverage is safe when the margin rates are known, it is within the initial-margin bound, and the thresholds
    anchored at the entry and at the mark price are both wide enough away.
   */
  ghost predicate SafeAt(i: Instrument, entry: real, invalidation: real, leverage: real, bullish: bool,
                         atr: Option<real>, s: RiskSettings) {
    && s.isolatedMarginOnly && leverage >= 1.0
    && i.markPrice.Some? && i.markPrice.value > 0.0 && atr.Some? && atr.value > 0.0
    && exists initial, maintenance ::
         && RatesInForce(i, s, initial, maintenance) && leverage * initial <= 1.0
         && forall anchor | anchor in {entry, i.markPrice.value} ::
              WideEnough(GapTo(Threshold(anchor, leverage, maintenance, s.marginStressBufferBps, bullish),
                               invalidation, bullish),
                         i.markPrice.value, atr.value, s)
  }

  lemma ThresholdIsLiquidation(anchor: real, leverage: real, maintenance: real, stressBps: real, bullish: bool)
    requires leverage > 0.0
    ensures Threshold(anchor, leverage, maintenance, stressBps, bullish)
         == LiquidationFrom(anchor, leverage, maintenance + stressBps / 10000.0, bullish)
  {
  }

  lemma RatesAreResolved(i: Instrument, s: RiskSettings, initial: real, maintenance: real)
    ensures RatesInForce(i, s, initial, maintenance) <==>
              ResolveRates(i, s).Ok? && ResolveRates(i, s).value.initial == initial
              && ResolveRates(i, s).value.maintenance == maintenance
  {
  }

  lemma Ratio(x: real, y: real, z: real)
    requires y > 0.0
    ensures x / y >= z <==> x >= z * y
  {
  }

  lemma BufferMeans(invalidation: real, m: Margin, atr: Option<real>, bullish: bool, s: RiskSettings)
    requires m.mark > 0.0
    ensures CheckLiquidationBuffer(invalidation, m, atr, bullish, s).sufficient <==>
              && atr.Some? && atr.value > 0.0
              && WideEnough(GapTo(m.liquidation, invalidation, bullish), m.mark, atr.value, s)
  {
    var gap := GapTo(m.liquidation, invalidation, bullish);
    Ratio(gap, m.mark, s.minLiquidationBufferBps / 10000.0);
    if atr.Some? && atr.value > 0.0 {
      Ratio(gap, atr.value, s.minLiquidationBufferAtr);
    }
    assert gap / m.mark * 10000.0 >= s.minLiquidationBufferBps <==> gap / m.mark >= s.minLiquidationBufferBps / 10000.0;
  }

  lemma MarginMeans(i: Instrument, entry: real, notional: real, leverage: real, bullish: bool, s: RiskSettings)
    requires leverage >= 1.0
    ensures var m := BuildMargin(i, entry, notional, leverage, bullish, s);
            && (m.Ok? <==>
                  && s.isolatedMarginOnly && i.markPrice.Some? && i.markPrice.value > 0.0
                  && ResolveRates(i, s).Ok? && leverage * ResolveRates(i, s).value.initial <= 1.0)
            && (m.Ok? ==>
                  && m.value.mark == i.markPrice.value
                  && var fromEntry := Threshold(entry, leverage, ResolveRates(i, s).value.maintenance,
                                                s.marginStressBufferBps, bullish);
                     var fromMark := Threshold(i.markPrice.value, leverage, ResolveRates(i, s).value.maintenance,
                                               s.marginStressBufferBps, bullish);
                     m.value.liquidation == if bullish then Max(fromEntry, fromMark) else Min(fromEntry, fromMark))
  {
    if ResolveRates(i, s).Ok? {
      var rates := ResolveRates(i, s).value;
      Ratio(1.0, rates.initial, leverage);
      ThresholdIsLiquidation(entry, leverage, rates.maintenance, s.marginStressBufferBps, bullish);
      if i.markPrice.Some? {
        ThresholdIsLiquidation(i.markPrice.value, leverage, rates.maintenance, s.marginStressBufferBps, bullish);
      }
    }
    hide ResolveRates, Threshold, LiquidationFrom;
  }

  /** The nearer of two thresholds is wide enough away exactly when both are. */
  lemma BothWideEnough(x: real, y: real, invalidation: real, bullish: bool, mark: real, atr: real, s: RiskSettings)
    ensures WideEnough(GapTo(if bullish then Max(x, y) else Min(x, y), invalidation, bullish), mark, atr, s) <==>
              && WideEnough(GapTo(x, invalidation, bullish), mark, atr, s)
              && WideEnough(GapTo(y, invalidation, bullish), mark, atr, s)
  {
  }

  /** What the search tests at a leverage is this safety. */
  lemma PassingIsSafety(i: Instrument, entry: real, invalidation: real, notional: real, leverage: real, bullish: bool,
                        atr: Option<real>, s: RiskSettings)
    requires leverage >= 1.0
    ensures Passes(i, entry, invalidation, notional, leverage, bullish, atr, s)
            <==> SafeAt(i, entry, invalidation, leverage, bullish, atr, s)
  {
    var m := BuildMargin(i, entry, notional, leverage, bullish, s);
    MarginMeans(i, entry, notional, leverage, bullish, s);
    if m.Ok? {
      var maintenance := ResolveRates(i, s).value.maintenance;
      BufferMeans(invalidation, m.value, atr, bullish, s);
      if atr.Some? {
        BothWideEnough(Threshold(entry, leverage, maintenance, s.marginStressBufferBps, bullish),
                       Threshold(i.markPrice.value, leverage, maintenance, s.marginStressBufferBps, bullish),
                       invalidation, bullish, m.value.mark, atr.value, s);
      }
      RatesAreResolved(i, s, ResolveRates(i, s).value.initial, maintenance);
    }
    hide BuildMargin, ResolveRates, CheckLiquidationBuffer, Threshold, WideEnough, RatesInForce, GapTo;
    forall initial, maintenance | RatesInForce(i, s, initial, maintenance)
      ensures ResolveRates(i, s).Ok? && ResolveRates(i, s).value.initial == initial
              && ResolveRates(i, s).value.maintenance == maintenance
    {
      RatesAreResolved(i, s, initial, maintenance);
    }
  }

  /** What keeps a margin from being modelled at all, in order; none of it depends on the leverage. */
  function MarginGates(i: Instrument, s: RiskSettings): seq<(bool, PlanRejection)> {
    var imr, mmr := i.initialMarginRate, i.maintenanceMarginRate;
    [(!s.isolatedMarginOnly, ConfigurationInvalid),
     (i.markPrice.None? || i.markPrice.value <= 0.0, InstrumentRiskDataMissing),
     (imr.Some? && mmr.Some? && !(0.0 < mmr.value < imr.value < 1.0), MarginModelUnavailable),
     (imr.None? && mmr.Some?, MarginModelUnavailable),
     (imr.Some? && mmr.None?, MaintenanceMarginUnavailable),
     (imr.None? && mmr.None? && !s.allowApproximatedMargin, MarginModelUnavailable),
     (imr.None? && mmr.None? && !(0.0 < s.approxMaintenanceMarginRate < s.approxInitialMarginRate < 1.0),
      ConfigurationInvalid)]
  }

  /** A refusal gives the code of the first closed gate; with all open the leverage is the only question. */
  lemma RefusalIsFirstClosed(i: Instrument, entry: real, notional: real, leverage: real, bullish: bool, s: RiskSettings)
    requires leverage >= 1.0
    ensures var m := BuildMargin(i, entry, notional, leverage, bullish, s);
            IsFirstClosed(MarginGates(i, s), if m.Err? && m.error.Refused? then Some(m.error.code) else None)
  {
    var m, gates := BuildMargin(i, entry, notional, leverage, bullish, s), MarginGates(i, s);
    if m.Err? && m.error.Refused? {
      var k := if gates[0].0 then 0 else if gates[1].0 then 1 else if gates[2].0 then 2 else if gates[3].0 then 3
               else if gates[4].0 then 4 else if gates[5].0 then 5 else 6;
      assert IsClosedAt(gates, k, m.error.code);
    }
  }

  /** The figures of a margin and of the buffer behind it. */
  lemma MarginFigures(i: Instrument, entry: real, invalidation: real, notional: real, leverage: real, bullish: bool,
                      atr: Option<real>, s: RiskSettings)
    requires leverage >= 1.0 && notional >= 0.0 && BuildMargin(i, entry, notional, leverage, bullish, s).Ok?
    ensures var m := BuildMargin(i, entry, notional, leverage, bullish, s).value;
            && RatesInForce(i, s, m.rates.initial, m.rates.maintenance)
            && (m.rates.approximated <==> i.initialMarginRate.None?)
            && m.leverage == leverage && Some(m.mark) == i.markPrice && m.mark > 0.0
            && m.requiredInitial * leverage == notional && m.maintenance == notional * m.rates.maintenance
            && var b := CheckLiquidationBuffer(invalidation, m, atr, bullish, s);
            && b.distance == GapTo(m.liquidation, invalidation, bullish)
            && b.bps * m.mark == b.distance * 10000.0
            && (b.atrMultiple.Some? <==> atr.Some? && atr.value > 0.0)
            && (b.atrMultiple.Some? ==> b.atrMultiple.value * atr.value == b.distance)
  {
    var m := BuildMargin(i, entry, notional, leverage, bullish, s).value;
    BuiltMarginIsConservative(i, entry, notional, leverage, bullish, s);
    RatesAreResolved(i, s, m.rates.initial, m.rates.maintenance);
    QuotientTimes(notional, leverage);
    QuotientTimes(GapTo(m.liquidation, invalidation, bullish), m.mark);
    if atr.Some? && atr.value > 0.0 {
      QuotientTimes(GapTo(m.liquidation, invalidation, bullish), atr.value);
    }
    hide LiquidationFrom, Cushion;
  }

  lemma QuotientTimes(x: real, y: real)
    requires y > 0.0
    ensures x / y * y == x
  {
  }
}
