/** Hypothetical isolated margin and the liquidation buffer (app/risk/margin_model.py, liquidation_buffer.py). */
module MarginModel {
  import opened Arithmetic
  import opened Options
  import opened RiskModel

  datatype Rates = Rates(initial: real, maintenance: real, approximated: bool)

  datatype Margin = Margin(
    rates: Rates,
    requiredInitial: real,
    maintenance: real,
    liquidation: real,
    leverage: real,
    mark: real)

  /** Refusals end the search for a leverage; being above the initial-margin bound only ends this candidate. */
  datatype MarginError = Refused(code: PlanRejection) | AboveInitialMarginBound

  datatype LiquidationBuffer = LiquidationBuffer(
    sufficient: bool,
    distance: real,
    bps: real,
    atrMultiple: Option<real>)

  function ResolveRates(i: Instrument, s: RiskSettings): (r: Result<Rates, PlanRejection>)
    ensures r.Ok? ==> 0.0 < r.value.maintenance < r.value.initial < 1.0
  {
    if i.initialMarginRate.Some? && i.maintenanceMarginRate.Some? then
      var imr, mmr := i.initialMarginRate.value, i.maintenanceMarginRate.value;
      if 0.0 < mmr < imr < 1.0 then Ok(Rates(imr, mmr, false)) else Err(MarginModelUnavailable)
    else if i.maintenanceMarginRate.Some? then Err(MarginModelUnavailable)
    else if i.initialMarginRate.Some? then Err(MaintenanceMarginUnavailable)
    else if !s.allowApproximatedMargin then Err(MarginModelUnavailable)
    else if 0.0 < s.approxMaintenanceMarginRate < s.approxInitialMarginRate < 1.0 then
      Ok(Rates(s.approxInitialMarginRate, s.approxMaintenanceMarginRate, true))
    else Err(ConfigurationInvalid)
  }

  function LiquidationFrom(anchor: real, leverage: real, cushion: real, bullish: bool): real
    requires leverage != 0.0
  {
    if bullish then anchor * (1.0 - 1.0 / leverage + cushion)
    else anchor * (1.0 + 1.0 / leverage - cushion)
  }

  /** The more conservative of the entry-anchored and the mark-anchored threshold. */
  function Liquidation(entry: real, mark: real, leverage: real, cushion: real, bullish: bool): real
    requires leverage != 0.0
  {
    var fromEntry := LiquidationFrom(entry, leverage, cushion, bullish);
    var fromMark := LiquidationFrom(mark, leverage, cushion, bullish);
    if bullish then Max(fromEntry, fromMark) else Min(fromEntry, fromMark)
  }

  function BuildMargin(i: Instrument, entry: real, notional: real, leverage: real, bullish: bool, s: RiskSettings)
    : Result<Margin, MarginError>
  {
    if !s.isolatedMarginOnly || leverage < 1.0 then Err(Refused(ConfigurationInvalid))
    else if i.markPrice.None? || i.markPrice.value <= 0.0 then Err(Refused(InstrumentRiskDataMissing))
    else
      match ResolveRates(i, s)
      case Err(code) => Err(Refused(code))
      case Ok(rates) =>
        if leverage > 1.0 / rates.initial then Err(AboveInitialMarginBound)
        else
          Ok(Margin(rates, Max(notional / leverage, notional * rates.initial), notional * rates.maintenance,
                    Liquidation(entry, i.markPrice.value, leverage, Cushion(rates, s), bullish),
                    leverage, i.markPrice.value))
  }

  function Cushion(rates: Rates, s: RiskSettings): real {
    rates.maintenance + s.marginStressBufferBps / 10000.0
  }

  /** From the invalidation to the liquidation threshold; positive when the invalidation comes first. */
  function CheckLiquidationBuffer(invalidation: real, m: Margin, atr: Option<real>, bullish: bool, s: RiskSettings)
    : LiquidationBuffer
    requires m.mark > 0.0
  {
    var distance := if bullish then invalidation - m.liquidation else m.liquidation - invalidation;
    var bps := distance / m.mark * 10000.0;
    var atrMultiple := if atr.Some? && atr.value > 0.0 then Some(distance / atr.value) else None;
    LiquidationBuffer(
      distance > 0.0 && bps >= s.minLiquidationBufferBps
      && atrMultiple.Some? && atrMultiple.value >= s.minLiquidationBufferAtr,
      distance, bps, atrMultiple)
  }

  /** A leverage the model accepts with a sufficient buffer. */
  predicate Passes(i: Instrument, entry: real, invalidation: real, notional: real, leverage: real, bullish: bool,
                   atr: Option<real>, s: RiskSettings)
  {
    var m := BuildMargin(i, entry, notional, leverage, bullish, s);
    m.Ok? && CheckLiquidationBuffer(invalidation, m.value, atr, bullish, s).sufficient
  }

  // ---------------------------------------------------------------- lower leverage is safer

  lemma LowerLeverageIsFarther(anchor: real, low: real, high: real, cushion: real, bullish: bool)
    requires anchor > 0.0 && 1.0 <= low <= high
    ensures if bullish
            then LiquidationFrom(anchor, low, cushion, bullish) <= LiquidationFrom(anchor, high, cushion, bullish)
            else LiquidationFrom(anchor, low, cushion, bullish) >= LiquidationFrom(anchor, high, cushion, bullish)
  {
  }

  lemma BufferGrows(distance: real, wider: real, unit: real)
    requires distance <= wider && unit > 0.0
    ensures distance / unit <= wider / unit
    ensures distance / unit * 10000.0 <= wider / unit * 10000.0
  {
  }

  /** A leverage that passes makes every lower one down to 1x pass, in both directions. */
  lemma LowerLeveragePasses(i: Instrument, entry: real, invalidation: real, notional: real, low: real, high: real,
                            bullish: bool, atr: Option<real>, s: RiskSettings)
    requires entry > 0.0 && 1.0 <= low <= high
    requires Passes(i, entry, invalidation, notional, high, bullish, atr, s)
    ensures Passes(i, entry, invalidation, notional, low, bullish, atr, s)
  {
    var rates, mark := ResolveRates(i, s).value, i.markPrice.value;
    LowerLeverageIsFarther(entry, low, high, Cushion(rates, s), bullish);
    LowerLeverageIsFarther(mark, low, high, Cushion(rates, s), bullish);
    var m := BuildMargin(i, entry, notional, low, bullish, s);
    var n := BuildMargin(i, entry, notional, high, bullish, s);
    hide LiquidationFrom, ResolveRates, Cushion;
    assert m.Ok?;
    var wider := CheckLiquidationBuffer(invalidation, m.value, atr, bullish, s).distance;
    var distance := CheckLiquidationBuffer(invalidation, n.value, atr, bullish, s).distance;
    BufferGrows(distance, wider, mark);
    BufferGrows(distance, wider, atr.value);
  }

  // ---------------------------------------------------------------- what the threshold means

  /**
   * At the threshold an initial margin of anchor / leverage has shrunk, by the move from the anchor, to exactly
   * the maintenance margin plus the stress buffer.
   */
  lemma ThresholdLeavesMaintenance(anchor: real, leverage: real, cushion: real, bullish: bool)
    requires leverage >= 1.0
    ensures var threshold := LiquidationFrom(anchor, leverage, cushion, bullish);
            var loss := if bullish then anchor - threshold else threshold - anchor;
            anchor / leverage - loss == anchor * cushion
  {
    assert anchor * (1.0 / leverage) == anchor / leverage;
  }

  /** A built margin uses the threshold nearer to the position, and its initial margin is notional / leverage. */
  lemma BuiltMarginIsConservative(i: Instrument, entry: real, notional: real, leverage: real, bullish: bool,
                                  s: RiskSettings)
    requires notional >= 0.0
    ensures var r := BuildMargin(i, entry, notional, leverage, bullish, s);
            r.Ok? ==>
              var m := r.value;
              var fromEntry := LiquidationFrom(entry, leverage, Cushion(m.rates, s), bullish);
              var fromMark := LiquidationFrom(m.mark, leverage, Cushion(m.rates, s), bullish);
              && leverage >= 1.0 && leverage * m.rates.initial <= 1.0
              && m.requiredInitial == notional / leverage
              && m.liquidation in {fromEntry, fromMark}
              && (bullish ==> m.liquidation >= fromEntry && m.liquidation >= fromMark)
              && (!bullish ==> m.liquidation <= fromEntry && m.liquidation <= fromMark)
  {
    var r := BuildMargin(i, entry, notional, leverage, bullish, s);
    hide LiquidationFrom, ResolveRates, Cushion;
    if r.Ok? {
      InitialMarginBound(notional, leverage, r.value.rates.initial);
    }
  }

  lemma InitialMarginBound(notional: real, leverage: real, imr: real)
    requires notional >= 0.0 && leverage >= 1.0 && 0.0 < imr && leverage <= 1.0 / imr
    ensures leverage * imr <= 1.0 && notional * imr <= notional / leverage
  {
    assert 1.0 / imr * imr == 1.0;
    assert leverage * imr <= 1.0 / imr * imr;
    Scaled(notional, leverage * imr, 1.0);
    AtMostQuotient(notional * imr, leverage, notional);
  }

  lemma Scaled(factor: real, x: real, y: real)
    requires factor >= 0.0 && x <= y
    ensures factor * x <= factor * y
  {
  }

  lemma AtMostQuotient(x: real, divisor: real, y: real)
    requires divisor > 0.0 && x * divisor <= y
    ensures x <= y / divisor
  {
    assert y / divisor * divisor == y;
  }
}
