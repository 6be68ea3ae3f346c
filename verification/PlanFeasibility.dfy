/**
 * Which settings can accept a plan at all: those shipped, with the shipped fees, accept none unless prices are
 * quoted on a coarse grid.
 */
module PlanFeasibility {
  import opened Arithmetic
  import opened Options
  import opened Vwap
  import opened RiskModel
  import opened Rounding
  import opened TechnicalFrame
  import opened Targets
  import opened Sizing
  import opened CostEngine
  import CostModel
  import Funding
  import CostProperties
  import opened RiskEngine

  // ---------------------------------------------------------------- the invalidation is near

  /** The settings that decide how far an invalidation can be, no wider than shipped, and the cost limit. */
  predicate NoWiderThanShipped(s: RiskSettings) {
    && s.maxEntryChaseBps <= 20.0
    && s.invalidationBufferBps <= 5.0 && s.invalidationBufferAtr <= 0.25
    && s.minDistanceAtr >= 0.5
    && s.maxCostToRiskPct <= 15.0
  }

  lemma RoundingStaysWithinStep(value: real, step: real)
    requires step > 0.0
    ensures RoundTo(value, step, Up) < value + step
    ensures RoundTo(value, step, Down) > value - step
  {
    var x := value / step;
    var down, up := Ticks(x, Down), Ticks(x, Up);
    GridAgainst(up - 1, value, step);
    GridAgainst(down + 1, value, step);
    NextOnGrid(up - 1, step);
    NextOnGrid(down, step);
    hide OnGrid;
    assert down as real > x - 1.0 && up as real < x + 1.0;
  }

  lemma NextOnGrid(k: int, step: real)
    ensures OnGrid(k + 1, step) == OnGrid(k, step) + step
  {
  }

  lemma BufferIsSmall(anchor: real, atr: real, s: RiskSettings)
    requires anchor > 0.0 && atr > 0.0 && s.invalidationBufferBps <= 5.0 && s.invalidationBufferAtr <= 0.25
    ensures TechnicalFrame.Buffer(anchor, atr, s) <= 0.0005 * anchor + 0.25 * atr
  {
    AtMost(anchor, s.invalidationBufferBps, 5.0);
    AtMost(atr, s.invalidationBufferAtr, 0.25);
  }

  lemma AtMost(factor: real, x: real, y: real)
    requires factor >= 0.0 && x <= y
    ensures factor * x <= factor * y
  {
  }

  lemma AtrIsSmall(absolute: real, atr: real, s: RiskSettings)
    requires NotInNoise(absolute, atr, s) && s.minDistanceAtr >= 0.5
    ensures atr <= 2.0 * absolute
  {
    AtMost(atr, 0.5, absolute / atr);
    assert absolute / atr * atr == absolute;
  }

  /** How far apart reference and invalidation can be, and how near both are to the anchor. */
  predicate Near(bullish: bool, f: Frame, anchor: real, tick: real) {
    && f.distance.absolute < 0.005 * anchor + 4.0 * tick
    && (if bullish then f.invalidation == f.zone.reference - f.distance.absolute
                        && f.zone.reference > 0.9995 * anchor - 0.5 * f.distance.absolute - tick
        else f.invalidation == f.zone.reference + f.distance.absolute
             && f.zone.reference > 0.998 * anchor - tick)
  }

  /** The two checks on a frame that the settings bound. */
  predicate NotInNoise(absolute: real, atr: real, s: RiskSettings) {
    atr > 0.0 && absolute / atr >= s.minDistanceAtr
  }

  predicate NotChased(anchor: real, executable: real, bullish: bool, s: RiskSettings) {
    var chase := s.maxEntryChaseBps / 10000.0;
    if bullish then executable <= anchor * (1.0 + chase) else executable >= anchor * (1.0 - chase)
  }

  /** What an accepted frame is made of. */
  lemma FrameParts(i: Instrument, m: Market, s: RiskSettings)
    requires DeriveFrame(i, m, s).Ok?
    ensures var f, tick := DeriveFrame(i, m, s).value, TickSizeFor(i.priceDecimals, i.tickSize);
            && Anchor(m).Some? && Anchor(m).value > 0.0 && m.atr.Some? && m.atr.value > 0.0
            && m.bestBid.Some? && m.bestAsk.Some?
            && var anchor := Anchor(m).value;
            && var buffer := TechnicalFrame.Buffer(anchor, m.atr.value, s);
            && NotInNoise(f.distance.absolute, m.atr.value, s)
            && NotChased(anchor, if m.bullish then m.bestAsk.value else m.bestBid.value, m.bullish, s)
            && if m.bullish then
                 && f.zone.reference == RoundTo(m.bestAsk.value, tick, Up)
                 && f.invalidation == RoundTo(anchor - buffer, tick, Down)
                 && f.invalidation < f.zone.reference && f.distance.absolute == f.zone.reference - f.invalidation
               else
                 && f.zone.reference == RoundTo(m.bestBid.value, tick, Down)
                 && f.invalidation == RoundTo(anchor + buffer, tick, Up)
                 && f.invalidation > f.zone.reference && f.distance.absolute == f.invalidation - f.zone.reference
  {
    hide RoundTo, TechnicalFrame.Buffer, TickSizeFor;
  }

  lemma FrameIsNear(i: Instrument, m: Market, s: RiskSettings)
    requires NoWiderThanShipped(s) && DeriveFrame(i, m, s).Ok?
    ensures Anchor(m).Some?
    ensures Near(m.bullish, DeriveFrame(i, m, s).value, Anchor(m).value, TickSizeFor(i.priceDecimals, i.tickSize))
  {
    FrameParts(i, m, s);
    hide RoundTo, TechnicalFrame.Buffer, DeriveFrame, TickSizeFor, Anchor, NotInNoise, NotChased, Near;
    var f, anchor, tick := DeriveFrame(i, m, s).value, Anchor(m).value, TickSizeFor(i.priceDecimals, i.tickSize);
    var atr := m.atr.value;
    var buffer := TechnicalFrame.Buffer(anchor, atr, s);
    BufferIsSmall(anchor, atr, s);
    AtrIsSmall(f.distance.absolute, atr, s);
    ChaseIsSmall(anchor, if m.bullish then m.bestAsk.value else m.bestBid.value, m.bullish, s);
    if m.bullish {
      RoundingStaysWithinStep(m.bestAsk.value, tick);
      RoundingStaysWithinStep(anchor - buffer, tick);
      NearWhenBullish(f, anchor, atr, m.bestAsk.value, buffer, tick);
    } else {
      RoundingStaysWithinStep(m.bestBid.value, tick);
      RoundingStaysWithinStep(anchor + buffer, tick);
      NearWhenBearish(f, anchor, atr, m.bestBid.value, buffer, tick);
    }
  }

  lemma NearWhenBullish(f: Frame, anchor: real, atr: real, ask: real, buffer: real, tick: real)
    requires buffer <= 0.0005 * anchor + 0.25 * atr && atr <= 2.0 * f.distance.absolute
    requires ask <= 1.002 * anchor && f.zone.reference < ask + tick
    requires f.invalidation > anchor - buffer - tick
    requires f.invalidation < f.zone.reference && f.distance.absolute == f.zone.reference - f.invalidation
    ensures Near(true, f, anchor, tick)
  {
  }

  lemma NearWhenBearish(f: Frame, anchor: real, atr: real, bid: real, buffer: real, tick: real)
    requires buffer <= 0.0005 * anchor + 0.25 * atr && atr <= 2.0 * f.distance.absolute
    requires bid >= 0.998 * anchor && f.zone.reference > bid - tick
    requires f.invalidation < anchor + buffer + tick
    requires f.distance.absolute == f.invalidation - f.zone.reference
    ensures Near(false, f, anchor, tick)
  {
  }

  lemma ChaseIsSmall(anchor: real, executable: real, bullish: bool, s: RiskSettings)
    requires anchor > 0.0 && s.maxEntryChaseBps <= 20.0 && NotChased(anchor, executable, bullish, s)
    ensures if bullish then executable <= 1.002 * anchor else executable >= 0.998 * anchor
  {
    AtMost(anchor, s.maxEntryChaseBps / 10000.0, 0.002);
  }

  // ---------------------------------------------------------------- the costs need a distance

  const SHIPPED_COSTS :=
    CostModel.CostSettings(
      engineEnabled := true, slippageEnabled := true, requireFreshOrderbook := true,
      orderbookMaxLevels := 25, orderbookMaxDistanceBps := 50.0,
      entryStressBps := 2.0, targetStressBps := 2.0, invalidationStressBps := 8.0, maxSlippageToRiskPct := 8.0,
      fundingEnabled := true, requireFundingData := true, fundingLookbackHours := 72, fundingPercentile := 75.0,
      referenceHoldMinutes := 240, fundingBufferBps := 1.0, defaultFundingIntervalHours := 1.0,
      costBufferBps := 1.0, equityOvernightBlocked := true)
  const SHIPPED_FEES := CostModel.FeeSchedule(0.0002, 0.0007, true)
  const SHIPPED_EXECUTION :=
    CostModel.ExecutionAssumptions(CostModel.EntryTaker, CostModel.TargetTaker, CostModel.StopStressTaker)

  /** Fees, stress and buffer no milder than shipped, with the shipped execution modes. */
  predicate NoCheaperThanShipped(costs: CostModel.CostSettings, schedule: CostModel.FeeSchedule,
                                 assumptions: CostModel.ExecutionAssumptions) {
    && CostModel.ValidCostSettings(costs) && CostProperties.ValidSchedule(schedule)
    && schedule.takerFeeRate >= 0.0007
    && costs.entryStressBps >= 2.0 && costs.invalidationStressBps >= 8.0 && costs.costBufferBps >= 1.0
    && assumptions.entry == CostModel.EntryTaker && assumptions.invalidation == CostModel.StopStressTaker
  }

  /** The execution price is at least the stress buffer away from the reference. */
  predicate Stressed(leg: CostModel.Leg, bullish: bool, e: CostModel.LegEstimate, bps: real) {
    if CostModel.Buys(leg, bullish) then e.executionPrice >= e.referencePrice * (1.0 + bps / 10000.0)
    else e.executionPrice <= e.referencePrice * (1.0 - bps / 10000.0)
  }

  lemma MoreBpsIsFurther(reference: real, adverse: real, bps: real, least: real)
    requires reference > 0.0 && bps >= least
    ensures adverse == 1.0 ==> CostModel.ExecutionPrice(reference, adverse, bps) >= reference * (1.0 + least / 10000.0)
    ensures adverse == -1.0 ==> CostModel.ExecutionPrice(reference, adverse, bps) <= reference * (1.0 - least / 10000.0)
  {
    AtMost(reference, least / 10000.0, bps / 10000.0);
  }

  lemma LegIsStressed(r: CostRequest, leg: CostModel.Leg, mode: CostModel.ExecutionMode, reference: real, least: real)
    requires EstimateFor(r, leg, mode, reference).Ok? && CostModel.StressBps(r.settings, leg, mode) >= least
    ensures Stressed(leg, r.bullish, EstimateFor(r, leg, mode, reference).value, least)
  {
    var s, side := r.settings, CostModel.SideFor(leg, r.bullish);
    var vwap := Walked(r.book, side, r.quantity, s.orderbookMaxLevels, s.orderbookMaxDistanceBps);
    CostModel.SlippageNotNegative(r.book, side, r.quantity, s.orderbookMaxLevels, s.orderbookMaxDistanceBps);
    var depth := if vwap.slippageBps.Some? then vwap.slippageBps.value else 0.0;
    hide Walked, CostModel.ExecutionPrice, CostModel.FeeCost, CostModel.StressBps;
    MoreBpsIsFurther(reference, CostModel.AdverseDirection(leg, r.bullish),
                     depth + CostModel.StressBps(s, leg, mode), least);
  }

  /** The share of the reference that a leg costs at least: the stress buffer, and a rate on the rest. */
  function LegShare(bps: real, rate: real): real {
    bps / 10000.0 + rate * (1.0 - bps / 10000.0)
  }

  /** Slippage and a rate on what changes hands, per unit: at least this share of the reference price. */
  lemma UnitFloor(leg: CostModel.Leg, bullish: bool, e: CostModel.LegEstimate, bps: real, rate: real)
    requires e.referencePrice > 0.0 && Stressed(leg, bullish, e, bps) && 0.0 <= bps <= 10000.0 && 0.0 <= rate <= 1.0
    ensures Abs(e.executionPrice - e.referencePrice) + rate * e.executionPrice
         >= e.referencePrice * LegShare(bps, rate)
  {
    var reference, price := e.referencePrice, e.executionPrice;
    var stressed := reference * (1.0 - bps / 10000.0);
    Expanded(reference, bps, rate);
    hide LegShare;
    if CostModel.Buys(leg, bullish) {
      BuyingFloor(reference, stressed, price, rate);
    } else {
      SellingFloor(reference, stressed, price, rate);
    }
  }

  lemma Expanded(reference: real, bps: real, rate: real)
    requires reference > 0.0 && bps >= 0.0
    ensures var stressed := reference * (1.0 - bps / 10000.0);
            && stressed <= reference
            && reference * (1.0 + bps / 10000.0) == 2.0 * reference - stressed
            && reference * LegShare(bps, rate) == reference - stressed + rate * stressed
  {
    var share := bps / 10000.0;
    AtMost(reference, 1.0 - share, 1.0);
    assert reference * (share + rate * (1.0 - share)) == reference * share + rate * (reference * (1.0 - share));
  }

  lemma BuyingFloor(reference: real, stressed: real, price: real, rate: real)
    requires stressed <= reference && price >= 2.0 * reference - stressed && rate >= 0.0
    ensures price - reference + rate * price >= reference - stressed + rate * stressed
  {
    AtMost(rate, stressed, price);
  }

  lemma SellingFloor(reference: real, stressed: real, price: real, rate: real)
    requires price <= stressed && rate <= 1.0
    ensures reference - price + rate * price >= reference - stressed + rate * stressed
  {
    AtMost(1.0 - rate, price, stressed);
  }

  lemma LegFloor(r: CostRequest, leg: CostModel.Leg, mode: CostModel.ExecutionMode, e: CostModel.LegEstimate,
                 bps: real, rate: real)
    requires r.quantity > 0.0 && CostProperties.SoundLeg(r, leg, mode, e)
    requires Stressed(leg, r.bullish, e, bps) && 0.0 <= bps <= 10000.0 && 0.0 <= rate <= 1.0
    ensures e.slippageCost + rate * e.notional
         >= r.quantity * (e.referencePrice * LegShare(bps, rate))
  {
    UnitFloor(leg, r.bullish, e, bps, rate);
    var perUnit := Abs(e.executionPrice - e.referencePrice) + rate * e.executionPrice;
    hide Stressed, CostModel.Buys, Abs, LegShare;
    AtMost(r.quantity, e.referencePrice * LegShare(bps, rate), perUnit);
    PerUnit(r.quantity, Abs(e.executionPrice - e.referencePrice), rate, e.executionPrice);
  }

  lemma PerUnit(quantity: real, slippage: real, rate: real, price: real)
    ensures quantity * (slippage + rate * price) == slippage * quantity + rate * (price * quantity)
  {
  }

  lemma FeeFloor(r: CostRequest, leg: CostModel.Leg, mode: CostModel.ExecutionMode, e: CostModel.LegEstimate)
    requires r.quantity > 0.0 && CostProperties.SoundLeg(r, leg, mode, e)
    requires mode in {CostModel.EntryTaker, CostModel.StopStressTaker} && r.schedule.takerFeeRate >= 0.0007
    ensures e.feeCost >= 0.0007 * e.notional
  {
    assert e.notional >= 0.0;
    AtMost(e.notional, 0.0007, r.schedule.takerFeeRate);
    assert e.feeCost == e.notional * r.schedule.takerFeeRate;
  }

  lemma BufferFloor(notional: real, bps: real)
    requires notional >= 0.0 && bps >= 1.0
    ensures Funding.Buffer(notional, bps) >= 0.0001 * notional
  {
    AtMost(notional, 1.0, bps);
  }

  function FrictionsOf(b: Base): real {
    Frictions(b.entry, b.invalidation, b.funding.expectedCost, b.costBuffer)
  }

  lemma TwoShares(quantity: real, x: real, y: real)
    ensures quantity * (0.00099984 * x + 0.00149944 * y)
         == quantity * (x * LegShare(2.0, 0.0008)) + quantity * (y * LegShare(8.0, 0.0007))
  {
    assert LegShare(2.0, 0.0008) == 0.00099984 && LegShare(8.0, 0.0007) == 0.00149944;
  }

  function ChargesPerUnit(r: CostRequest): real {
    0.00099984 * r.entryReference + 0.00149944 * r.invalidationPrice
  }

  /** Everything that is charged on the way in and out, without funding. */
  lemma ChargesFloor(r: CostRequest)
    requires NoCheaperThanShipped(r.settings, r.schedule, r.assumptions) && HoldMinutes(r) >= 0 && BaseOf(r).Ok?
    ensures r.quantity > 0.0
    ensures FrictionsOf(BaseOf(r).value) >= r.quantity * ChargesPerUnit(r)
  {
    hide BaseOf, BaseFrom, EstimateFor, CostProperties.SoundLeg, LegShare, FrictionsOf, Funding.ProjectFunding;
    var b := BaseOf(r).value;
    CostProperties.BaseIsSound(r);
    CostProperties.BaseChargesNotNegative(r);
    BaseBuffer(r);
    EntryFloor(r, b.entry);
    InvalidationFloor(r, b.invalidation);
    TwoShares(r.quantity, r.entryReference, r.invalidationPrice);
    SumOfCharges(b, r.quantity * (r.entryReference * LegShare(2.0, 0.0008)),
                 r.quantity * (r.invalidationPrice * LegShare(8.0, 0.0007)));
  }

  lemma EntryFloor(r: CostRequest, e: CostModel.LegEstimate)
    requires NoCheaperThanShipped(r.settings, r.schedule, r.assumptions)
    requires EstimateFor(r, CostModel.Entry, r.assumptions.entry, r.entryReference) == Ok(e)
    ensures e.feeCost >= 0.0007 * e.notional
    ensures e.slippageCost + 0.0008 * e.notional >= r.quantity * (r.entryReference * LegShare(2.0, 0.0008))
  {
    CostProperties.EstimatedLegIsSound(r, CostModel.Entry, r.assumptions.entry, r.entryReference);
    LegIsStressed(r, CostModel.Entry, r.assumptions.entry, r.entryReference, 2.0);
    hide EstimateFor, CostProperties.SoundLeg, Stressed, LegShare;
    FeeFloor(r, CostModel.Entry, r.assumptions.entry, e);
    LegFloor(r, CostModel.Entry, r.assumptions.entry, e, 2.0, 0.0008);
  }

  lemma InvalidationFloor(r: CostRequest, e: CostModel.LegEstimate)
    requires NoCheaperThanShipped(r.settings, r.schedule, r.assumptions)
    requires EstimateFor(r, CostModel.Invalidation, r.assumptions.invalidation, r.invalidationPrice) == Ok(e)
    ensures e.feeCost >= 0.0007 * e.notional
    ensures e.slippageCost + 0.0007 * e.notional >= r.quantity * (r.invalidationPrice * LegShare(8.0, 0.0007))
  {
    CostProperties.EstimatedLegIsSound(r, CostModel.Invalidation, r.assumptions.invalidation, r.invalidationPrice);
    LegIsStressed(r, CostModel.Invalidation, r.assumptions.invalidation, r.invalidationPrice, 8.0);
    hide EstimateFor, CostProperties.SoundLeg, Stressed, LegShare;
    FeeFloor(r, CostModel.Invalidation, r.assumptions.invalidation, e);
    LegFloor(r, CostModel.Invalidation, r.assumptions.invalidation, e, 8.0, 0.0007);
  }

  lemma SumOfCharges(b: Base, entry: real, invalidation: real)
    requires b.entry.slippageCost + 0.0008 * b.entry.notional >= entry
    requires b.invalidation.slippageCost + 0.0007 * b.invalidation.notional >= invalidation
    requires b.entry.feeCost >= 0.0007 * b.entry.notional && b.invalidation.feeCost >= 0.0007 * b.invalidation.notional
    requires b.costBuffer >= 0.0001 * b.entry.notional && b.funding.expectedCost >= 0.0
    ensures FrictionsOf(b) >= entry + invalidation
  {
  }

  lemma BaseBuffer(r: CostRequest)
    requires CostModel.ValidCostSettings(r.settings) && BaseOf(r).Ok? && r.settings.costBufferBps >= 1.0
    ensures BaseOf(r).value.costBuffer >= 0.0001 * BaseOf(r).value.entry.notional
    ensures EstimateFor(r, CostModel.Entry, r.assumptions.entry, r.entryReference) == Ok(BaseOf(r).value.entry)
    ensures EstimateFor(r, CostModel.Invalidation, r.assumptions.invalidation, r.invalidationPrice)
         == Ok(BaseOf(r).value.invalidation)
  {
    var b := BaseOf(r).value;
    CostProperties.BaseIsSound(r);
    assert b.entry.notional >= 0.0;
    BufferFloor(b.entry.notional, r.settings.costBufferBps);
    hide EstimateFor, Funding.ProjectFunding, Funding.Buffer, CostProperties.SoundLeg;
  }

  lemma ShareAtMost(cost: real, risk: real, pct: real)
    requires risk > 0.0 && Share(cost, risk) <= pct
    ensures cost <= pct / 100.0 * risk
  {
    assert cost / risk * risk == cost;
    AtMost(risk, cost / risk, pct / 100.0);
  }

  /** How far the invalidation is on the adverse side of the reference. */
  function Adversity(r: CostRequest): real {
    if r.bullish then r.entryReference - r.invalidationPrice else r.invalidationPrice - r.entryReference
  }

  lemma RiskOfBase(r: CostRequest, b: Base)
    requires b == BaseFrom(r, b.entry, b.invalidation, b.funding)
    requires b.entry.referencePrice == r.entryReference && b.invalidation.referencePrice == r.invalidationPrice
    ensures b.grossLoss == r.quantity * Adversity(r)
  {
    hide Frictions, Funding.Buffer;
    assert b.grossLoss == Gross(r.bullish, r.invalidationPrice, r.entryReference, r.quantity);
  }

  lemma ShareOfGated(r: CostRequest, e: CostEstimate)
    requires e.base.grossLoss > 0.0 && Gated(r, e.base, e.targets) == Ok(e)
    ensures e.costToRiskPct == Share(FrictionsOf(e.base), e.base.grossLoss)
  {
    hide Frictions, Share;
  }

  lemma PerUnitAtMost(quantity: real, x: real, cost: real, distance: real)
    requires quantity > 0.0 && quantity * x <= cost <= 0.15 * (quantity * distance)
    ensures x <= 0.15 * distance
  {
    assert quantity * (0.15 * distance - x) >= 0.0;
  }

  /** Within a cost limit of 15 percent, the distance pays for what the two prices cost. */
  lemma CostsNeedDistance(r: CostRequest)
    requires CostModel.ValidCostSettings(r.settings)
    requires NoCheaperThanShipped(r.settings, r.schedule, r.assumptions) && HoldMinutes(r) >= 0
    requires EstimateOf(r).Ok? && EstimateOf(r).value.costToRiskPct <= 15.0
    ensures ChargesPerUnit(r) <= 0.15 * Adversity(r)
  {
    hide *;
    CostProperties.EstimateParts(r);
    ChargesFloor(r);
    CostProperties.BaseIsSound(r);
    var e := EstimateOf(r).value;
    RiskOfBase(r, e.base);
    ShareOfGated(r, e);
    ShareAtMost(FrictionsOf(e.base), e.base.grossLoss, 15.0);
    PerUnitAtMost(r.quantity, ChargesPerUnit(r), FrictionsOf(e.base), Adversity(r));
  }

  // ---------------------------------------------------------------- none is accepted

  /** Near frames and the distance the costs need exclude each other on a grid finer than 25 bps of the anchor. */
  lemma NearIsTooNear(bullish: bool, f: Frame, anchor: real, tick: real)
    requires Near(bullish, f, anchor, tick) && anchor > 0.0 && 0.0 < tick <= 0.0025 * anchor
    ensures 0.00099984 * f.zone.reference + 0.00149944 * f.invalidation > 0.15 * f.distance.absolute
  {
  }

  /**
   * With settings, fees and stress no milder than those shipped, no candidate is accepted on any market, in
   * either direction, whose tick is at most 25 bps of the level the candidate refers to: an invalidation within
   * the shipped buffers that is outside the ATR noise is too near for its costs to stay within 15 percent.
   */
  lemma ShippedSettingsAcceptNothing(c: Context, s: RiskSettings, costs: CostModel.CostSettings, a: Assessment)
    requires NoWiderThanShipped(s)
    requires c.schedule.Some? ==> NoCheaperThanShipped(costs, c.schedule.value, c.assumptions)
    requires Anchor(MarketOf(c)).Some? ==>
               TickSizeFor(c.instrument.priceDecimals, c.instrument.tickSize) <= 0.0025 * Anchor(MarketOf(c)).value
    ensures !Assembled(c, s, costs, a)
  {
    if Assembled(c, s, costs, a) {
      var request := RequestOf(c, a.frame, a.targets, a.position, costs);
      var tick := TickSizeFor(c.instrument.priceDecimals, c.instrument.tickSize);
      hide DerivedTargets, SizeReferencePosition, Searched, DeriveFrame, EstimateOf, TickSizeFor, MarketOf, Near;
      FrameIsNear(c.instrument, MarketOf(c), s);
      LimitHolds(a.costs, s);
      CostsNeedDistance(request);
      NearIsTooNear(c.candidate.bullish, a.frame, Anchor(MarketOf(c)).value, tick);
      assert false;
    }
  }

  lemma LimitHolds(e: CostEstimate, s: RiskSettings)
    requires ValidateCostEstimate(e, s).None?
    ensures e.costToRiskPct <= s.maxCostToRiskPct
  {
  }
}
