/** A cost estimate spelled out: when one is made, what every figure in it is, and what the gates on it say. */
module CostMeaning {
  import opened Options
  import opened Depth
  import opened CostModel
  import opened CostEngine
  import opened ExecutionPrices
  import opened RiskModel
  import CostProperties
  import Funding

  // ---------------------------------------------------------------- what an estimate holds

  /** The result of a move of the price, for one unit, in the direction of the plan. */
  function Move(bullish: bool, from: real, to: real): real {
    if bullish then to - from else from - to
  }

  ghost predicate TradesAs(e: LegEstimate, leg: Leg, mode: ExecutionMode, reference: real, r: CostRequest) {
    && e.referencePrice == reference
    && PricedFromWalk(e, leg, mode, r.bullish, r.quantity, r.book, r.schedule, r.settings)
  }

  ghost predicate BaseMeans(r: CostRequest, b: Base) {
    && TradesAs(b.entry, Entry, r.assumptions.entry, r.entryReference, r)
    && TradesAs(b.invalidation, Invalidation, r.assumptions.invalidation, r.invalidationPrice, r)
    && FundingOf(r, b.entry.notional) == Ok(b.funding)
    && BaseFiguresMean(r, b)
  }

  predicate BaseFiguresMean(r: CostRequest, b: Base) {
    && b.costBuffer == b.entry.notional * r.settings.costBufferBps / 10000.0
    && b.grossLoss == Move(r.bullish, r.invalidationPrice, r.entryReference) * r.quantity
    && b.netLoss == b.grossLoss + Charges(b)
  }

  /** Everything charged between opening and the invalidation. */
  function Charges(b: Base): real {
    b.entry.feeCost + b.entry.slippageCost + b.invalidation.feeCost + b.invalidation.slippageCost
    + b.funding.expectedCost + b.costBuffer
  }

  ghost predicate TargetMeans(r: CostRequest, b: Base, i: nat, t: TargetBreakdown)
    requires i < |r.targetPrices|
  {
    && TargetFiguresMean(r, b, i, t)
    && exists leg ::
         && TradesAs(leg, Target, r.assumptions.target, r.targetPrices[i], r)
         && t.exitFee == leg.feeCost && t.exitSlippage == leg.slippageCost
  }

  predicate TargetFiguresMean(r: CostRequest, b: Base, i: nat, t: TargetBreakdown)
    requires i < |r.targetPrices|
  {
    && t.targetPrice == r.targetPrices[i] && t.targetIndex == i
    && t.grossPnl == Move(r.bullish, r.entryReference, r.targetPrices[i]) * r.quantity
    && t.netPnl == t.grossPnl - b.entry.feeCost - b.entry.slippageCost - t.exitFee - t.exitSlippage
                   - b.funding.expectedCost - b.costBuffer
    && t.grossRr == (if b.grossLoss > 0.0 then Some(t.grossPnl / b.grossLoss) else None)
    && t.netRr == (if b.netLoss > 0.0 then Some(t.netPnl / b.netLoss) else None)
  }

  lemma BaseIsMeant(r: CostRequest)
    requires Walkable(r.book) && BaseOf(r).Ok?
    ensures BaseMeans(r, BaseOf(r).value)
  {
    BaseParts(r);
    var b := BaseOf(r).value;
    LegTradesAs(r, Entry, r.assumptions.entry, r.entryReference);
    LegTradesAs(r, Invalidation, r.assumptions.invalidation, r.invalidationPrice);
    hide EstimateFor, Funding.ProjectFunding, BaseOf, BaseFrom, BaseFiguresMean, PricedFromWalk;
    BaseFigures(r, b);
  }

  lemma LegTradesAs(r: CostRequest, leg: Leg, mode: ExecutionMode, reference: real)
    requires Walkable(r.book) && EstimateFor(r, leg, mode, reference).Ok?
    ensures TradesAs(EstimateFor(r, leg, mode, reference).value, leg, mode, reference, r)
  {
    hide PricedFromWalk, EstimateLeg;
    LegIsPricedFromWalk(leg, mode, r.bullish, reference, r.quantity, r.book, r.schedule, r.settings);
  }

  lemma BaseParts(r: CostRequest)
    ensures BaseOf(r).Ok? <==>
              && EstimateFor(r, Entry, r.assumptions.entry, r.entryReference).Ok?
              && EstimateFor(r, Invalidation, r.assumptions.invalidation, r.invalidationPrice).Ok?
              && FundingOf(r, EstimateFor(r, Entry, r.assumptions.entry, r.entryReference).value.notional).Ok?
    ensures BaseOf(r).Ok? ==>
              var b := BaseOf(r).value;
              && EstimateFor(r, Entry, r.assumptions.entry, r.entryReference) == Ok(b.entry)
              && EstimateFor(r, Invalidation, r.assumptions.invalidation, r.invalidationPrice) == Ok(b.invalidation)
              && FundingOf(r, b.entry.notional) == Ok(b.funding)
              && b == BaseFrom(r, b.entry, b.invalidation, b.funding)
    ensures BaseOf(r).Err? ==>
              var entry := EstimateFor(r, Entry, r.assumptions.entry, r.entryReference);
              var invalidation := EstimateFor(r, Invalidation, r.assumptions.invalidation, r.invalidationPrice);
              BaseOf(r).error == if entry.Err? then entry.error else if invalidation.Err? then invalidation.error
                                 else CostError.FundingModelUnavailable
  {
    FundingRefusal(r);
    hide EstimateFor, Funding.ProjectFunding, BaseFrom;
  }

  lemma FundingRefusal(r: CostRequest)
    ensures forall notional: real | FundingOf(r, notional).Err? ::
              FundingOf(r, notional).error == CostError.FundingModelUnavailable
  {
  }

  /** The funding charged on a notional, for the hold time asked for or the configured one. */
  function FundingOf(r: CostRequest, notional: real): Result<Funding.FundingProjection, CostError> {
    Funding.ProjectFunding(r.funding, r.bullish,
                           if r.holdMinutes.Some? then r.holdMinutes.value else r.settings.referenceHoldMinutes,
                           notional, r.asOf, r.settings)
  }

  lemma BaseFigures(r: CostRequest, b: Base)
    requires b == BaseFrom(r, b.entry, b.invalidation, b.funding)
    requires b.entry.referencePrice == r.entryReference && b.invalidation.referencePrice == r.invalidationPrice
    ensures BaseFiguresMean(r, b)
  {
  }

  lemma TargetIsMeant(r: CostRequest, b: Base, i: nat)
    requires Walkable(r.book) && i < |r.targetPrices| && TargetAt(r, b, i).Ok?
    requires b.entry.referencePrice == r.entryReference
    ensures TargetMeans(r, b, i, TargetAt(r, b, i).value)
  {
    LegTradesAs(r, Target, r.assumptions.target, r.targetPrices[i]);
    hide TradesAs, EstimateFor, TargetFiguresMean, TargetEconomics;
    var leg := EstimateFor(r, Target, r.assumptions.target, r.targetPrices[i]).value;
    TargetFigures(r, b, i, leg);
    assert TradesAs(leg, Target, r.assumptions.target, r.targetPrices[i], r);
  }

  lemma TargetFigures(r: CostRequest, b: Base, i: nat, leg: LegEstimate)
    requires i < |r.targetPrices| && b.entry.referencePrice == r.entryReference
    ensures var t := TargetEconomics(r.bullish, i, r.targetPrices[i], leg, r.quantity, b);
            TargetFiguresMean(r, b, i, t) && t.exitFee == leg.feeCost && t.exitSlippage == leg.slippageCost
  {
  }

  /** Every figure of an estimate. */
  ghost predicate EstimateMeans(r: CostRequest, e: CostEstimate) {
    && BaseMeans(r, e.base) && e.base.grossLoss > 0.0
    && |e.targets| == |r.targetPrices|
    && (forall i | 0 <= i < |e.targets| :: TargetMeans(r, e.base, i, e.targets[i]))
    && FiguresMean(r, e)
  }

  predicate FiguresMean(r: CostRequest, e: CostEstimate) {
    && e.totalEntryCost == e.base.entry.feeCost + e.base.entry.slippageCost
    && e.frictions == Charges(e.base)
    && e.costToRiskPct * e.base.grossLoss == 100.0 * e.frictions
    && (e.base.entry.slippageCost + e.base.invalidation.slippageCost) * 100.0
       <= r.settings.maxSlippageToRiskPct * e.base.grossLoss
    && e.warnings == if e.base.funding.bufferCost > 0.0 then [ThinFundingBuffer] else []
  }

  lemma ShareMeans(cost: real, risk: real, limit: real)
    requires risk > 0.0
    ensures Share(cost, risk) * risk == 100.0 * cost
    ensures Share(cost, risk) <= limit <==> cost * 100.0 <= limit * risk
  {
    var share := cost / risk;
    assert share * risk == cost;
    SameSign(share * 100.0, limit, risk);
    assert share * 100.0 * risk == cost * 100.0;
  }

  lemma SameSign(x: real, y: real, factor: real)
    requires factor > 0.0
    ensures x <= y <==> x * factor <= y * factor
  {
  }

  lemma GatedMeans(r: CostRequest, b: Base, targets: seq<TargetBreakdown>)
    requires b.grossLoss > 0.0
    ensures Gated(r, b, targets).Ok? <==> SlippageWithin(r, b)
    ensures Gated(r, b, targets).Err? ==> Gated(r, b, targets).error == CostError.SlippageExcessive
    ensures Gated(r, b, targets).Ok? ==>
              var e := Gated(r, b, targets).value;
              e.base == b && e.targets == targets && FiguresMean(r, e)
  {
    ShareMeans(b.entry.slippageCost + b.invalidation.slippageCost, b.grossLoss, r.settings.maxSlippageToRiskPct);
    ShareMeans(Frictions(b.entry, b.invalidation, b.funding.expectedCost, b.costBuffer), b.grossLoss, 0.0);
    hide Share;
  }

  lemma EstimateIsMeant(r: CostRequest)
    requires Walkable(r.book) && EstimateOf(r).Ok?
    ensures EstimateMeans(r, EstimateOf(r).value)
  {
    var e := EstimateOf(r).value;
    CostProperties.EstimateParts(r);
    BaseIsMeant(r);
    GatedMeans(r, e.base, e.targets);
    hide EstimateOf, BaseOf, TargetsUpTo, TargetAt, Gated, TargetMeans, PricedFromWalk, Charges, BaseMeans, FiguresMean;
    CostProperties.TargetsAreEach(r, e.base, |r.targetPrices|, 0);
    forall i | 0 <= i < |r.targetPrices|
      ensures |e.targets| == |r.targetPrices| && TargetMeans(r, e.base, i, e.targets[i])
    {
      CostProperties.TargetsAreEach(r, e.base, |r.targetPrices|, i);
      TargetIsMeant(r, e.base, i);
    }
  }

  // ---------------------------------------------------------------- when one is made

  predicate Sensible(r: CostRequest) {
    r.settings.engineEnabled && r.quantity > 0.0 && r.entryReference > 0.0 && r.invalidationPrice > 0.0
  }

  ghost predicate LegPriceable(r: CostRequest, leg: Leg, mode: ExecutionMode, reference: real) {
    Priceable(leg, mode, r.bullish, reference, r.quantity, r.book, r.settings)
  }

  /** Both legs of the loss can be priced, and the funding of its entry projected. */
  ghost predicate LossKnown(r: CostRequest) {
    && LegPriceable(r, Entry, r.assumptions.entry, r.entryReference)
    && LegPriceable(r, Invalidation, r.assumptions.invalidation, r.invalidationPrice)
    && exists entry ::
         && EstimateFor(r, Entry, r.assumptions.entry, r.entryReference) == Ok(entry)
         && FundingOf(r, entry.notional).Ok?
  }

  ghost predicate TargetsPriceable(r: CostRequest) {
    forall i | 0 <= i < |r.targetPrices| :: LegPriceable(r, Target, r.assumptions.target, r.targetPrices[i])
  }

  predicate SlippageWithin(r: CostRequest, b: Base) {
    (b.entry.slippageCost + b.invalidation.slippageCost) * 100.0 <= r.settings.maxSlippageToRiskPct * b.grossLoss
  }

  lemma LegExactlyWhen(r: CostRequest, leg: Leg, mode: ExecutionMode, reference: real)
    requires Walkable(r.book) && ValidCostSettings(r.settings)
    ensures EstimateFor(r, leg, mode, reference).Ok? <==> LegPriceable(r, leg, mode, reference)
  {
    hide EstimateLeg, Priceable;
    LegIsPricedExactlyWhen(leg, mode, r.bullish, reference, r.quantity, r.book, r.schedule, r.settings);
  }

  lemma BaseExactlyWhen(r: CostRequest)
    requires Walkable(r.book) && ValidCostSettings(r.settings)
    ensures BaseOf(r).Ok? <==> LossKnown(r)
  {
    hide EstimateFor, BaseOf, LegPriceable, FundingOf;
    BaseParts(r);
    LegExactlyWhen(r, Entry, r.assumptions.entry, r.entryReference);
    LegExactlyWhen(r, Invalidation, r.assumptions.invalidation, r.invalidationPrice);
  }

  lemma {:induction false} TargetsExactlyWhen(r: CostRequest, b: Base, n: nat)
    requires n <= |r.targetPrices|
    ensures TargetsUpTo(r, b, n).Ok? <==> forall i | 0 <= i < n :: TargetAt(r, b, i).Ok?
  {
    hide TargetAt;
    if n > 0 {
      TargetsExactlyWhen(r, b, n - 1);
    }
  }

  lemma AllTargetsExactlyWhen(r: CostRequest, b: Base)
    requires Walkable(r.book) && ValidCostSettings(r.settings)
    ensures TargetsUpTo(r, b, |r.targetPrices|).Ok? <==> TargetsPriceable(r)
  {
    TargetsExactlyWhen(r, b, |r.targetPrices|);
    hide TargetsUpTo, LegPriceable, EstimateFor;
    forall i | 0 <= i < |r.targetPrices|
      ensures TargetAt(r, b, i).Ok? <==> LegPriceable(r, Target, r.assumptions.target, r.targetPrices[i])
    {
      LegExactlyWhen(r, Target, r.assumptions.target, r.targetPrices[i]);
    }
  }

  /**
   * An estimate is made exactly for a sensible request with targets whose legs the book can price and whose funding
   * can be projected, with the invalidation on the adverse side and slippage within its share of the risk; five of
   * the refusals say which of these failed first.
   */
  lemma EstimatedExactlyWhen(r: CostRequest)
    requires Walkable(r.book) && ValidCostSettings(r.settings)
    ensures EstimateOf(r).Ok? <==>
              && Sensible(r) && r.targetPrices != [] && LossKnown(r)
              && Move(r.bullish, r.invalidationPrice, r.entryReference) > 0.0 && TargetsPriceable(r)
              && exists b :: BaseOf(r) == Ok(b) && SlippageWithin(r, b)
    ensures !Sensible(r) ==> EstimateOf(r) == Err(CostError.ConfigurationInvalid)
    ensures Sensible(r) && r.targetPrices == [] ==> EstimateOf(r) == Err(CostError.ReferenceTargetUnavailable)
    ensures Sensible(r) && r.targetPrices != [] && !LossKnown(r) ==>
              var entry := EstimateFor(r, Entry, r.assumptions.entry, r.entryReference);
              var invalidation := EstimateFor(r, Invalidation, r.assumptions.invalidation, r.invalidationPrice);
              EstimateOf(r) == Err(if entry.Err? then entry.error else if invalidation.Err? then invalidation.error
                                   else CostError.FundingModelUnavailable)
    ensures Sensible(r) && r.targetPrices != [] && LossKnown(r) ==>
              if Move(r.bullish, r.invalidationPrice, r.entryReference) <= 0.0 then
                EstimateOf(r) == Err(CostError.InvalidationWrongSide)
              else
                TargetsPriceable(r) && (exists b :: BaseOf(r) == Ok(b) && !SlippageWithin(r, b)) ==>
                  EstimateOf(r) == Err(CostError.SlippageExcessive)
  {
    SensibleQuantity(r);
    hide EstimateOf, BaseOf, TargetsUpTo, Gated, LossKnown, TargetsPriceable, BaseFiguresMean, TradesAs, FundingOf,
         Move, SlippageWithin, Sensible, FiguresMean, EstimateFor;
    BaseExactlyWhen(r);
    BaseParts(r);
    EstimateStages(r);
    if BaseOf(r).Ok? {
      var b := BaseOf(r).value;
      BaseIsMeant(r);
      if Sensible(r) {
        GrossLossSign(r, b);
      }
      AllTargetsExactlyWhen(r, b);
      if b.grossLoss > 0.0 && TargetsUpTo(r, b, |r.targetPrices|).Ok? {
        GatedMeans(r, b, TargetsUpTo(r, b, |r.targetPrices|).value);
      }
    }
  }

  lemma SensibleQuantity(r: CostRequest)
    ensures Sensible(r) ==> r.quantity > 0.0
  {
  }

  lemma EstimateStages(r: CostRequest)
    ensures !Sensible(r) ==> EstimateOf(r) == Err(CostError.ConfigurationInvalid)
    ensures Sensible(r) && r.targetPrices == [] ==> EstimateOf(r) == Err(CostError.ReferenceTargetUnavailable)
    ensures Sensible(r) && r.targetPrices != [] && BaseOf(r).Err? ==> EstimateOf(r) == Err(BaseOf(r).error)
    ensures Sensible(r) && r.targetPrices != [] && BaseOf(r).Ok? ==>
              var b := BaseOf(r).value;
              var targets := TargetsUpTo(r, b, |r.targetPrices|);
              if b.grossLoss <= 0.0 then EstimateOf(r) == Err(CostError.InvalidationWrongSide)
              else if targets.Err? then EstimateOf(r) == Err(targets.error)
              else EstimateOf(r) == Gated(r, b, targets.value)
  {
    hide BaseOf, TargetsUpTo, Gated;
  }

  lemma GrossLossSign(r: CostRequest, b: Base)
    requires BaseFiguresMean(r, b) && r.quantity > 0.0
    ensures b.grossLoss > 0.0 <==> Move(r.bullish, r.invalidationPrice, r.entryReference) > 0.0
  {
    hide Move, Charges;
    SameSign(Move(r.bullish, r.invalidationPrice, r.entryReference), 0.0, r.quantity);
  }

  // ---------------------------------------------------------------- the validation

  /** The gates on an estimate in their order: what closes each of them, and the code it gives. */
  function ValidationGates(e: CostEstimate, s: RiskSettings): seq<(bool, PlanRejection)> {
    [(e.base.grossLoss <= 0.0, PlanRejection.InvalidationWrongSide),
     (e.base.netLoss <= 0.0, EvaluationError),
     (e.base.grossLoss > 0.0 && e.base.funding.expectedCost * 100.0 > s.maxCostToRiskPct * e.base.grossLoss,
      FundingCostExcessive),
     (e.targets == [], PlanRejection.ReferenceTargetUnavailable),
     (e.targets != [] && e.targets[0].netPnl <= 0.0, NetTargetNonPositive),
     (e.targets != [] && (e.targets[0].netRr.None? || e.targets[0].netRr.value < s.minNetRr), NetRrBelowThreshold),
     (e.costToRiskPct > s.maxCostToRiskPct, CostToRiskExcessive)]
  }

  /** Validation gives the code of the first gate that is closed, and passes when all are open. */
  lemma ValidationIsFirstClosed(e: CostEstimate, s: RiskSettings)
    ensures IsFirstClosed(ValidationGates(e, s), ValidateCostEstimate(e, s))
  {
    var gates := ValidationGates(e, s);
    if e.base.grossLoss > 0.0 {
      ShareMeans(e.base.funding.expectedCost, e.base.grossLoss, s.maxCostToRiskPct);
    }
    hide Share;
    var code := ValidateCostEstimate(e, s);
    if code.Some? {
      var k := if gates[0].0 then 0 else if gates[1].0 then 1 else if gates[2].0 then 2 else if gates[3].0 then 3
               else if gates[4].0 then 4 else if gates[5].0 then 5 else 6;
      assert IsClosedAt(gates, k, code.value);
    }
  }
}
