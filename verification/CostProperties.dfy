/** What the cost estimate means: a cash result at the execution prices, and costs that never help. */
module CostProperties {
  import opened Arithmetic
  import opened Options
  import opened Depth
  import opened Vwap
  import opened WalkProperties
  import opened CostModel
  import opened Funding
  import opened RiskModel
  import opened CostEngine

  // ---------------------------------------------------------------- net economics are a cash result

  /** Cash left by opening at one price and closing at another, both really paid, with every charge deducted. */
  function CashResult(bullish: bool, quantity: real, openPrice: real, closePrice: real, charges: real): real {
    (if bullish then quantity * closePrice - quantity * openPrice
     else quantity * openPrice - quantity * closePrice) - charges
  }

  /** A leg as the cost engine uses it. */
  predicate SoundLeg(r: CostRequest, leg: Leg, mode: ExecutionMode, e: LegEstimate) {
    && AdverseLeg(leg, r.bullish, e)
    && e.slippageCost == Abs(e.executionPrice - e.referencePrice) * r.quantity
    && e.feeCost == RateFor(r.schedule, FeeKindFor(mode)) * e.executionPrice * r.quantity
    && e.notional == e.executionPrice * r.quantity
  }

  lemma EstimatedLegIsSound(r: CostRequest, leg: Leg, mode: ExecutionMode, referencePrice: real)
    requires ValidCostSettings(r.settings)
    ensures var e := EstimateFor(r, leg, mode, referencePrice);
            e.Ok? ==> r.quantity > 0.0 && SoundLeg(r, leg, mode, e.value) && e.value.referencePrice == referencePrice
  {
    hide EstimateLeg;
    LegIsAdverse(leg, mode, r.bullish, referencePrice, r.quantity, r.book, r.schedule, r.settings);
  }

  lemma PnlIsCashResult(r: CostRequest, index: nat, leg: LegEstimate, base: Base)
    requires SoundLeg(r, Entry, r.assumptions.entry, base.entry)
    requires SoundLeg(r, Target, r.assumptions.target, leg)
    ensures TargetEconomics(r.bullish, index, leg.referencePrice, leg, r.quantity, base).netPnl
            == CashResult(r.bullish, r.quantity, base.entry.executionPrice, leg.executionPrice,
                          base.entry.feeCost + leg.feeCost + base.funding.expectedCost + base.costBuffer)
  {
  }

  lemma {:induction false} TargetsAreEach(r: CostRequest, base: Base, n: nat, i: nat)
    requires i < n <= |r.targetPrices| && TargetsUpTo(r, base, n).Ok?
    ensures var targets := TargetsUpTo(r, base, n).value;
            |targets| == n && TargetAt(r, base, i) == Ok(targets[i])
  {
    hide TargetAt;
    if i < n - 1 {
      TargetsAreEach(r, base, n - 1, i);
    } else if n > 1 {
      TargetsAreEach(r, base, n - 1, 0);
    }
  }

  /** The parts a successful estimate is put together from. */
  lemma EstimateParts(r: CostRequest)
    requires EstimateOf(r).Ok?
    ensures var e := EstimateOf(r).value;
            && BaseOf(r) == Ok(e.base) && e.base.grossLoss > 0.0
            && r.targetPrices != [] && TargetsUpTo(r, e.base, |r.targetPrices|) == Ok(e.targets)
            && Gated(r, e.base, e.targets) == Ok(e)
  {
  }

  /**
   * Net numbers are what trading would leave in cash: the loss at invalidation and the result at each target
   * equal buying and selling at the stressed execution prices, plus fees, funding and buffer, in both directions.
   */
  lemma NetIsCashResult(r: CostRequest)
    requires ValidCostSettings(r.settings)
    ensures EstimateOf(r).Ok? ==>
              var e := EstimateOf(r).value;
              var b := e.base;
              && b.netLoss
                 == -CashResult(r.bullish, r.quantity, b.entry.executionPrice, b.invalidation.executionPrice,
                                b.entry.feeCost + b.invalidation.feeCost + b.funding.expectedCost + b.costBuffer)
              && |e.targets| == |r.targetPrices|
              && forall i | 0 <= i < |e.targets| ::
                   TargetIsCash(r, b, i, e.targets[i])
  {
    if EstimateOf(r).Ok? {
      hide EstimateOf, BaseOf, BaseFrom, TargetsUpTo, Gated, EstimateFor, TargetAt, CashResult, SoundLeg, TargetIsCash;
      EstimateParts(r);
      var e := EstimateOf(r).value;
      var b := e.base;
      BaseIsSound(r);
      BaseLossIsCash(r, b);
      TargetsAreEach(r, b, |r.targetPrices|, 0);
      forall i | 0 <= i < |r.targetPrices|
        ensures |e.targets| == |r.targetPrices| && TargetIsCash(r, b, i, e.targets[i])
      {
        TargetsAreEach(r, b, |r.targetPrices|, i);
        EachTargetIsCash(r, b, i);
      }
    }
  }

  lemma BaseLossIsCash(r: CostRequest, b: Base)
    requires b == BaseFrom(r, b.entry, b.invalidation, b.funding)
    requires SoundLeg(r, Entry, r.assumptions.entry, b.entry)
    requires SoundLeg(r, Invalidation, r.assumptions.invalidation, b.invalidation)
    ensures b.netLoss == -CashResult(r.bullish, r.quantity, b.entry.executionPrice, b.invalidation.executionPrice,
                                     b.entry.feeCost + b.invalidation.feeCost + b.funding.expectedCost + b.costBuffer)
  {
  }

  /** The leg estimated for target i closes the trade the target's net result describes. */
  ghost predicate TargetIsCash(r: CostRequest, b: Base, i: nat, t: TargetBreakdown)
    requires i < |r.targetPrices|
  {
    var leg := EstimateFor(r, Target, r.assumptions.target, r.targetPrices[i]);
    && leg.Ok? && t.targetPrice == r.targetPrices[i] && t.targetIndex == i
    && t.netPnl == CashResult(r.bullish, r.quantity, b.entry.executionPrice, leg.value.executionPrice,
                              b.entry.feeCost + leg.value.feeCost + b.funding.expectedCost + b.costBuffer)
  }

  lemma BaseIsSound(r: CostRequest)
    requires ValidCostSettings(r.settings) && BaseOf(r).Ok?
    ensures var b := BaseOf(r).value;
            && r.quantity > 0.0
            && SoundLeg(r, Entry, r.assumptions.entry, b.entry)
            && SoundLeg(r, Invalidation, r.assumptions.invalidation, b.invalidation)
            && b == BaseFrom(r, b.entry, b.invalidation, b.funding)
            && b.entry.referencePrice == r.entryReference && b.invalidation.referencePrice == r.invalidationPrice
  {
    hide EstimateFor, ProjectFunding, SoundLeg, BaseFrom;
    EstimatedLegIsSound(r, Entry, r.assumptions.entry, r.entryReference);
    EstimatedLegIsSound(r, Invalidation, r.assumptions.invalidation, r.invalidationPrice);
  }

  lemma EachTargetIsCash(r: CostRequest, b: Base, i: nat)
    requires ValidCostSettings(r.settings) && i < |r.targetPrices|
    requires SoundLeg(r, Entry, r.assumptions.entry, b.entry) && TargetAt(r, b, i).Ok?
    ensures TargetIsCash(r, b, i, TargetAt(r, b, i).value)
  {
    var leg := EstimateFor(r, Target, r.assumptions.target, r.targetPrices[i]).value;
    hide EstimateFor, SoundLeg, CashResult;
    EstimatedLegIsSound(r, Target, r.assumptions.target, r.targetPrices[i]);
    PnlIsCashResult(r, i, leg, b);
  }

  // ---------------------------------------------------------------- charges are never a gain

  predicate ValidSchedule(schedule: FeeSchedule) {
    schedule.makerFeeRate >= 0.0 && schedule.takerFeeRate >= 0.0
  }

  predicate ChargesNotNegative(b: Base) {
    && b.entry.feeCost >= 0.0 && b.entry.slippageCost >= 0.0
    && b.invalidation.feeCost >= 0.0 && b.invalidation.slippageCost >= 0.0
    && b.funding.expectedCost >= 0.0 && b.costBuffer >= 0.0
  }

  lemma LegChargesNotNegative(r: CostRequest, leg: Leg, mode: ExecutionMode, e: LegEstimate)
    requires ValidSchedule(r.schedule) && r.quantity > 0.0 && SoundLeg(r, leg, mode, e)
    ensures e.feeCost >= 0.0 && e.slippageCost >= 0.0 && e.notional >= 0.0
  {
  }

  lemma BaseChargesNotNegative(r: CostRequest)
    requires ValidCostSettings(r.settings) && ValidSchedule(r.schedule) && HoldMinutes(r) >= 0 && BaseOf(r).Ok?
    ensures ChargesNotNegative(BaseOf(r).value)
  {
    BaseIsSound(r);
    var b := BaseOf(r).value;
    FundingOfBase(r);
    hide EstimateFor, ProjectFunding, SoundLeg, Buffer, BaseOf;
    LegChargesNotNegative(r, Entry, r.assumptions.entry, b.entry);
    LegChargesNotNegative(r, Invalidation, r.assumptions.invalidation, b.invalidation);
    FundingIsMonotone(r.funding, r.funding, r.bullish, HoldMinutes(r), b.entry.notional, r.asOf, r.settings);
  }

  lemma FundingOfBase(r: CostRequest)
    requires BaseOf(r).Ok?
    ensures var b := BaseOf(r).value;
            ProjectFunding(r.funding, r.bullish, HoldMinutes(r), b.entry.notional, r.asOf, r.settings) == Ok(b.funding)
  {
  }

  lemma NetMinusGross(r: CostRequest, b: Base)
    requires b == BaseFrom(r, b.entry, b.invalidation, b.funding)
    ensures b.netLoss - b.grossLoss == Frictions(b.entry, b.invalidation, b.funding.expectedCost, b.costBuffer)
  {
  }

  /** The cost share reported is what the net loss adds to the gross one, in percent of the gross one. */
  lemma CostShareIsNetOverGross(r: CostRequest)
    requires ValidCostSettings(r.settings)
    ensures EstimateOf(r).Ok? ==>
              var e := EstimateOf(r).value;
              && e.base.grossLoss > 0.0
              && e.costToRiskPct == 100.0 * (e.base.netLoss - e.base.grossLoss) / e.base.grossLoss
  {
    hide EstimateOf, BaseOf, TargetsUpTo, BaseFrom, Frictions, SoundLeg, ValidCostSettings;
    if EstimateOf(r).Ok? {
      EstimateParts(r);
      BaseIsSound(r);
      NetMinusGross(r, EstimateOf(r).value.base);
    }
  }

  /** Costs only ever worsen the ratio of a target on the profitable side. */
  lemma NetRatioNeverAboveGross(r: CostRequest, i: nat)
    requires ValidCostSettings(r.settings) && ValidSchedule(r.schedule) && HoldMinutes(r) >= 0
    requires EstimateOf(r).Ok? && i < |EstimateOf(r).value.targets|
    ensures var t := EstimateOf(r).value.targets[i];
            && t.grossRr.Some? && t.netRr.Some? && t.netPnl <= t.grossPnl
            && (t.grossPnl >= 0.0 ==> t.netRr.value <= t.grossRr.value)
  {
    hide EstimateOf, BaseOf, TargetsUpTo, BaseFrom, EstimateFor, SoundLeg;
    EstimateParts(r);
    BaseIsSound(r);
    var e := EstimateOf(r).value;
    NetMinusGross(r, e.base);
    BaseChargesNotNegative(r);
    TargetsAreEach(r, e.base, |r.targetPrices|, 0);
    TargetsAreEach(r, e.base, |r.targetPrices|, i);
    EstimatedLegIsSound(r, Target, r.assumptions.target, r.targetPrices[i]);
    var leg := EstimateFor(r, Target, r.assumptions.target, r.targetPrices[i]).value;
    LegChargesNotNegative(r, Target, r.assumptions.target, leg);
    TargetRatios(r.bullish, i, r.targetPrices[i], leg, r.quantity, e.base);
  }

  lemma TargetRatios(bullish: bool, index: nat, targetPrice: real, leg: LegEstimate, quantity: real, b: Base)
    requires 0.0 < b.grossLoss <= b.netLoss && ChargesNotNegative(b) && leg.feeCost >= 0.0 && leg.slippageCost >= 0.0
    ensures var t := TargetEconomics(bullish, index, targetPrice, leg, quantity, b);
            && t.grossRr.Some? && t.netRr.Some? && t.netPnl <= t.grossPnl
            && (t.grossPnl >= 0.0 ==> t.netRr.value <= t.grossRr.value)
  {
  }

  // ---------------------------------------------------------------- costlier never rescues

  /** The same request under fees and funding that are nowhere milder. */
  predicate Costlier(r: CostRequest, costlier: CostRequest) {
    && costlier == r.(schedule := costlier.schedule, funding := costlier.funding)
    && ValidSchedule(r.schedule)
    && r.schedule.makerFeeRate <= costlier.schedule.makerFeeRate
    && r.schedule.takerFeeRate <= costlier.schedule.takerFeeRate
    && NowhereMilder(r.funding, costlier.funding, r.bullish)
    && ValidCostSettings(r.settings) && HoldMinutes(r) >= 0
  }

  predicate DearerFee(e: LegEstimate, dearer: LegEstimate) {
    dearer == e.(feeCost := dearer.feeCost) && 0.0 <= e.feeCost <= dearer.feeCost
  }

  lemma LegAtCompare(referencePrice: real, price: real, stress: real, schedule: FeeSchedule, dearer: FeeSchedule,
                     mode: ExecutionMode, quantity: real)
    requires ValidSchedule(schedule) && schedule.makerFeeRate <= dearer.makerFeeRate
    requires schedule.takerFeeRate <= dearer.takerFeeRate && price > 0.0 && quantity > 0.0
    ensures DearerFee(LegAt(referencePrice, price, stress, schedule, mode, quantity),
                      LegAt(referencePrice, price, stress, dearer, mode, quantity))
  {
  }

  lemma LegFeesCompare(r: CostRequest, costlier: CostRequest, leg: Leg, mode: ExecutionMode, referencePrice: real)
    requires Costlier(r, costlier)
    ensures var e, e' := EstimateFor(r, leg, mode, referencePrice), EstimateFor(costlier, leg, mode, referencePrice);
            if e.Ok? then e'.Ok? && DearerFee(e.value, e'.value) else e' == e
  {
    var price := LegPrice(leg, mode, r.bullish, referencePrice, r.quantity, r.book, r.settings);
    hide LegPrice, LegAt, NowhereMilder, DearerFee;
    if price.Ok? {
      LegAtCompare(referencePrice, price.value, StressBps(r.settings, leg, mode), r.schedule, costlier.schedule,
                   mode, r.quantity);
    }
  }

  /** The costlier base differs in fees and funding only, and those are larger. */
  predicate CostlierBase(b: Base, b': Base) {
    && DearerFee(b.entry, b'.entry) && DearerFee(b.invalidation, b'.invalidation)
    && b.funding.expectedCost <= b'.funding.expectedCost
    && b'.costBuffer == b.costBuffer && b'.grossLoss == b.grossLoss
    && b.netLoss <= b'.netLoss
  }

  lemma BasesCompare(r: CostRequest, costlier: CostRequest)
    requires Costlier(r, costlier)
    ensures var b, b' := BaseOf(r), BaseOf(costlier);
            if b.Ok? then b'.Ok? && CostlierBase(b.value, b'.value) else b'.Err?
  {
    hide EstimateFor, ProjectFunding, Buffer, NowhereMilder, SoundLeg, Gross;
    LegFeesCompare(r, costlier, Entry, r.assumptions.entry, r.entryReference);
    LegFeesCompare(r, costlier, Invalidation, r.assumptions.invalidation, r.invalidationPrice);
    var entry := EstimateFor(r, Entry, r.assumptions.entry, r.entryReference);
    EstimatedLegIsSound(r, Entry, r.assumptions.entry, r.entryReference);
    if entry.Ok? {
      LegChargesNotNegative(r, Entry, r.assumptions.entry, entry.value);
      FundingIsMonotone(r.funding, costlier.funding, r.bullish, HoldMinutes(r), entry.value.notional, r.asOf,
                        r.settings);
    }
  }

  lemma {:induction false} TargetsCompare(r: CostRequest, costlier: CostRequest, b: Base, b': Base, n: nat)
    requires Costlier(r, costlier) && CostlierBase(b, b') && n <= |r.targetPrices|
    ensures TargetsUpTo(r, b, n).Ok? <==> TargetsUpTo(costlier, b', n).Ok?
  {
    hide EstimateFor, CostlierBase, TargetEconomics;
    if n > 0 {
      TargetsCompare(r, costlier, b, b', n - 1);
      LegFeesCompare(r, costlier, Target, r.assumptions.target, r.targetPrices[n - 1]);
    }
  }

  lemma RatioGrows(net: real, netLoss: real, worse: real, worseLoss: real)
    requires 0.0 < netLoss <= worseLoss && 0.0 < worse <= net
    ensures net / netLoss >= worse / worseLoss
  {
  }

  /** The first target of the milder run against the costlier one. */
  predicate BetterTarget(t: TargetBreakdown, t': TargetBreakdown) {
    && t.netPnl >= t'.netPnl
    && (t'.netPnl > 0.0 && t'.netRr.Some? ==> t.netRr.Some? && t.netRr.value >= t'.netRr.value)
  }

  lemma TargetEconomicsCompare(bullish: bool, index: nat, targetPrice: real, leg: LegEstimate, leg': LegEstimate,
                               quantity: real, b: Base, b': Base)
    requires CostlierBase(b, b') && DearerFee(leg, leg') && 0.0 < b.netLoss
    ensures BetterTarget(TargetEconomics(bullish, index, targetPrice, leg, quantity, b),
                         TargetEconomics(bullish, index, targetPrice, leg', quantity, b'))
  {
    var t := TargetEconomics(bullish, index, targetPrice, leg, quantity, b);
    var t' := TargetEconomics(bullish, index, targetPrice, leg', quantity, b');
    if t'.netPnl > 0.0 {
      RatioGrows(t.netPnl, b.netLoss, t'.netPnl, b'.netLoss);
    }
  }

  lemma FirstTargetsCompare(r: CostRequest, costlier: CostRequest, b: Base, b': Base)
    requires Costlier(r, costlier) && CostlierBase(b, b') && 0.0 < b.netLoss && r.targetPrices != []
    requires TargetAt(r, b, 0).Ok? && TargetAt(costlier, b', 0).Ok?
    ensures BetterTarget(TargetAt(r, b, 0).value, TargetAt(costlier, b', 0).value)
  {
    hide EstimateFor, CostlierBase, DearerFee, BetterTarget, TargetEconomics;
    LegFeesCompare(r, costlier, Target, r.assumptions.target, r.targetPrices[0]);
    TargetEconomicsCompare(r.bullish, 0, r.targetPrices[0],
                           EstimateFor(r, Target, r.assumptions.target, r.targetPrices[0]).value,
                           EstimateFor(costlier, Target, r.assumptions.target, r.targetPrices[0]).value,
                           r.quantity, b, b');
  }

  lemma GatesCompare(r: CostRequest, costlier: CostRequest, b: Base, b': Base,
                     targets: seq<TargetBreakdown>, targets': seq<TargetBreakdown>)
    requires costlier.settings == r.settings && CostlierBase(b, b') && b.grossLoss > 0.0
    ensures var e, e' := Gated(r, b, targets), Gated(costlier, b', targets');
            && (e.Ok? <==> e'.Ok?)
            && (e.Ok? ==> e.value.base == b && e.value.targets == targets
                          && e'.value.base == b' && e'.value.targets == targets'
                          && e.value.costToRiskPct <= e'.value.costToRiskPct)
  {
  }

  lemma ValidationCompare(e: CostEstimate, e': CostEstimate, s: RiskSettings)
    requires CostlierBase(e.base, e'.base) && e.base.netLoss > 0.0 && e.costToRiskPct <= e'.costToRiskPct
    requires e.targets != [] && e'.targets != [] && BetterTarget(e.targets[0], e'.targets[0])
    requires ValidateCostEstimate(e', s).None?
    ensures ValidateCostEstimate(e, s).None?
  {
  }

  /**
   * Costlier never rescues: a plan that passes under some fees and funding passes under milder ones, and whether
   * an estimate can be made at all does not depend on how high they are.
   */
  lemma CostlierNeverRescues(r: CostRequest, costlier: CostRequest, s: RiskSettings)
    requires Costlier(r, costlier)
    ensures EstimateOf(r).Ok? <==> EstimateOf(costlier).Ok?
    ensures EstimateOf(costlier).Ok? && ValidateCostEstimate(EstimateOf(costlier).value, s).None?
            ==> ValidateCostEstimate(EstimateOf(r).value, s).None?
  {
    hide BaseOf, TargetsUpTo, Gated, TargetAt, ValidateCostEstimate, BetterTarget;
    BasesCompare(r, costlier);
    if BaseOf(r).Ok? {
      var b, b' := BaseOf(r).value, BaseOf(costlier).value;
      var n := |r.targetPrices|;
      TargetsCompare(r, costlier, b, b', n);
      if b.grossLoss > 0.0 && n > 0 && TargetsUpTo(r, b, n).Ok? {
        var targets, targets' := TargetsUpTo(r, b, n).value, TargetsUpTo(costlier, b', n).value;
        GatesCompare(r, costlier, b, b', targets, targets');
        TargetsAreEach(r, b, n, 0);
        TargetsAreEach(costlier, b', n, 0);
        LossesPositive(r, b);
        FirstTargetsCompare(r, costlier, b, b');
        if Gated(costlier, b', targets').Ok? && ValidateCostEstimate(Gated(costlier, b', targets').value, s).None? {
          ValidationCompare(Gated(r, b, targets).value, Gated(costlier, b', targets').value, s);
        }
      }
    }
  }

  lemma LossesPositive(r: CostRequest, b: Base)
    requires ValidCostSettings(r.settings) && ValidSchedule(r.schedule) && HoldMinutes(r) >= 0
    requires BaseOf(r) == Ok(b) && b.grossLoss > 0.0
    ensures b.netLoss >= b.grossLoss
  {
    hide BaseOf, BaseFrom, SoundLeg;
    BaseChargesNotNegative(r);
    BaseIsSound(r);
    NetMinusGross(r, b);
  }

  lemma PositiveMove(bullish: bool, price: real, entry: real, quantity: real)
    requires quantity > 0.0 && Gross(bullish, entry, price, quantity) > 0.0
    ensures if bullish then price > entry else price < entry
  {
  }

  lemma GrossOfTarget(r: CostRequest, b: Base, i: nat)
    requires i < |r.targetPrices| && TargetAt(r, b, i).Ok?
    ensures TargetAt(r, b, i).value.grossPnl
            == Gross(r.bullish, b.entry.referencePrice, r.targetPrices[i], r.quantity)
  {
    hide EstimateFor;
  }

  /** A first target that is still positive after all costs lies on the profitable side of the entry. */
  lemma PrimaryTargetIsProfitable(r: CostRequest)
    requires ValidCostSettings(r.settings) && ValidSchedule(r.schedule) && HoldMinutes(r) >= 0
    requires EstimateOf(r).Ok? && EstimateOf(r).value.targets != [] && EstimateOf(r).value.targets[0].netPnl > 0.0
    ensures r.targetPrices != []
    ensures if r.bullish then r.targetPrices[0] > r.entryReference else r.targetPrices[0] < r.entryReference
  {
    hide EstimateOf, BaseOf, BaseFrom, TargetsUpTo, TargetAt, SoundLeg, Gated, Gross;
    NetRatioNeverAboveGross(r, 0);
    EstimateParts(r);
    BaseIsSound(r);
    var b := EstimateOf(r).value.base;
    TargetsAreEach(r, b, |r.targetPrices|, 0);
    GrossOfTarget(r, b, 0);
    PositiveMove(r.bullish, r.targetPrices[0], b.entry.referencePrice, r.quantity);
  }

  // ---------------------------------------------------------------- larger is never better

  lemma {:induction false} SmallerIsFilledToo(book: OrderbookDepthSnapshot, leg: Leg, bullish: bool, small: real,
                                              large: real,
                                              s: CostSettings)
    requires book.isFresh && Walkable(book) && 0.0 < small <= large
    requires FullyFilled(Walked(book, SideFor(leg, bullish), large, s.orderbookMaxLevels, s.orderbookMaxDistanceBps))
    ensures FullyFilled(Walked(book, SideFor(leg, bullish), small, s.orderbookMaxLevels, s.orderbookMaxDistanceBps))
  {
    var which := SideFor(leg, bullish);
    assert SideLevels(book, which) != [];
    hide Walked, Eligible, TotalQuantity;
    FullyFilledExactlyWhen(book, which, large, s.orderbookMaxLevels, s.orderbookMaxDistanceBps);
    FullyFilledExactlyWhen(book, which, small, s.orderbookMaxLevels, s.orderbookMaxDistanceBps);
  }

  lemma PriceWorsens(reference: real, adverse: real, bps: real, more: real)
    requires reference > 0.0 && bps <= more
    ensures adverse == 1.0 ==> ExecutionPrice(reference, adverse, bps) <= ExecutionPrice(reference, adverse, more)
    ensures adverse == -1.0 ==> ExecutionPrice(reference, adverse, bps) >= ExecutionPrice(reference, adverse, more)
  {
    assert reference * (bps / BPS) <= reference * (more / BPS);
    assert adverse == 1.0 ==> ExecutionPrice(reference, adverse, bps) == reference + reference * (bps / BPS);
    assert adverse == -1.0 ==> ExecutionPrice(reference, adverse, bps) == reference - reference * (bps / BPS);
    assert adverse == 1.0 ==> ExecutionPrice(reference, adverse, more) == reference + reference * (more / BPS);
    assert adverse == -1.0 ==> ExecutionPrice(reference, adverse, more) == reference - reference * (more / BPS);
  }

  /**
   * On a walkable book a quantity that can be executed makes every smaller one executable, at a price that is no
   * worse, whatever the leg and the direction.
   */
  lemma LargerLegIsNoBetter(leg: Leg, mode: ExecutionMode, bullish: bool, referencePrice: real, small: real,
                            large: real,
                            book: OrderbookDepthSnapshot, s: CostSettings)
    requires ValidCostSettings(s) && book.isFresh && Walkable(book) && 0.0 < small <= large
    requires LegPrice(leg, mode, bullish, referencePrice, large, book, s).Ok?
    ensures var p := LegPrice(leg, mode, bullish, referencePrice, small, book, s);
            var q := LegPrice(leg, mode, bullish, referencePrice, large, book, s);
            && p.Ok?
            && if Buys(leg, bullish) then p.value <= q.value else p.value >= q.value
  {
    var which := SideFor(leg, bullish);
    SideFitsTrade(leg, bullish);
    SmallerIsFilledToo(book, leg, bullish, small, large, s);
    SlippageGrowsWithSize(book, which, small, large, s.orderbookMaxLevels, s.orderbookMaxDistanceBps);
    var few := Walked(book, which, small, s.orderbookMaxLevels, s.orderbookMaxDistanceBps);
    var many := Walked(book, which, large, s.orderbookMaxLevels, s.orderbookMaxDistanceBps);
    hide Walked, ExecutionPrice, AdverseDirection, Walkable;
    var depth := if few.slippageBps.Some? then few.slippageBps.value else 0.0;
    var more := if many.slippageBps.Some? then many.slippageBps.value else 0.0;
    PriceWorsens(referencePrice, AdverseDirection(leg, bullish), depth + StressBps(s, leg, mode),
                 more + StressBps(s, leg, mode));
    WorseByBps(referencePrice, AdverseDirection(leg, bullish), depth + StressBps(s, leg, mode));
  }
}
