/** A plan in terms of the market it was made for: every step sees the context, and every stop says why. */
module PlanMeaning {
  import opened Options
  import opened Depth
  import opened RiskModel
  import opened TechnicalFrame
  import opened Targets
  import opened Sizing
  import opened LiquidationSafety
  import opened Leverage
  import opened CostEngine
  import CostModel
  import Funding
  import opened CostMeaning
  import opened FrameMeaning
  import opened RiskEngine

  // ---------------------------------------------------------------- the hard gates

  /** The hard gates in their order: what closes each of them, and the code it gives. */
  function HardGates(c: Context, s: RiskSettings, costs: CostModel.CostSettings): seq<(bool, PlanRejection)> {
    var k, i := c.candidate, c.instrument;
    [(c.botPaused, BotPaused),
     (!c.watchlistActive, InstrumentInactive),
     (!c.sessionAllowed, SessionNotAllowed),
     (k.state == Expired || k.expiryAt <= c.asOf, CandidateExpired),
     (k.state == Superseded, CandidateSuperseded),
     (s.requireConfirmedCandidate && k.state != Confirmed, CandidateNotConfirmed),
     (!i.active, InstrumentInactive),
     (!i.dataQualityOk, DataQualityInsufficient),
     (s.requireFreshOrderbook && (!i.orderbookFresh || !c.book.isFresh), PlanRejection.OrderbookNotFresh),
     (i.markPrice.None? && i.midPrice.None?, InstrumentRiskDataMissing),
     (i.minNotional.None?, InstrumentRiskDataMissing),
     (i.maxLeverage.None? || i.maxLeverage.value < 1, MaxLeverageUnavailable),
     (c.schedule.None? || !c.schedule.value.active, FeeScheduleUnavailable),
     (k.assetClass == "EQUITY" && costs.equityOvernightBlocked && c.equityOvernightRisk, EquityOvernightBlocked)]
  }

  lemma GateIsFirstClosed(c: Context, s: RiskSettings, costs: CostModel.CostSettings)
    ensures IsFirstClosed(HardGates(c, s, costs), Gate(c, s, costs))
  {
    var gates := HardGates(c, s, costs);
    var code := Gate(c, s, costs);
    if code.Some? {
      var k := if gates[0].0 then 0 else if gates[1].0 then 1 else if gates[2].0 then 2 else if gates[3].0 then 3
               else if gates[4].0 then 4 else if gates[5].0 then 5 else if gates[6].0 then 6 else if gates[7].0 then 7
               else if gates[8].0 then 8 else if gates[9].0 then 9 else if gates[10].0 then 10
               else if gates[11].0 then 11 else if gates[12].0 then 12 else 13;
      assert IsClosedAt(gates, k, code.value);
    }
  }

  /** An error of the cost engine becomes the rejection of the same name. */
  lemma CostErrorsKeepTheirName()
    ensures MapCostError(CostModel.ConfigurationInvalid) == PlanRejection.ConfigurationInvalid
    ensures MapCostError(CostModel.ReferenceTargetUnavailable) == PlanRejection.ReferenceTargetUnavailable
    ensures MapCostError(CostModel.SlippageModelUnavailable) == PlanRejection.SlippageModelUnavailable
    ensures MapCostError(CostModel.OrderbookNotFresh) == PlanRejection.OrderbookNotFresh
    ensures MapCostError(CostModel.OrderbookDepthInsufficient) == PlanRejection.OrderbookDepthInsufficient
    ensures MapCostError(CostModel.FundingModelUnavailable) == PlanRejection.FundingModelUnavailable
    ensures MapCostError(CostModel.InvalidationWrongSide) == PlanRejection.InvalidationWrongSide
    ensures MapCostError(CostModel.SlippageExcessive) == PlanRejection.SlippageExcessive
  {
  }

  // ---------------------------------------------------------------- what the steps see

  /** The spread of the best quotes in basis points of their middle. */
  predicate SpreadIs(book: OrderbookDepthSnapshot, spread: Option<real>) {
    if book.bids == [] || book.asks == [] || book.bids[0].price <= 0.0 then spread.None?
    else
      var bid, ask := book.bids[0].price, book.asks[0].price;
      if bid + ask == 0.0 then spread.None?
      else spread.Some? && spread.value * (bid + ask) == 20000.0 * (ask - bid)
  }

  lemma SpreadMeans(book: OrderbookDepthSnapshot)
    ensures SpreadIs(book, SpreadBps(book))
  {
    if SpreadBps(book).Some? {
      var bid, ask := book.bids[0].price, book.asks[0].price;
      var middle := (bid + ask) / 2.0;
      assert (ask - bid) / middle * middle == ask - bid;
      assert SpreadBps(book).value * middle == 10000.0 * ((ask - bid) / middle * middle);
    }
  }

  function MarketSeen(c: Context, spread: Option<real>): Market {
    Market(bullish := c.candidate.bullish, referencedLevels := c.candidate.referencedLevels, bestBid := c.bestBid,
           bestAsk := c.bestAsk, bboFresh := c.bboFresh, spreadBps := spread, atr := c.atr)
  }

  function ConditionsSeen(c: Context, spread: Option<real>, frame: Frame, position: ReferencePosition): Conditions {
    Conditions(entry := frame.zone.reference, invalidation := frame.invalidation, notional := position.notional,
               bullish := c.candidate.bullish, atr := c.atr, atrPercentile := c.candidate.atrPercentile,
               spreadBps := spread, fundingThin := c.funding.currentRate == None || |c.funding.history| <= 2)
  }

  function RequestMade(c: Context, schedule: CostModel.FeeSchedule, frame: Frame, targets: seq<TechnicalLevel>,
                       position: ReferencePosition, costs: CostModel.CostSettings): CostRequest {
    CostRequest(bullish := c.candidate.bullish, entryReference := frame.zone.reference,
                invalidationPrice := frame.invalidation,
                targetPrices := seq(|targets|, i requires 0 <= i < |targets| => targets[i].price),
                quantity := position.quantity, book := c.book, funding := c.funding, schedule := schedule,
                settings := costs, asOf := c.asOf, holdMinutes := None, assumptions := c.assumptions)
  }

  lemma StepsSeeTheContext(c: Context, frame: Frame, targets: seq<TechnicalLevel>, position: ReferencePosition,
                           costs: CostModel.CostSettings)
    ensures exists spread ::
              && SpreadIs(c.book, spread) && MarketOf(c) == MarketSeen(c, spread)
              && ConditionsOf(c, frame, position) == ConditionsSeen(c, spread, frame, position)
    ensures c.schedule.Some? ==>
              RequestOf(c, frame, targets, position, costs)
              == RequestMade(c, c.schedule.value, frame, targets, position, costs)
  {
    SpreadMeans(c.book);
    assert MarketOf(c) == MarketSeen(c, SpreadBps(c.book));
    assert ConditionsOf(c, frame, position) == ConditionsSeen(c, SpreadBps(c.book), frame, position);
    if c.schedule.Some? {
      assert TargetPrices(targets) == seq(|targets|, i requires 0 <= i < |targets| => targets[i].price);
    }
  }

  // ---------------------------------------------------------------- what a plan holds

  /** Every part of an accepted plan, from the context alone. */
  ghost predicate PlanHolds(c: Context, s: RiskSettings, costs: CostModel.CostSettings, a: Assessment) {
    var bullish, reference := c.candidate.bullish, a.frame.zone.reference;
    && c.schedule.Some?
    && (exists spread ::
          && SpreadIs(c.book, spread)
          && IsFirstClosed(FrameGates(c.instrument, MarketSeen(c, spread), s), None)
          && FrameMeans(c.instrument, MarketSeen(c, spread), s, a.frame))
    && (exists rest :: FirstOfAll(a.targets, rest, c.levels, bullish, reference, s))
    && LargestAffordable(a.position.quantity, c.instrument.quantityDecimals, reference, a.frame.distance.absolute, s)
    && a.position.notional == a.position.quantity * reference
    && a.position.effectiveCashRisk == a.position.quantity * a.frame.distance.absolute
    && (forall x: real | 1.0 <= x <= a.leverage.allowedMax ::
          SafeAt(c.instrument, reference, a.frame.invalidation, x, bullish, c.atr, s))
    && a.leverage.allowedMin == 1.0 && a.leverage.recommended == a.leverage.allowedMax
    && EstimateMeans(RequestMade(c, c.schedule.value, a.frame, a.targets, a.position, costs), a.costs)
    && IsFirstClosed(ValidationGates(a.costs, s), None)
  }

  lemma FrameOfPlan(c: Context, s: RiskSettings, frame: Frame)
    requires DeriveFrame(c.instrument, MarketOf(c), s) == Ok(frame)
    ensures exists spread ::
              && SpreadIs(c.book, spread)
              && IsFirstClosed(FrameGates(c.instrument, MarketSeen(c, spread), s), None)
              && FrameMeans(c.instrument, MarketSeen(c, spread), s, frame)
  {
    SpreadMeans(c.book);
    hide DeriveFrame, FrameGates, IsFirstClosed, FrameMeans, SpreadIs, SpreadBps;
    FrameIsFirstClosed(c.instrument, MarketOf(c), s);
    assert MarketOf(c) == MarketSeen(c, SpreadBps(c.book));
  }

  lemma SizeOfPlan(c: Context, s: RiskSettings, frame: Frame, position: ReferencePosition)
    requires RiskEngine.PositionOf(c, s, frame) == Ok(position)
    ensures LargestAffordable(position.quantity, c.instrument.quantityDecimals, frame.zone.reference,
                              frame.distance.absolute, s)
    ensures position.notional == position.quantity * frame.zone.reference
    ensures position.effectiveCashRisk == position.quantity * frame.distance.absolute
    ensures frame.zone.reference > 0.0
  {
    SizingIsExact(c.instrument, frame.zone.reference, frame.distance.absolute, s);
    hide SizeReferencePosition, LargestAffordable;
  }

  lemma LeverageOfPlan(c: Context, s: RiskSettings, frame: Frame, position: ReferencePosition, range: LeverageRange)
    requires c.instrument.maxLeverage.Some? && s.maxReferenceLeverage <= 3.0 && frame.zone.reference > 0.0
    requires Searched(c, s, frame, position, Ok(range))
    ensures forall x: real | 1.0 <= x <= range.allowedMax ::
              SafeAt(c.instrument, frame.zone.reference, frame.invalidation, x, c.candidate.bullish, c.atr, s)
    ensures range.allowedMin == 1.0 && range.recommended == range.allowedMax
  {
    var conditions := ConditionsOf(c, frame, position);
    hide SafeAt, Candidates, CapFor, IsTierCap;
    var tierCap :| IsTierCap(c.instrument.riskTiers, position.notional, tierCap)
                   && Found(c.instrument, conditions, s, Candidates(CapFor(c.instrument, conditions, tierCap, s)),
                            Ok(range));
    hide Found;
    RangeIsHonest(c.instrument, conditions, s, tierCap, Ok(range));
    FoundRange(c.instrument, conditions, s, Candidates(CapFor(c.instrument, conditions, tierCap, s)), range);
    forall x: real | 1.0 <= x <= range.allowedMax
      ensures SafeAt(c.instrument, frame.zone.reference, frame.invalidation, x, c.candidate.bullish, c.atr, s)
    {
      assert Safe(c.instrument, conditions, x, s);
    }
  }

  lemma FoundRange(i: Instrument, c: Conditions, s: RiskSettings, candidates: seq<real>, range: LeverageRange)
    requires Found(i, c, s, candidates, Ok(range))
    ensures range.allowedMin == 1.0 && range.recommended == range.allowedMax
  {
  }

  /** Every plan the engine assembles is that, on a book that can be walked. */
  lemma AssembledHolds(c: Context, s: RiskSettings, costs: CostModel.CostSettings, a: Assessment)
    requires Walkable(c.book) && s.maxReferenceLeverage <= 3.0 && Assembled(c, s, costs, a)
    ensures PlanHolds(c, s, costs, a)
  {
    hide DeriveFrame, DerivedTargets, SizeReferencePosition, Searched, EstimateOf, ValidateCostEstimate, FrameGates,
         FrameMeans, IsFirstClosed, FirstOfAll, LargestAffordable, SafeAt, EstimateMeans, ValidationGates, SpreadIs,
         MarketOf, MarketSeen, RequestOf, RequestMade, Walkable;
    FrameOfPlan(c, s, a.frame);
    SizeOfPlan(c, s, a.frame, a.position);
    LeverageOfPlan(c, s, a.frame, a.position, a.leverage);
    TargetsMean(c.levels, c.candidate.bullish, a.frame.zone.reference, s);
    CostsOfPlan(c, costs, a);
    ValidationIsFirstClosed(a.costs, s);
  }

  lemma CostsOfPlan(c: Context, costs: CostModel.CostSettings, a: Assessment)
    requires Walkable(c.book) && c.schedule.Some?
    requires EstimateOf(RequestOf(c, a.frame, a.targets, a.position, costs)) == Ok(a.costs)
    ensures EstimateMeans(RequestMade(c, c.schedule.value, a.frame, a.targets, a.position, costs), a.costs)
  {
    hide EstimateOf, EstimateMeans, SpreadIs, MarketOf, ConditionsOf;
    StepsSeeTheContext(c, a.frame, a.targets, a.position, costs);
    EstimateIsMeant(RequestOf(c, a.frame, a.targets, a.position, costs));
  }

  /** A plan carries a warning for thin funding data and one for approximated margin rates. */
  lemma WarningsMean(c: Context, s: RiskSettings, costs: CostModel.CostSettings, a: Assessment)
    requires Walkable(c.book) && s.maxReferenceLeverage <= 3.0 && Assembled(c, s, costs, a)
    ensures ThinFundingBuffer in WarningsOf(a) <==> a.costs.base.funding.bufferCost > 0.0
    ensures ApproximatedMargin in WarningsOf(a) <==> a.leverage.margin.rates.approximated
  {
    hide Assembled, PlanHolds, EstimateMeans, Walkable;
    AssembledHolds(c, s, costs, a);
    EstimateOfPlan(c, s, costs, a);
    WarningsOfEstimate(RequestMade(c, c.schedule.value, a.frame, a.targets, a.position, costs), a.costs);
  }

  lemma EstimateOfPlan(c: Context, s: RiskSettings, costs: CostModel.CostSettings, a: Assessment)
    requires PlanHolds(c, s, costs, a)
    ensures c.schedule.Some?
    ensures EstimateMeans(RequestMade(c, c.schedule.value, a.frame, a.targets, a.position, costs), a.costs)
  {
    hide EstimateMeans, FirstOfAll, LargestAffordable, SafeAt, IsFirstClosed, FrameMeans, SpreadIs;
  }

  lemma WarningsOfEstimate(r: CostRequest, e: CostEstimate)
    requires EstimateMeans(r, e)
    ensures ThinFundingBuffer in e.warnings <==> e.base.funding.bufferCost > 0.0
    ensures ApproximatedMargin !in e.warnings
  {
    hide BaseMeans, TargetMeans;
  }

  // ---------------------------------------------------------------- what a stop says

  /** The frame stands: all hard gates and all gates on the frame are open. */
  ghost predicate FrameStands(c: Context, s: RiskSettings, costs: CostModel.CostSettings, frame: Frame) {
    && IsFirstClosed(HardGates(c, s, costs), None)
    && exists spread ::
         && SpreadIs(c.book, spread)
         && IsFirstClosed(FrameGates(c.instrument, MarketSeen(c, spread), s), None)
         && FrameMeans(c.instrument, MarketSeen(c, spread), s, frame)
  }

  /** The stage at which an evaluation stopped, and the first thing that was wrong there. */
  ghost predicate StopExplained(c: Context, s: RiskSettings, costs: CostModel.CostSettings,
                                score: (Assessment, RiskSettings) -> real, code: PlanRejection) {
    || IsFirstClosed(HardGates(c, s, costs), Some(code))
    || (&& IsFirstClosed(HardGates(c, s, costs), None)
        && exists spread ::
             SpreadIs(c.book, spread) && IsFirstClosed(FrameGates(c.instrument, MarketSeen(c, spread), s), Some(code)))
    || exists frame :: FrameStands(c, s, costs, frame) && StoppedAfterFrame(c, s, costs, score, frame, code)
  }

  ghost predicate StoppedAfterFrame(c: Context, s: RiskSettings, costs: CostModel.CostSettings,
                                    score: (Assessment, RiskSettings) -> real, frame: Frame, code: PlanRejection) {
    var reference, bullish := frame.zone.reference, c.candidate.bullish;
    var known := exists l :: l in c.levels && Known(l, s);
    var offerable := exists l :: l in c.levels && Offerable(l, bullish, reference, s);
    if reference <= 0.0 || !known then code == PlanRejection.ReferenceTargetUnavailable
    else if !offerable then code == TargetWrongSide
    else
      || IsFirstClosed(SizeGates(c.instrument, reference, frame.distance.absolute, s), Some(code))
      || (&& IsFirstClosed(SizeGates(c.instrument, reference, frame.distance.absolute, s), None)
          && (|| IsFirstClosed(MarginGates(c.instrument, s) + [(true, LiquidationBufferInsufficient)], Some(code))
              || exists request: CostRequest, a: Assessment ::
                   StoppedByCosts(c, s, costs, score, frame, request, a, code)))
  }

  /** With frame, targets and size as they are, the costs could not be estimated, did not pass, or the score was low. */
  ghost predicate StoppedByCosts(c: Context, s: RiskSettings, costs: CostModel.CostSettings,
                                 score: (Assessment, RiskSettings) -> real, frame: Frame, request: CostRequest,
                                 a: Assessment, code: PlanRejection) {
    && c.schedule.Some? && a.frame == frame
    && request == RequestMade(c, c.schedule.value, frame, a.targets, a.position, costs)
    && match EstimateOf(request)
       case Err(e) => code == MapCostError(e)
       case Ok(estimate) =>
         && estimate == a.costs
         && (|| IsFirstClosed(ValidationGates(estimate, s), Some(code))
             || (&& IsFirstClosed(ValidationGates(estimate, s), None)
                 && code == EligibilityScoreBelowThreshold && score(a, s) < s.eligibilityMinScore))
  }

  lemma StoppedLaterExplained(c: Context, s: RiskSettings, costs: CostModel.CostSettings,
                              score: (Assessment, RiskSettings) -> real, frame: Frame, targets: seq<TechnicalLevel>,
                              position: ReferencePosition, range: LeverageRange, code: PlanRejection)
    requires c.schedule.Some?
    requires StoppedLater(c, s, costs, score, frame, targets, position, Ok(range), code)
    ensures exists request: CostRequest, a: Assessment :: StoppedByCosts(c, s, costs, score, frame, request, a, code)
  {
    hide EstimateOf, ValidateCostEstimate, MapCostError, ValidationGates, IsFirstClosed, SpreadIs, MarketOf,
         ConditionsOf;
    StepsSeeTheContext(c, frame, targets, position, costs);
    var request := RequestOf(c, frame, targets, position, costs);
    if EstimateOf(request).Ok? {
      var a := Assessment(frame, targets, position, range, EstimateOf(request).value);
      ValidationIsFirstClosed(a.costs, s);
      assert StoppedByCosts(c, s, costs, score, frame, request, a, code);
    } else {
      var a := Assessment(frame, targets, position, range, CostEstimate(SOME_BASE, [], 0.0, 0.0, 0.0, []));
      assert StoppedByCosts(c, s, costs, score, frame, request, a, code);
    }
  }

  const SOME_LEG := CostModel.LegEstimate(0.0, 0.0, 0.0, 0.0, 0.0, 0.0)
  const SOME_BASE := Base(SOME_LEG, SOME_LEG, Funding.FundingProjection(false, 0, 0.0, 0.0, 0.0), 0.0, 0.0, 0.0)

  lemma AfterFrameExplained(c: Context, s: RiskSettings, costs: CostModel.CostSettings,
                            score: (Assessment, RiskSettings) -> real, frame: Frame, code: PlanRejection)
    requires Gate(c, s, costs).None? && c.schedule.Some? && c.instrument.maxLeverage.Some?
    requires DeriveFrame(c.instrument, MarketOf(c), s) == Ok(frame) && Stopped(c, s, costs, score, code)
    ensures StoppedAfterFrame(c, s, costs, score, frame, code)
  {
    hide Gate, DeriveFrame, DerivedTargets, SizeReferencePosition, Searched, StoppedLater, IsFirstClosed, SizeGates,
         MarginGates, StoppedByCosts, Known, Offerable, MarketOf, FirstOfAll;
    TargetsMean(c.levels, c.candidate.bullish, frame.zone.reference, s);
    SizeIsFirstClosed(c.instrument, frame.zone.reference, frame.distance.absolute, s);
    var targets := TargetsOf(c, s, frame);
    var position := RiskEngine.PositionOf(c, s, frame);
    if targets.Ok? && position.Ok? {
      var leverage :|
        && Searched(c, s, frame, position.value, leverage)
        && StoppedLater(c, s, costs, score, frame, targets.value, position.value, leverage, code);
      if leverage.Ok? {
        StoppedLaterExplained(c, s, costs, score, frame, targets.value, position.value, leverage.value, code);
      } else {
        SearchExplained(c, s, costs, score, frame, targets.value, position.value, leverage.error, code);
      }
    }
  }

  lemma SearchExplained(c: Context, s: RiskSettings, costs: CostModel.CostSettings,
                        score: (Assessment, RiskSettings) -> real, frame: Frame, targets: seq<TechnicalLevel>,
                        position: ReferencePosition, error: PlanRejection, code: PlanRejection)
    requires c.schedule.Some? && c.instrument.maxLeverage.Some? && Searched(c, s, frame, position, Err(error))
    requires StoppedLater(c, s, costs, score, frame, targets, position, Err(error), code)
    ensures IsFirstClosed(MarginGates(c.instrument, s) + [(true, LiquidationBufferInsufficient)], Some(code))
  {
    var conditions := ConditionsOf(c, frame, position);
    hide Found, Candidates, CapFor, IsTierCap, IsFirstClosed, MarginGates, ConditionsOf;
    var tierCap :| IsTierCap(c.instrument.riskTiers, position.notional, tierCap)
                   && Found(c.instrument, conditions, s, Candidates(CapFor(c.instrument, conditions, tierCap, s)),
                            Err(error));
    SearchRefusalIsFirstClosed(c.instrument, conditions, s, Candidates(CapFor(c.instrument, conditions, tierCap, s)),
                               code);
  }

  /** Every stop has its explanation. */
  lemma StopSaysWhy(c: Context, s: RiskSettings, costs: CostModel.CostSettings,
                    score: (Assessment, RiskSettings) -> real, code: PlanRejection)
    requires Stopped(c, s, costs, score, code)
    ensures StopExplained(c, s, costs, score, code)
  {
    GateIsFirstClosed(c, s, costs);
    SpreadMeans(c.book);
    FrameIsFirstClosed(c.instrument, MarketOf(c), s);
    assert MarketOf(c) == MarketSeen(c, SpreadBps(c.book));
    assert Gate(c, s, costs).None? ==> c.schedule.Some? && c.instrument.maxLeverage.Some?;
    hide Gate, DeriveFrame, IsFirstClosed, HardGates, FrameGates, FrameMeans, SpreadIs, MarketOf, MarketSeen, SpreadBps,
         StoppedAfterFrame;
    if Gate(c, s, costs).None? && DeriveFrame(c.instrument, MarketOf(c), s).Ok? {
      var frame := DeriveFrame(c.instrument, MarketOf(c), s).value;
      AfterFrameExplained(c, s, costs, score, frame, code);
      assert FrameStands(c, s, costs, frame);
    }
  }
}
