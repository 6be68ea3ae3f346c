/** Cost engine values, fees and one leg's execution estimate (app/costs models, fee_resolver, slippage). */
module CostModel {
  import opened Arithmetic
  import opened Options
  import opened OrderBookState
  import opened Depth
  import opened Vwap

  datatype ExecutionMode = EntryTaker | EntryMaker | TargetTaker | TargetMaker | StopTaker | StopStressTaker

  datatype FeeKind = Maker | Taker

  datatype FeeSchedule = FeeSchedule(makerFeeRate: real, takerFeeRate: real, active: bool)

  datatype ExecutionAssumptions =
    ExecutionAssumptions(entry: ExecutionMode, target: ExecutionMode, invalidation: ExecutionMode)

  datatype CostSettings = CostSettings(
    engineEnabled: bool,
    slippageEnabled: bool,
    requireFreshOrderbook: bool,
    orderbookMaxLevels: nat,
    orderbookMaxDistanceBps: real,
    entryStressBps: real,
    targetStressBps: real,
    invalidationStressBps: real,
    maxSlippageToRiskPct: real,
    fundingEnabled: bool,
    requireFundingData: bool,
    fundingLookbackHours: int,
    fundingPercentile: real,
    referenceHoldMinutes: int,
    fundingBufferBps: real,
    defaultFundingIntervalHours: real,
    costBufferBps: real,
    equityOvernightBlocked: bool)

  /** What the settings validators let through. */
  predicate ValidCostSettings(s: CostSettings) {
    && s.orderbookMaxLevels > 0 && s.orderbookMaxDistanceBps >= 0.0
    && s.entryStressBps >= 0.0 && s.targetStressBps >= 0.0 && s.invalidationStressBps >= 0.0
    && s.maxSlippageToRiskPct >= 0.0
    && s.fundingLookbackHours > 0 && 50.0 <= s.fundingPercentile <= 100.0 && s.referenceHoldMinutes > 0
    && s.fundingBufferBps >= 0.0 && s.defaultFundingIntervalHours >= 0.0 && s.costBufferBps >= 0.0
  }

  datatype CostError =
    | ConfigurationInvalid
    | ReferenceTargetUnavailable
    | SlippageModelUnavailable
    | OrderbookNotFresh
    | OrderbookDepthInsufficient
    | FundingModelUnavailable
    | InvalidationWrongSide
    | SlippageExcessive

  datatype Leg = Entry | Target | Invalidation

  datatype LegEstimate = LegEstimate(
    referencePrice: real,
    executionPrice: real,
    stressBps: real,
    slippageCost: real,
    feeCost: real,
    notional: real)

  function FeeKindFor(mode: ExecutionMode): FeeKind {
    if mode == EntryMaker || mode == TargetMaker then Maker else Taker
  }

  function RateFor(schedule: FeeSchedule, kind: FeeKind): real {
    if kind == Maker then schedule.makerFeeRate else schedule.takerFeeRate
  }

  function FeeCost(schedule: FeeSchedule, mode: ExecutionMode, executionPrice: real, quantity: real): real {
    if executionPrice <= 0.0 || quantity <= 0.0 then 0.0
    else RateFor(schedule, FeeKindFor(mode)) * executionPrice * quantity
  }

  function StressBps(s: CostSettings, leg: Leg, mode: ExecutionMode): real {
    match leg
    case Entry => s.entryStressBps
    case Target => s.targetStressBps
    case Invalidation =>
      if mode == StopStressTaker then s.invalidationStressBps else Min(s.invalidationStressBps, s.entryStressBps)
  }

  /** A leg buys when it opens a long or closes a short; buying consumes asks. */
  function SideFor(leg: Leg, bullish: bool): Side {
    var entering := leg == Entry;
    if (if bullish then entering else !entering) then Ask else Bid
  }

  function AdverseDirection(leg: Leg, bullish: bool): real {
    if (leg == Entry) == bullish then 1.0 else -1.0
  }

  /** The price a leg executes at: the depth penalty of the walk and the stress buffer, against the plan. */
  function LegPrice(leg: Leg, mode: ExecutionMode, bullish: bool, referencePrice: real, quantity: real,
                    book: OrderbookDepthSnapshot, s: CostSettings): (price: Result<real, CostError>)
    ensures price.Ok? ==> price.value > 0.0 && quantity > 0.0
  {
    if !s.slippageEnabled || referencePrice <= 0.0 || quantity <= 0.0 then Err(SlippageModelUnavailable)
    else if s.requireFreshOrderbook && !book.isFresh then Err(OrderbookNotFresh)
    else
      var vwap := Walked(book, SideFor(leg, bullish), quantity, s.orderbookMaxLevels, s.orderbookMaxDistanceBps);
      if !FullyFilled(vwap) then Err(OrderbookDepthInsufficient)
      else
        var depth := if vwap.slippageBps.Some? then vwap.slippageBps.value else 0.0;
        var price := ExecutionPrice(referencePrice, AdverseDirection(leg, bullish), depth + StressBps(s, leg, mode));
        if price <= 0.0 then Err(SlippageModelUnavailable) else Ok(price)
  }

  function EstimateLeg(leg: Leg, mode: ExecutionMode, bullish: bool, referencePrice: real, quantity: real,
                       book: OrderbookDepthSnapshot, schedule: FeeSchedule, s: CostSettings)
    : Result<LegEstimate, CostError>
  {
    match LegPrice(leg, mode, bullish, referencePrice, quantity, book, s)
    case Err(e) => Err(e)
    case Ok(price) => Ok(LegAt(referencePrice, price, StressBps(s, leg, mode), schedule, mode, quantity))
  }

  function LegAt(referencePrice: real, executionPrice: real, stress: real, schedule: FeeSchedule,
                 mode: ExecutionMode, quantity: real): LegEstimate {
    LegEstimate(referencePrice, executionPrice, stress,
                Abs(executionPrice - referencePrice) * quantity,
                FeeCost(schedule, mode, executionPrice, quantity),
                executionPrice * quantity)
  }

  function ExecutionPrice(referencePrice: real, adverse: real, bps: real): real {
    referencePrice * (1.0 + adverse * bps / BPS)
  }

  /** Opening a long and closing a short buys; the other legs sell. */
  predicate Buys(leg: Leg, bullish: bool) {
    match leg
    case Entry => bullish
    case Target => !bullish
    case Invalidation => !bullish
  }

  /** A buying leg consumes asks and fears higher prices, a selling leg consumes bids and fears lower ones. */
  lemma SideFitsTrade(leg: Leg, bullish: bool)
    ensures SideFor(leg, bullish) == if Buys(leg, bullish) then Ask else Bid
    ensures AdverseDirection(leg, bullish) == if Buys(leg, bullish) then 1.0 else -1.0
  {
  }

  /** A real leg: no execution estimate is ever an improvement, whichever way the leg trades. */
  predicate AdverseLeg(leg: Leg, bullish: bool, e: LegEstimate) {
    && e.referencePrice > 0.0 && e.executionPrice > 0.0
    && if Buys(leg, bullish) then e.executionPrice >= e.referencePrice else e.executionPrice <= e.referencePrice
  }

  lemma WorseByBps(reference: real, adverse: real, bps: real)
    requires reference > 0.0 && bps >= 0.0
    ensures adverse == 1.0 ==> ExecutionPrice(reference, adverse, bps) >= reference
    ensures adverse == -1.0 ==> ExecutionPrice(reference, adverse, bps) <= reference
  {
  }

  lemma SlippageNotNegative(book: OrderbookDepthSnapshot, which: Side, quantity: real, maxLevels: nat,
                            maxDistanceBps: real)
    ensures var v := Walked(book, which, quantity, maxLevels, maxDistanceBps);
            v.slippageBps.Some? ==> v.slippageBps.value >= 0.0
  {
  }

  /** Every estimate executes at a positive price on the adverse side of its reference. */
  lemma LegIsAdverse(leg: Leg, mode: ExecutionMode, bullish: bool, referencePrice: real, quantity: real,
                     book: OrderbookDepthSnapshot, schedule: FeeSchedule, s: CostSettings)
    requires ValidCostSettings(s)
    ensures var r := EstimateLeg(leg, mode, bullish, referencePrice, quantity, book, schedule, s);
            r.Ok? ==>
              && quantity > 0.0 && AdverseLeg(leg, bullish, r.value)
              && r.value == LegAt(referencePrice, r.value.executionPrice, StressBps(s, leg, mode), schedule, mode,
                                  quantity)
  {
    hide Walked, ExecutionPrice, FeeCost;
    SlippageNotNegative(book, SideFor(leg, bullish), quantity, s.orderbookMaxLevels, s.orderbookMaxDistanceBps);
    var vwap := Walked(book, SideFor(leg, bullish), quantity, s.orderbookMaxLevels, s.orderbookMaxDistanceBps);
    if referencePrice > 0.0 {
      WorseByBps(referencePrice, AdverseDirection(leg, bullish),
                 (if vwap.slippageBps.Some? then vwap.slippageBps.value else 0.0) + StressBps(s, leg, mode));
    }
  }
}
