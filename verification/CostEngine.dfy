/** One cost estimate per plan (app/costs/cost_engine.py, net_expectancy.py, app/risk/risk_validation.py). */
module CostEngine {
  import opened Options
  import opened Depth
  import opened CostModel
  import opened Funding
  import opened RiskModel

  datatype CostRequest = CostRequest(
    bullish: bool,
    entryReference: real,
    invalidationPrice: real,
    targetPrices: seq<real>,
    quantity: real,
    book: OrderbookDepthSnapshot,
    funding: FundingSnapshot,
    schedule: FeeSchedule,
    settings: CostSettings,
    asOf: int,
    holdMinutes: Option<int>,
    assumptions: ExecutionAssumptions)

  datatype TargetBreakdown = TargetBreakdown(
    targetPrice: real,
    targetIndex: nat,
    grossPnl: real,
    netPnl: real,
    grossRr: Option<real>,
    netRr: Option<real>,
    exitFee: real,
    exitSlippage: real)

  datatype Warning = ThinFundingBuffer | ApproximatedMargin

  /** What every target of a plan shares. */
  datatype Base = Base(
    entry: LegEstimate,
    invalidation: LegEstimate,
    funding: FundingProjection,
    costBuffer: real,
    grossLoss: real,
    netLoss: real)

  datatype CostEstimate = CostEstimate(
    base: Base,
    targets: seq<TargetBreakdown>,
    totalEntryCost: real,
    frictions: real,
    costToRiskPct: real,
    warnings: seq<Warning>)

  function Sign(bullish: bool): real {
    if bullish then 1.0 else -1.0
  }

  function HoldMinutes(r: CostRequest): int {
    if r.holdMinutes.Some? then r.holdMinutes.value else r.settings.referenceHoldMinutes
  }

  function EstimateFor(r: CostRequest, leg: Leg, mode: ExecutionMode, referencePrice: real): Result<LegEstimate,
                       CostError> {
    EstimateLeg(leg, mode, r.bullish, referencePrice, r.quantity, r.book, r.schedule, r.settings)
  }

  function Frictions(entry: LegEstimate, invalidation: LegEstimate, expectedFunding: real, costBuffer: real): real {
    entry.feeCost + invalidation.feeCost + entry.slippageCost + invalidation.slippageCost + expectedFunding + costBuffer
  }

  /** The technical move between two prices, in the direction of the plan. */
  function Gross(bullish: bool, from: real, to: real, quantity: real): real {
    Sign(bullish) * (to - from) * quantity
  }

  function InvalidationEconomics(bullish: bool, entry: LegEstimate, invalidation: LegEstimate, quantity: real,
                                 expectedFunding: real, costBuffer: real): (real, real) {
    var gross := Gross(bullish, invalidation.referencePrice, entry.referencePrice, quantity);
    (gross, gross + Frictions(entry, invalidation, expectedFunding, costBuffer))
  }

  function TargetEconomics(bullish: bool, index: nat, targetPrice: real, leg: LegEstimate, quantity: real, base: Base)
    : TargetBreakdown
  {
    var gross := Gross(bullish, base.entry.referencePrice, targetPrice, quantity);
    var net := gross - base.entry.feeCost - leg.feeCost - base.entry.slippageCost - leg.slippageCost
               - base.funding.expectedCost - base.costBuffer;
    TargetBreakdown(targetPrice, index, gross, net,
                    if base.grossLoss > 0.0 then Some(gross / base.grossLoss) else None,
                    if base.netLoss > 0.0 then Some(net / base.netLoss) else None,
                    leg.feeCost, leg.slippageCost)
  }

  function BaseFrom(r: CostRequest, entry: LegEstimate, invalidation: LegEstimate,
                    funding: FundingProjection): (b: Base)
    ensures b.entry == entry && b.invalidation == invalidation && b.funding == funding
  {
    var costBuffer := Buffer(entry.notional, r.settings.costBufferBps);
    var (gross, net) :=
      InvalidationEconomics(r.bullish, entry, invalidation, r.quantity, funding.expectedCost, costBuffer);
    Base(entry, invalidation, funding, costBuffer, gross, net)
  }

  function BaseOf(r: CostRequest): Result<Base, CostError> {
    match EstimateFor(r, Entry, r.assumptions.entry, r.entryReference)
    case Err(e) => Err(e)
    case Ok(entry) =>
      match EstimateFor(r, Invalidation, r.assumptions.invalidation, r.invalidationPrice)
      case Err(e) => Err(e)
      case Ok(invalidation) =>
        match ProjectFunding(r.funding, r.bullish, HoldMinutes(r), entry.notional, r.asOf, r.settings)
        case Err(e) => Err(e)
        case Ok(funding) => Ok(BaseFrom(r, entry, invalidation, funding))
  }

  function TargetAt(r: CostRequest, base: Base, i: nat): Result<TargetBreakdown, CostError>
    requires i < |r.targetPrices|
  {
    match EstimateFor(r, Target, r.assumptions.target, r.targetPrices[i])
    case Err(e) => Err(e)
    case Ok(leg) => Ok(TargetEconomics(r.bullish, i, r.targetPrices[i], leg, r.quantity, base))
  }

  function TargetsUpTo(r: CostRequest, base: Base, n: nat): Result<seq<TargetBreakdown>, CostError>
    requires n <= |r.targetPrices|
  {
    if n == 0 then Ok([])
    else
      match TargetsUpTo(r, base, n - 1)
      case Err(e) => Err(e)
      case Ok(targets) =>
        match TargetAt(r, base, n - 1)
        case Err(e) => Err(e)
        case Ok(t) => Ok(targets + [t])
  }

  function Share(cost: real, risk: real): real
    requires risk > 0.0
  {
    cost / risk * 100.0
  }

  function Gated(r: CostRequest, base: Base, targets: seq<TargetBreakdown>): Result<CostEstimate, CostError>
    requires base.grossLoss > 0.0
  {
    var frictions := Frictions(base.entry, base.invalidation, base.funding.expectedCost, base.costBuffer);
    var slippage := base.entry.slippageCost + base.invalidation.slippageCost;
    if Share(slippage, base.grossLoss) > r.settings.maxSlippageToRiskPct then
      Err(CostError.SlippageExcessive)
    else
      Ok(CostEstimate(base, targets, base.entry.feeCost + base.entry.slippageCost, frictions,
                      Share(frictions, base.grossLoss),
                      if base.funding.bufferCost > 0.0 then [ThinFundingBuffer] else []))
  }

  function EstimateOf(r: CostRequest): Result<CostEstimate, CostError> {
    if !r.settings.engineEnabled || r.quantity <= 0.0 || r.entryReference <= 0.0 || r.invalidationPrice <= 0.0 then
      Err(CostError.ConfigurationInvalid)
    else if r.targetPrices == [] then Err(CostError.ReferenceTargetUnavailable)
    else
      match BaseOf(r)
      case Err(e) => Err(e)
      case Ok(base) =>
        if base.grossLoss <= 0.0 then Err(CostError.InvalidationWrongSide)
        else
          match TargetsUpTo(r, base, |r.targetPrices|)
          case Err(e) => Err(e)
          case Ok(targets) => Gated(r, base, targets)
  }

  method EstimateCosts(r: CostRequest) returns (result: Result<CostEstimate, CostError>)
    ensures result == EstimateOf(r)
  {
    hide EstimateFor, Gated, TargetAt;
    if !r.settings.engineEnabled || r.quantity <= 0.0 || r.entryReference <= 0.0 || r.invalidationPrice <= 0.0 {
      return Err(CostError.ConfigurationInvalid);
    }
    if r.targetPrices == [] {
      return Err(CostError.ReferenceTargetUnavailable);
    }
    var entry := EstimateFor(r, Entry, r.assumptions.entry, r.entryReference);
    if entry.Err? {
      return Err(entry.error);
    }
    var invalidation := EstimateFor(r, Invalidation, r.assumptions.invalidation, r.invalidationPrice);
    if invalidation.Err? {
      return Err(invalidation.error);
    }
    var funding := ProjectFunding(r.funding, r.bullish, HoldMinutes(r), entry.value.notional, r.asOf, r.settings);
    if funding.Err? {
      return Err(funding.error);
    }
    var base := BaseFrom(r, entry.value, invalidation.value, funding.value);
    if base.grossLoss <= 0.0 {
      return Err(CostError.InvalidationWrongSide);
    }
    var targets: seq<TargetBreakdown> := [];
    for index := 0 to |r.targetPrices|
      invariant TargetsUpTo(r, base, index) == Ok(targets)
    {
      var target := TargetAt(r, base, index);
      if target.Err? {
        FirstErrorStays(r, base, index + 1, |r.targetPrices|);
        return Err(target.error);
      }
      targets := targets + [target.value];
    }
    return Gated(r, base, targets);
  }

  lemma {:induction false} FirstErrorStays(r: CostRequest, base: Base, n: nat, m: nat)
    requires n <= m <= |r.targetPrices| && TargetsUpTo(r, base, n).Err?
    ensures TargetsUpTo(r, base, m) == TargetsUpTo(r, base, n)
  {
    if n < m {
      FirstErrorStays(r, base, n, m - 1);
    }
  }

  /** validate_cost_estimate: the rejection raised, if any. */
  function ValidateCostEstimate(e: CostEstimate, s: RiskSettings): Option<PlanRejection> {
    if e.base.grossLoss <= 0.0 then Some(PlanRejection.InvalidationWrongSide)
    else if e.base.netLoss <= 0.0 then Some(EvaluationError)
    else if Share(e.base.funding.expectedCost, e.base.grossLoss) > s.maxCostToRiskPct then Some(FundingCostExcessive)
    else if e.targets == [] then Some(PlanRejection.ReferenceTargetUnavailable)
    else if e.targets[0].netPnl <= 0.0 then Some(NetTargetNonPositive)
    else if e.targets[0].netRr.None? || e.targets[0].netRr.value < s.minNetRr then Some(NetRrBelowThreshold)
    else if e.costToRiskPct > s.maxCostToRiskPct then Some(CostToRiskExcessive)
    else None
  }
}
