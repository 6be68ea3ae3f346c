/** What holds of every plan the risk engine returns, whatever the overrides say. */
module PlanSafety {
  import opened Options
  import opened RiskModel
  import opened RiskSettingsOverrides
  import opened TechnicalFrame
  import opened Targets
  import opened Sizing
  import opened Leverage
  import CostModel
  import opened CostEngine
  import CostProperties
  import opened RiskEngine
  import Depth
  import opened PlanMeaning

  /** Settings as validated at start-up, and a fee schedule without rebates. */
  predicate ValidInputs(c: Context, costs: CostModel.CostSettings) {
    CostModel.ValidCostSettings(costs) && (c.schedule.Some? ==> CostProperties.ValidSchedule(c.schedule.value))
  }

  /** Strictly between liquidation and the targets, in the order of the trade. */
  predicate PricesOrdered(bullish: bool, a: Assessment) {
    var reference, invalidation := a.frame.zone.reference, a.frame.invalidation;
    && a.frame.zone.low <= reference <= a.frame.zone.high
    && a.targets != [] && NearestFirst(bullish, a.targets)
    && if bullish then
         && a.leverage.margin.liquidation < invalidation < reference < a.targets[0].price
         && invalidation <= a.frame.zone.low
       else
         && a.leverage.margin.liquidation > invalidation > reference > a.targets[0].price
         && invalidation >= a.frame.zone.high
  }

  predicate EconomicsHold(s: RiskSettings, costs: CostEstimate) {
    && costs.targets != [] && costs.targets[0].netRr.Some? && costs.targets[0].netRr.value >= s.minNetRr
    && costs.targets[0].netPnl > 0.0
    && costs.costToRiskPct <= s.maxCostToRiskPct
  }

  ghost predicate Sound(c: Context, s: RiskSettings, a: Assessment) {
    && PricesOrdered(c.candidate.bullish, a)
    && EconomicsHold(s, a.costs)
    && 1.0 <= a.leverage.allowedMax <= 3.0
    && forall x: real | 1.0 <= x <= a.leverage.allowedMax ::
         Safe(c.instrument, ConditionsOf(c, a.frame, a.position), x, s)
  }

  lemma BufferKeepsLiquidationBeyond(i: Instrument, c: Conditions, s: RiskSettings, candidates: seq<real>,
                                     range: LeverageRange)
    requires Found(i, c, s, candidates, Ok(range))
    ensures if c.bullish then range.margin.liquidation < c.invalidation else range.margin.liquidation > c.invalidation
  {
  }

  lemma SizedEntryIsPositive(i: Instrument, entry: real, riskPerUnit: real, s: RiskSettings)
    ensures SizeReferencePosition(i, entry, riskPerUnit, s).Ok? ==> entry > 0.0
  {
  }

  lemma NearestAreInOrder(bullish: bool, candidates: seq<TechnicalLevel>, targets: seq<TechnicalLevel>)
    requires AreNearest(bullish, candidates, targets)
    ensures NearestFirst(bullish, targets)
  {
    var rest: seq<TechnicalLevel> :|
      multiset(targets + rest) == multiset(candidates) && NearestFirst(bullish, targets + rest);
    forall j, k | 0 <= j < k < |targets|
      ensures Nearer(bullish, targets[j], targets[k])
    {
      assert (targets + rest)[j] == targets[j] && (targets + rest)[k] == targets[k];
    }
  }

  lemma ValidatedEconomics(e: CostEstimate, s: RiskSettings)
    requires ValidateCostEstimate(e, s).None?
    ensures EconomicsHold(s, e)
  {
  }

  lemma LeveragePart(c: Context, s: RiskSettings, a: Assessment, tierCap: Option<int>)
    requires c.instrument.maxLeverage.Some? && s.maxReferenceLeverage <= 3.0 && a.frame.zone.reference > 0.0
    requires var conditions := ConditionsOf(c, a.frame, a.position);
             Found(c.instrument, conditions, s, Candidates(CapFor(c.instrument, conditions, tierCap, s)),
                   Ok(a.leverage))
    ensures 1.0 <= a.leverage.allowedMax <= 3.0
    ensures forall x: real | 1.0 <= x <= a.leverage.allowedMax ::
              Safe(c.instrument, ConditionsOf(c, a.frame, a.position), x, s)
    ensures if c.candidate.bullish then a.leverage.margin.liquidation < a.frame.invalidation
            else a.leverage.margin.liquidation > a.frame.invalidation
  {
    var conditions := ConditionsOf(c, a.frame, a.position);
    hide Found, Candidates, CapFor, Safe;
    RangeIsHonest(c.instrument, conditions, s, tierCap, Ok(a.leverage));
    BufferKeepsLiquidationBeyond(c.instrument, conditions, s, Candidates(CapFor(c.instrument, conditions, tierCap, s)),
                                 a.leverage);
  }

  lemma FirstTargetPart(c: Context, s: RiskSettings, costs: CostModel.CostSettings, a: Assessment)
    requires ValidInputs(c, costs) && c.schedule.Some? && a.targets != []
    requires EstimateOf(RequestOf(c, a.frame, a.targets, a.position, costs)) == Ok(a.costs)
    requires ValidateCostEstimate(a.costs, s).None?
    ensures if c.candidate.bullish then a.frame.zone.reference < a.targets[0].price
            else a.frame.zone.reference > a.targets[0].price
  {
    var request := RequestOf(c, a.frame, a.targets, a.position, costs);
    ValidatedEconomics(a.costs, s);
    hide EstimateOf, ValidateCostEstimate;
    CostProperties.PrimaryTargetIsProfitable(request);
  }

  /** Every assembled plan is sound, whatever the effective settings are outside the ones no override touches. */
  lemma AssembledIsSound(c: Context, s: RiskSettings, costs: CostModel.CostSettings, a: Assessment)
    requires ValidInputs(c, costs) && FixedSettingsValid(s) && s.maxReferenceLeverage <= 3.0
    requires Assembled(c, s, costs, a)
    ensures Sound(c, s, a)
  {
    var bullish, reference := c.candidate.bullish, a.frame.zone.reference;
    hide DeriveFrame, DerivedTargets, CandidatesFor, AreNearest, SizeReferencePosition, EstimateOf,
         ValidateCostEstimate, IsTierCap, Found, Candidates, CapFor, RequestOf, Safe, NearestFirst, ConditionsOf,
         EconomicsHold;
    FrameIsOrdered(c.instrument, MarketOf(c), s);
    SizedEntryIsPositive(c.instrument, reference, a.frame.distance.absolute, s);
    var tierCap :| IsTierCap(c.instrument.riskTiers, a.position.notional, tierCap)
                   && Found(c.instrument, ConditionsOf(c, a.frame, a.position), s,
                            Candidates(CapFor(c.instrument, ConditionsOf(c, a.frame, a.position), tierCap, s)),
                            Ok(a.leverage));
    LeveragePart(c, s, a, tierCap);
    DerivedAreNearest(c.levels, bullish, reference, s);
    FirstTargetPart(c, s, costs, a);
    NearestAreInOrder(bullish, CandidatesFor(c.levels, bullish, reference, s), a.targets);
    ValidatedEconomics(a.costs, s);
  }

  /**
   * evaluate_candidate: under any overrides, a plan is returned exactly when every gate and step of the effective
   * settings passes, and every plan returned is sound; otherwise the code says what stopped it.
   */
  method EvaluateCandidate(c: Context, risk: RiskSettings, overrides: Overrides, costs: CostModel.CostSettings,
                           score: (Assessment, RiskSettings) -> real)
    returns (r: Result<Plan, PlanRejection>, effective: RiskSettings)
    requires ValidRiskSettings(risk) && ValidInputs(c, costs)
    ensures AreEffective(effective, risk, overrides, c.candidate.symbol, c.candidate.assetClass)
    ensures effective.maxReferenceLeverage <= 3.0 && FixedSettingsValid(effective)
    ensures r.Ok? <==> exists a :: Accepted(c, effective, costs, score, a)
    ensures r.Ok? ==>
              Accepted(c, effective, costs, score, r.value.assessment) && Sound(c, effective, r.value.assessment)
    ensures r.Ok? ==>
              && r.value.score == score(r.value.assessment, effective)
              && r.value.warnings == WarningsOf(r.value.assessment)
    ensures r.Ok? && Depth.Walkable(c.book) ==> PlanHolds(c, effective, costs, r.value.assessment)
    ensures r.Err? ==>
              Stopped(c, effective, costs, score, r.error) && StopExplained(c, effective, costs, score, r.error)
  {
    hide Assembled, Sound, Gate, AreEffective, Stopped, PlanHolds, StopExplained, Depth.Walkable;
    effective := EffectiveRiskSettings(risk, overrides, c.candidate.symbol, c.candidate.assetClass);
    r := Evaluate(c, effective, costs, score);
    if r.Ok? {
      AssembledIsSound(c, effective, costs, r.value.assessment);
      if Depth.Walkable(c.book) {
        AssembledHolds(c, effective, costs, r.value.assessment);
      }
    } else {
      StopSaysWhy(c, effective, costs, score, r.error);
    }
  }
}
