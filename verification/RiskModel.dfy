/** Risk engine values and settings (app/risk/models.py, app/risk/enums.py, app/config.py). */
module RiskModel {
  import opened Options

  datatype PlanRejection =
    | CandidateNotConfirmed
    | CandidateExpired
    | CandidateSuperseded
    | BotPaused
    | SessionNotAllowed
    | InstrumentRiskDataMissing
    | InstrumentInactive
    | DataQualityInsufficient
    | OrderbookNotFresh
    | OrderbookDepthInsufficient
    | ReferenceEntryUnavailable
    | InvalidationUnavailable
    | InvalidationWrongSide
    | InvalidationTooClose
    | InvalidationTooFar
    | ReferenceTargetUnavailable
    | TargetWrongSide
    | MinNotionalViolation
    | ReferenceQuantityInvalid
    | MaxLeverageUnavailable
    | MarginModelUnavailable
    | MaintenanceMarginUnavailable
    | LiquidationBufferInsufficient
    | FeeScheduleUnavailable
    | SlippageModelUnavailable
    | SlippageExcessive
    | FundingModelUnavailable
    | FundingCostExcessive
    | EquityOvernightBlocked
    | NetTargetNonPositive
    | NetRrBelowThreshold
    | CostToRiskExcessive
    | EligibilityScoreBelowThreshold
    | ConfigurationInvalid
    | EvaluationError

  /** Gate k is closed with this code, and all gates before it are open. */
  predicate IsClosedAt(gates: seq<(bool, PlanRejection)>, k: nat, code: PlanRejection) {
    k < |gates| && gates[k] == (true, code) && forall j | 0 <= j < k :: !gates[j].0
  }

  /** The code of the first closed gate, or none when all are open. */
  ghost predicate IsFirstClosed(gates: seq<(bool, PlanRejection)>, code: Option<PlanRejection>) {
    match code
    case None => forall j | 0 <= j < |gates| :: !gates[j].0
    case Some(c) => exists k: nat :: IsClosedAt(gates, k, c)
  }

  datatype SettingKey =
    | MinNetRr
    | MaxCostToRiskPct
    | MinDistanceBps
    | MaxDistanceBps
    | ReferenceRiskPerPlanPct
    | MaxReferenceLeverage
    | EligibilityMinScore
    | OtherSetting(name: string)

  datatype RiskSettings = RiskSettings(
    requireConfirmedCandidate: bool,
    requireFreshOrderbook: bool,
    eligibilityMinScore: real,
    virtualAccount: real,
    riskPerPlanPct: real,
    minDistanceBps: real,
    maxDistanceBps: real,
    minDistanceAtr: real,
    maxDistanceAtr: real,
    invalidationBufferBps: real,
    invalidationBufferAtr: real,
    targetMinRelevance: real,
    maxEntryChaseBps: real,
    maxReferenceNotional: real,
    maxReferenceLeverage: real,
    minNetRr: real,
    maxCostToRiskPct: real,
    requireInstrumentMarginData: bool,
    allowApproximatedMargin: bool,
    approxInitialMarginRate: real,
    approxMaintenanceMarginRate: real,
    minLiquidationBufferBps: real,
    minLiquidationBufferAtr: real,
    marginStressBufferBps: real,
    isolatedMarginOnly: bool)

  /** What the settings validators let through; overrides are applied without them. */
  predicate ValidRiskSettings(s: RiskSettings) {
    && 1.0 <= s.maxReferenceLeverage <= 3.0
    && 0.0 < s.riskPerPlanPct <= 5.0 && s.virtualAccount > 0.0 && s.maxReferenceNotional > 0.0
    && 0.0 < s.maxCostToRiskPct <= 100.0 && s.minNetRr >= 1.0
    && s.minDistanceBps >= 0.0 && s.maxDistanceBps >= 0.0 && s.minDistanceAtr >= 0.0 && s.maxDistanceAtr >= 0.0
    && FixedSettingsValid(s)
  }

  /** The part of it no override can touch. */
  predicate FixedSettingsValid(s: RiskSettings) {
    && s.virtualAccount > 0.0 && s.maxReferenceNotional > 0.0
    && s.minDistanceAtr >= 0.0 && s.maxDistanceAtr >= 0.0
    && s.invalidationBufferBps >= 0.0 && s.invalidationBufferAtr >= 0.0
    && s.minLiquidationBufferBps >= 0.0 && s.minLiquidationBufferAtr >= 0.0
    && s.marginStressBufferBps >= 0.0 && s.maxEntryChaseBps >= 0.0
    && 0.0 < s.approxInitialMarginRate < 1.0 && 0.0 < s.approxMaintenanceMarginRate < 1.0
  }

  /** A risk tier as listed, or one whose numbers cannot be read. */
  datatype RiskTier = RiskTier(lowerBound: real, maxLeverage: int) | Malformed

  datatype Instrument = Instrument(
    active: bool,
    markPrice: Option<real>,
    midPrice: Option<real>,
    maxLeverage: Option<int>,
    minNotional: Option<real>,
    tickSize: Option<real>,
    priceDecimals: int,
    quantityDecimals: int,
    riskTiers: seq<RiskTier>,
    maintenanceMarginRate: Option<real>,
    initialMarginRate: Option<real>,
    dataQualityOk: bool,
    orderbookFresh: bool)

  function ReferencePrice(i: Instrument): Option<real> {
    if i.markPrice.Some? then i.markPrice else i.midPrice
  }
}
