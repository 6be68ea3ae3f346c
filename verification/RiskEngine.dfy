/** One candidate in, one plan or one rejection out (app/risk/risk_engine.py). */
module RiskEngine {
  import opened Options
  import opened Depth
  import opened RiskModel
  import opened TechnicalFrame
  import opened Targets
  import opened Sizing
  import opened Leverage
  import CostModel
  import Funding
  import opened CostEngine

  datatype CandidateState = Confirmed | Expired | Superseded | OtherState

  datatype Candidate = Candidate(
    bullish: bool,
    state: CandidateState,
    expiryAt: int,
    symbol: string,
    assetClass: string,
    referencedLevels: seq<Option<real>>,
    atrPercentile: Option<real>)

  datatype Context = Context(
    candidate: Candidate,
    instrument: Instrument,
    book: OrderbookDepthSnapshot,
    bestBid: Option<real>,
    bestAsk: Option<real>,
    bboFresh: bool,
    funding: Funding.FundingSnapshot,
    schedule: Option<CostModel.FeeSchedule>,
    assumptions: CostModel.ExecutionAssumptions,
    levels: seq<TechnicalLevel>,
    atr: Option<real>,
    sessionAllowed: bool,
    equityOvernightRisk: bool,
    watchlistActive: bool,
    botPaused: bool,
    asOf: int)

  /** Everything the eligibility score is computed from. */
  datatype Assessment = Assessment(
    frame: Frame,
    targets: seq<TechnicalLevel>,
    position: ReferencePosition,
    leverage: LeverageRange,
    costs: CostEstimate)

  datatype Plan = Plan(assessment: Assessment, score: real, warnings: seq<Warning>)

  /** The hard gates, in order: the first one that closes. */
  function Gate(c: Context, s: RiskSettings, costs: CostModel.CostSettings): Option<PlanRejection> {
    if c.botPaused then Some(BotPaused)
    else if !c.watchlistActive then Some(InstrumentInactive)
    else if !c.sessionAllowed then Some(SessionNotAllowed)
    else if c.candidate.state == Expired || c.candidate.expiryAt <= c.asOf then Some(CandidateExpired)
    else if c.candidate.state == Superseded then Some(CandidateSuperseded)
    else if s.requireConfirmedCandidate && c.candidate.state != Confirmed then Some(CandidateNotConfirmed)
    else if !c.instrument.active then Some(InstrumentInactive)
    else if !c.instrument.dataQualityOk then Some(DataQualityInsufficient)
    else if s.requireFreshOrderbook && !(c.instrument.orderbookFresh && c.book.isFresh) then
      Some(PlanRejection.OrderbookNotFresh)
    else if ReferencePrice(c.instrument).None? || c.instrument.minNotional.None? then Some(InstrumentRiskDataMissing)
    else if c.instrument.maxLeverage.None? || c.instrument.maxLeverage.value < 1 then Some(MaxLeverageUnavailable)
    else if c.schedule.None? || !c.schedule.value.active then Some(FeeScheduleUnavailable)
    else if c.candidate.assetClass == "EQUITY" && costs.equityOvernightBlocked && c.equityOvernightRisk then
      Some(EquityOvernightBlocked)
    else None
  }

  function MarketOf(c: Context): Market {
    Market(c.candidate.bullish, c.candidate.referencedLevels, c.bestBid, c.bestAsk, c.bboFresh, SpreadBps(c.book),
           c.atr)
  }

  function ConditionsOf(c: Context, frame: Frame, position: ReferencePosition): Conditions {
    Conditions(frame.zone.reference, frame.invalidation, position.notional, c.candidate.bullish, c.atr,
               c.candidate.atrPercentile, SpreadBps(c.book),
               c.funding.currentRate.None? || |c.funding.history| < 3)
  }

  function TargetPrices(targets: seq<TechnicalLevel>): seq<real> {
    seq(|targets|, i requires 0 <= i < |targets| => targets[i].price)
  }

  function RequestOf(c: Context, frame: Frame, targets: seq<TechnicalLevel>, position: ReferencePosition,
                     costs: CostModel.CostSettings): CostRequest
    requires c.schedule.Some?
  {
    CostRequest(c.candidate.bullish, frame.zone.reference, frame.invalidation, TargetPrices(targets), position.quantity,
                c.book, c.funding, c.schedule.value, costs, c.asOf, None, c.assumptions)
  }

  function MapCostError(e: CostModel.CostError): PlanRejection {
    match e
    case ConfigurationInvalid => PlanRejection.ConfigurationInvalid
    case ReferenceTargetUnavailable => PlanRejection.ReferenceTargetUnavailable
    case SlippageModelUnavailable => PlanRejection.SlippageModelUnavailable
    case OrderbookNotFresh => PlanRejection.OrderbookNotFresh
    case OrderbookDepthInsufficient => PlanRejection.OrderbookDepthInsufficient
    case FundingModelUnavailable => PlanRejection.FundingModelUnavailable
    case InvalidationWrongSide => PlanRejection.InvalidationWrongSide
    case SlippageExcessive => PlanRejection.SlippageExcessive
  }

  function WarningsOf(a: Assessment): seq<Warning> {
    a.costs.warnings + if a.leverage.margin.rates.approximated then [ApproximatedMargin] else []
  }

  /** The outcome of the leverage search for a frame and a size. */
  ghost predicate Searched(c: Context, s: RiskSettings, frame: Frame, position: ReferencePosition,
                           outcome: Result<LeverageRange, PlanRejection>)
    requires c.instrument.maxLeverage.Some?
  {
    exists tierCap ::
      && IsTierCap(c.instrument.riskTiers, position.notional, tierCap)
      && Found(c.instrument, ConditionsOf(c, frame, position), s,
               Candidates(CapFor(c.instrument, ConditionsOf(c, frame, position), tierCap, s)), outcome)
  }

  lemma SearchedIsUnique(c: Context, s: RiskSettings, frame: Frame, position: ReferencePosition,
                         r: Result<LeverageRange, PlanRejection>, q: Result<LeverageRange, PlanRejection>)
    requires c.instrument.maxLeverage.Some? && Searched(c, s, frame, position, r) && Searched(c, s, frame, position, q)
    ensures r == q
  {
    var conditions := ConditionsOf(c, frame, position);
    hide IsTierCap, Found, Candidates, CapFor, ConditionsOf;
    var a :| IsTierCap(c.instrument.riskTiers, position.notional, a)
             && Found(c.instrument, conditions, s, Candidates(CapFor(c.instrument, conditions, a, s)), r);
    var b :| IsTierCap(c.instrument.riskTiers, position.notional, b)
             && Found(c.instrument, conditions, s, Candidates(CapFor(c.instrument, conditions, b, s)), q);
    TierCapIsUnique(c.instrument.riskTiers, position.notional, a, b);
    FoundIsUnique(c.instrument, conditions, s, Candidates(CapFor(c.instrument, conditions, a, s)), r, q);
  }

  function TargetsOf(c: Context, s: RiskSettings, frame: Frame): Result<seq<TechnicalLevel>, PlanRejection> {
    DerivedTargets(c.levels, c.candidate.bullish, frame.zone.reference, s)
  }

  function PositionOf(c: Context, s: RiskSettings, frame: Frame): Result<ReferencePosition, PlanRejection> {
    SizeReferencePosition(c.instrument, frame.zone.reference, frame.distance.absolute, s)
  }

  /** Every part of a plan is what its own step gives, and passed that step's gate. */
  ghost predicate Assembled(c: Context, s: RiskSettings, costs: CostModel.CostSettings, a: Assessment) {
    && c.schedule.Some? && c.instrument.maxLeverage.Some?
    && DeriveFrame(c.instrument, MarketOf(c), s) == Ok(a.frame)
    && TargetsOf(c, s, a.frame) == Ok(a.targets)
    && PositionOf(c, s, a.frame) == Ok(a.position)
    && Searched(c, s, a.frame, a.position, Ok(a.leverage))
    && EstimateOf(RequestOf(c, a.frame, a.targets, a.position, costs)) == Ok(a.costs)
    && ValidateCostEstimate(a.costs, s).None?
  }

  /** All gates are open, every step succeeds, and the score reaches the threshold. */
  ghost predicate Accepted(c: Context, s: RiskSettings, costs: CostModel.CostSettings,
                           score: (Assessment, RiskSettings) -> real, a: Assessment)
  {
    Gate(c, s, costs).None? && Assembled(c, s, costs, a) && score(a, s) >= s.eligibilityMinScore
  }

  /** The code of the first gate or step that stops the evaluation. */
  ghost predicate Stopped(c: Context, s: RiskSettings, costs: CostModel.CostSettings,
                          score: (Assessment, RiskSettings) -> real, code: PlanRejection)
  {
    if Gate(c, s, costs).Some? then code == Gate(c, s, costs).value
    else
      match DeriveFrame(c.instrument, MarketOf(c), s)
      case Err(e) => code == e
      case Ok(frame) =>
        match TargetsOf(c, s, frame)
        case Err(e) => code == e
        case Ok(targets) =>
          match PositionOf(c, s, frame)
          case Err(e) => code == e
          case Ok(position) =>
            exists leverage ::
              && Searched(c, s, frame, position, leverage)
              && StoppedLater(c, s, costs, score, frame, targets, position, leverage, code)
  }

  ghost predicate StoppedLater(c: Context, s: RiskSettings, costs: CostModel.CostSettings,
                               score: (Assessment, RiskSettings) -> real, frame: Frame, targets: seq<TechnicalLevel>,
                               position: ReferencePosition, leverage: Result<LeverageRange, PlanRejection>,
                               code: PlanRejection)
    requires c.schedule.Some?
  {
    match leverage
    case Err(e) => code == e
    case Ok(range) =>
      match EstimateOf(RequestOf(c, frame, targets, position, costs))
      case Err(e) => code == MapCostError(e)
      case Ok(estimate) =>
        if ValidateCostEstimate(estimate, s).Some? then code == ValidateCostEstimate(estimate, s).value
        else
          && code == EligibilityScoreBelowThreshold
          && score(Assessment(frame, targets, position, range, estimate), s) < s.eligibilityMinScore
  }

  /** What is accepted is determined by the inputs, and never also stopped. */
  lemma AcceptedIsUnique(c: Context, s: RiskSettings, costs: CostModel.CostSettings,
                         score: (Assessment, RiskSettings) -> real, a: Assessment)
    requires Accepted(c, s, costs, score, a)
    ensures forall b | Accepted(c, s, costs, score, b) :: b == a
    ensures forall code :: !Stopped(c, s, costs, score, code)
  {
    hide Gate, DeriveFrame, TargetsOf, PositionOf, EstimateOf, ValidateCostEstimate, RequestOf, MarketOf, Searched;
    assert c.instrument.maxLeverage.Some?;
    forall b | Accepted(c, s, costs, score, b)
      ensures b == a
    {
      SearchedIsUnique(c, s, a.frame, a.position, Ok(a.leverage), Ok(b.leverage));
    }
    forall leverage | Searched(c, s, a.frame, a.position, leverage)
      ensures leverage == Ok(a.leverage)
    {
      SearchedIsUnique(c, s, a.frame, a.position, Ok(a.leverage), leverage);
    }
  }

  /** A plan is returned exactly when one is accepted, and then that one; else the code of what stopped it. */
  method Evaluate(c: Context, s: RiskSettings, costs: CostModel.CostSettings, score: (Assessment, RiskSettings) -> real)
    returns (r: Result<Plan, PlanRejection>)
    ensures r.Ok? <==> exists a :: Accepted(c, s, costs, score, a)
    ensures r.Ok? ==>
              && Accepted(c, s, costs, score, r.value.assessment)
              && r.value.score == score(r.value.assessment, s)
              && r.value.warnings == WarningsOf(r.value.assessment)
    ensures r.Err? ==> Stopped(c, s, costs, score, r.error)
  {
    r := Steps(c, s, costs, score);
    hide Stopped, Accepted;
    if a :| Accepted(c, s, costs, score, a) {
      AcceptedIsUnique(c, s, costs, score, a);
    }
  }

  method Steps(c: Context, s: RiskSettings, costs: CostModel.CostSettings, score: (Assessment, RiskSettings) -> real)
    returns (r: Result<Plan, PlanRejection>)
    ensures r.Ok? ==>
              && Accepted(c, s, costs, score, r.value.assessment)
              && r.value.score == score(r.value.assessment, s)
              && r.value.warnings == WarningsOf(r.value.assessment)
    ensures r.Err? ==> Stopped(c, s, costs, score, r.error)
  {
    hide DeriveFrame, DerivedTargets, CandidatesFor, AreNearest, SizeReferencePosition, EstimateOf,
         ValidateCostEstimate, IsTierCap, Found, Candidates, CapFor, RequestOf, MarketOf;
    var gate := Gate(c, s, costs);
    if gate.Some? {
      return Err(gate.value);
    }
    var bullish := c.candidate.bullish;
    var frame := DeriveFrame(c.instrument, MarketOf(c), s);
    if frame.Err? {
      return Err(frame.error);
    }
    var reference := frame.value.zone.reference;
    var targets := DeriveTargets(c.levels, bullish, reference, s);
    if targets.Err? {
      return Err(targets.error);
    }
    var position := SizeReferencePosition(c.instrument, reference, frame.value.distance.absolute, s);
    if position.Err? {
      return Err(position.error);
    }
    var leverage, tierCap := DetermineLeverage(c.instrument, ConditionsOf(c, frame.value, position.value), s);
    assert Searched(c, s, frame.value, position.value, leverage);
    if leverage.Err? {
      return Err(leverage.error);
    }
    var estimate := EstimateCosts(RequestOf(c, frame.value, targets.value, position.value, costs));
    if estimate.Err? {
      return Err(MapCostError(estimate.error));
    }
    var rejected := ValidateCostEstimate(estimate.value, s);
    if rejected.Some? {
      return Err(rejected.value);
    }
    var a := Assessment(frame.value, targets.value, position.value, leverage.value, estimate.value);
    var points := score(a, s);
    if points < s.eligibilityMinScore {
      return Err(EligibilityScoreBelowThreshold);
    }
    r := Ok(Plan(a, points, WarningsOf(a)));
  }
}
