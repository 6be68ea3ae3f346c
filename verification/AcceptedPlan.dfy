/** An accepted plan, worked out step by step: a quiet market, and one of the shipped settings changed. */
module AcceptedPlan {
  import opened Options
  import opened OrderBook
  import opened OrderBookState
  import opened Depth
  import opened Vwap
  import opened RiskModel
  import opened Rounding
  import opened TechnicalFrame
  import opened Targets
  import opened Sizing
  import opened MarginModel
  import opened Leverage
  import opened CostEngine
  import CostModel
  import Funding
  import opened RiskEngine
  import opened PlanFeasibility

  const CANDIDATE := Candidate(true, Confirmed, 10, "BTC-PERP", "CRYPTO", [Some(1000.0)], None)
  const INSTRUMENT :=
    Instrument(true, Some(1000.0), None, Some(10), Some(10.0), Some(0.5), 2, 1, [], Some(0.05), Some(0.2), true, true)
  const BOOK := OrderbookDepthSnapshot([Level(999.5, 100.0)], [Level(1000.0, 100.0)], true, Some(0))
  const FUNDING := Funding.FundingSnapshot(Some(0.0), [], None, 1.0, true)
  const TARGET_LEVEL := TechnicalLevel(1060.0, 0.8)

  /** An ordinary market: a half-point tick on 1000, a tight and deep book, no funding history. */
  const QUIET_MARKET :=
    Context(CANDIDATE, INSTRUMENT, BOOK, Some(999.5), Some(1000.0), true, FUNDING, Some(SHIPPED_FEES),
            SHIPPED_EXECUTION, [TARGET_LEVEL], Some(13.0), true, false, true, false, 0)

  const SHIPPED := WithLeverageCap(3.0)
  const WIDER_BUFFER := SHIPPED.(invalidationBufferAtr := 1.5)

  const WIDE_FRAME := Frame(EntryZone(1000.0, 1000.0, 1000.0), 980.0, RiskDistance(20.0, 200.0, Some(20.0 / 13.0)))
  const SIZED := ReferencePosition(50.0, 20.0, 2.5, 2500.0, 50.0)

  lemma OpensTheGates()
    ensures Gate(QUIET_MARKET, WIDER_BUFFER, SHIPPED_COSTS).None?
  {
  }

  lemma SpreadIsTight()
    ensures SpreadBps(BOOK).Some? && SpreadBps(BOOK).value <= 10.0
  {
  }

  lemma HasTheZone()
    ensures DeriveEntryZone(INSTRUMENT, MarketOf(QUIET_MARKET), WIDER_BUFFER) == Ok(WIDE_FRAME.zone)
  {
    ZoneIsOnePrice();
    SpreadIsTight();
    hide ZoneAround, SpreadBps;
    var m := MarketOf(QUIET_MARKET);
    assert Anchor(m) == Some(1000.0) && m.bullish && m.bestAsk == Some(1000.0);
    assert WIDER_BUFFER.maxEntryChaseBps == 20.0;
  }

  lemma ZoneIsOnePrice()
    ensures ZoneAround(1000.0, 1000.0, true, 0.5) == WIDE_FRAME.zone
  {
    assert RoundTo(1000.0, 0.5, Up) == 1000.0 == RoundTo(1000.0, 0.5, Down);
    hide RoundTo;
  }

  lemma HasTheInvalidation()
    ensures DeriveInvalidation(INSTRUMENT, MarketOf(QUIET_MARKET), 1000.0, WIDER_BUFFER) == Ok(980.0)
  {
    assert RoundTo(980.0, 0.5, Down) == 980.0;
    assert TechnicalFrame.Buffer(1000.0, 13.0, WIDER_BUFFER) == 20.0;
    hide RoundTo, TechnicalFrame.Buffer, SpreadBps;
  }

  lemma HasTheFrame()
    ensures DeriveFrame(INSTRUMENT, MarketOf(QUIET_MARKET), WIDER_BUFFER) == Ok(WIDE_FRAME)
  {
    HasTheZone();
    HasTheInvalidation();
    hide DeriveEntryZone, DeriveInvalidation, SpreadBps;
    assert ComputeRiskDistance(1000.0, 980.0, Some(13.0)) == WIDE_FRAME.distance;
    assert ValidateRiskDistance(WIDE_FRAME.distance, WIDER_BUFFER).None?;
  }

  lemma HasTheTarget()
    ensures TargetsOf(QUIET_MARKET, WIDER_BUFFER, WIDE_FRAME) == Ok([TARGET_LEVEL])
  {
    var levels := [TARGET_LEVEL];
    assert Relevant(levels, WIDER_BUFFER) == [TARGET_LEVEL] + Relevant([], WIDER_BUFFER);
    assert CandidatesFor(levels, true, 1000.0, WIDER_BUFFER) == levels by {
      assert Gap(1000.0, WIDER_BUFFER) == 1.5;
      assert OnProfitableSide(levels, true, 1000.0, 1.5) == [TARGET_LEVEL] + OnProfitableSide([], true, 1000.0, 1.5);
    }
    hide Relevant, CandidatesFor, SortedByPrice;
    SortedIsNearestFirst(true, levels);
    var ordered := SortedByPrice(true, levels);
    assert |multiset(ordered)| == 1;
    assert ordered[0] in multiset(ordered);
    assert ordered[..1] == levels;
  }

  lemma HasTheSize()
    ensures RiskEngine.PositionOf(QUIET_MARKET, WIDER_BUFFER, WIDE_FRAME) == Ok(SIZED)
  {
    assert Pow10(1) == 10 * Pow10(0);
    assert Quantum(1) == 0.1;
    assert RoundQuantityDown(2.5, 1) == 2.5;
  }

  const SEARCH := ConditionsOf(QUIET_MARKET, WIDE_FRAME, SIZED)

  lemma CapIsTwoAndAHalf()
    ensures CapFor(INSTRUMENT, SEARCH, None, WIDER_BUFFER) == 2.5
  {
    SpreadIsTight();
    hide SpreadBps;
  }

  /** A candidate that passes and is the highest is what the search returns. */
  lemma HighestIsFound(i: Instrument, c: Conditions, s: RiskSettings, candidates: seq<real>, highest: real)
    requires highest in candidates && highest >= 1.0 && forall x | x in candidates :: x <= highest
    requires PassesAt(i, c, highest, s)
    ensures exists range :: Found(i, c, s, candidates, Ok(range))
  {
    RefusalsDoNotDepend(i, c, s, highest);
    var margin := MarginAt(i, c, highest, s).value;
    var range := LeverageRange(1.0, highest, highest, margin,
                               CheckLiquidationBuffer(c.invalidation, margin, c.atr, c.bullish, s));
    assert Found(i, c, s, candidates, Ok(range));
  }

  lemma TwoAndAHalfPasses()
    ensures PassesAt(INSTRUMENT, SEARCH, 2.5, WIDER_BUFFER)
  {
    hide SpreadBps;
    assert LiquidationFrom(1000.0, 2.5, 0.055, true) == 655.0;
  }

  lemma HasTheLeverage()
    ensures exists range :: Searched(QUIET_MARKET, WIDER_BUFFER, WIDE_FRAME, SIZED, Ok(range))
  {
    CandidatesFallToOne(2.5);
    CapIsTwoAndAHalf();
    TwoAndAHalfPasses();
    assert Round2(2.5) == 2.5;
    hide Candidates, CapFor, Round2, PassesAt, Found;
    assert Candidates(2.5)[0] in Candidates(2.5);
    HighestIsFound(INSTRUMENT, SEARCH, WIDER_BUFFER, Candidates(2.5), 2.5);
    var range :| Found(INSTRUMENT, SEARCH, WIDER_BUFFER, Candidates(2.5), Ok(range));
    assert IsTierCap(INSTRUMENT.riskTiers, SIZED.notional, None);
    assert Searched(QUIET_MARKET, WIDER_BUFFER, WIDE_FRAME, SIZED, Ok(range));
  }

  // the costs of this plan

  lemma OneLevelWalk(book: OrderbookDepthSnapshot, which: Side, level: Level)
    requires book.isFresh && SideLevels(book, which) == [level] && level.price > 0.0 && level.quantity > 2.5
    ensures var v := Walked(book, which, 2.5, 25, 50.0);
            FullyFilled(v) && v.slippageBps == Some(0.0)
  {
    var levels := [level];
    assert First(levels, 25) == levels;
    assert InWindow(levels, level.price, 50.0) == [level] + InWindow(levels[1..], level.price, 50.0);
    assert levels[1..] == [];
    assert Takes(levels, 2.5) == [2.5] + Nothing(levels[1..]);
    assert Takes(levels, 2.5) == [2.5];
    assert Sum([2.5]) == 2.5 + Sum([2.5][1..]);
    assert Notional(levels, [2.5]) == 2.5 * level.price + Notional(levels[1..], [2.5][1..]);
    assert 2.5 * level.price / 2.5 == level.price;
  }

  const REQUEST := RequestOf(QUIET_MARKET, WIDE_FRAME, [TARGET_LEVEL], SIZED, SHIPPED_COSTS)

  lemma LegCosts(leg: CostModel.Leg, mode: CostModel.ExecutionMode, reference: real, price: real)
    requires reference > 0.0 && price > 0.0
    requires price == CostModel.ExecutionPrice(reference, CostModel.AdverseDirection(leg, true),
                                               CostModel.StressBps(SHIPPED_COSTS, leg, mode))
    ensures EstimateFor(REQUEST, leg, mode, reference)
         == Ok(CostModel.LegAt(reference, price, CostModel.StressBps(SHIPPED_COSTS, leg, mode), SHIPPED_FEES,
                               mode, 2.5))
  {
    if CostModel.SideFor(leg, true) == Ask {
      OneLevelWalk(BOOK, Ask, BOOK.asks[0]);
    } else {
      OneLevelWalk(BOOK, Bid, BOOK.bids[0]);
    }
    hide Walked, CostModel.ExecutionPrice, CostModel.StressBps, CostModel.LegAt, FullyFilled;
  }

  const ENTRY_LEG := CostModel.LegEstimate(1000.0, 1000.2, 2.0, 0.5, 1.75035, 2500.5)
  const INVALIDATION_LEG := CostModel.LegEstimate(980.0, 979.216, 8.0, 1.96, 1.713628, 2448.04)
  const TARGET_LEG := CostModel.LegEstimate(1060.0, 1059.788, 2.0, 0.53, 1.854629, 2649.47)
  const THIN_FUNDING := Funding.FundingProjection(true, 4, 0.0, 0.25005, 0.25005)
  const BASE := Base(ENTRY_LEG, INVALIDATION_LEG, THIN_FUNDING, 0.25005, 50.0, 56.424078)

  lemma HasTheLegs()
    ensures EstimateFor(REQUEST, CostModel.Entry, CostModel.EntryTaker, 1000.0) == Ok(ENTRY_LEG)
    ensures EstimateFor(REQUEST, CostModel.Invalidation, CostModel.StopStressTaker, 980.0) == Ok(INVALIDATION_LEG)
    ensures EstimateFor(REQUEST, CostModel.Target, CostModel.TargetTaker, 1060.0) == Ok(TARGET_LEG)
  {
    LegCosts(CostModel.Entry, CostModel.EntryTaker, 1000.0, 1000.2);
    LegCosts(CostModel.Invalidation, CostModel.StopStressTaker, 980.0, 979.216);
    LegCosts(CostModel.Target, CostModel.TargetTaker, 1060.0, 1059.788);
    hide EstimateFor;
  }

  lemma HasTheFunding()
    ensures Funding.ProjectFunding(FUNDING, true, 240, 2500.5, 0, SHIPPED_COSTS) == Ok(THIN_FUNDING)
  {
    assert Funding.Buffer(2500.5, 1.0) == 0.25005;
    assert Funding.Intervals(FUNDING, 240, 0, SHIPPED_COSTS) == 4;
    assert Funding.RecentAdverse([], 0 - 72 * Funding.HOUR, true) == [];
    assert Funding.AssumedRate(Some(0.0), [], true, 75.0) == 0.0;
    hide Funding.Buffer, Funding.Intervals, Funding.AssumedRate, Funding.RecentAdverse;
  }

  lemma HasTheBase()
    ensures BaseOf(REQUEST) == Ok(BASE)
  {
    HasTheLegs();
    HasTheFunding();
    assert HoldMinutes(REQUEST) == 240;
    assert BaseFrom(REQUEST, ENTRY_LEG, INVALIDATION_LEG, THIN_FUNDING) == BASE;
    hide EstimateFor, Funding.ProjectFunding, BaseFrom;
  }

  const BREAKDOWN :=
    TargetBreakdown(1060.0, 0, 150.0, 144.864921, Some(3.0), Some(144.864921 / 56.424078), 1.854629, 0.53)

  lemma OneMoreTarget(r: CostRequest, b: Base, targets: seq<TargetBreakdown>, t: TargetBreakdown)
    requires |targets| < |r.targetPrices| && TargetsUpTo(r, b, |targets|) == Ok(targets)
    requires TargetAt(r, b, |targets|) == Ok(t)
    ensures TargetsUpTo(r, b, |targets| + 1) == Ok(targets + [t])
  {
  }

  lemma HasTheBreakdown()
    ensures TargetsUpTo(REQUEST, BASE, 1) == Ok([BREAKDOWN])
  {
    HasTheLegs();
    hide EstimateFor;
    assert REQUEST.targetPrices == [1060.0];
    assert TargetEconomics(true, 0, 1060.0, TARGET_LEG, 2.5, BASE) == BREAKDOWN;
    assert TargetAt(REQUEST, BASE, 0) == Ok(BREAKDOWN);
    assert TargetsUpTo(REQUEST, BASE, 0) == Ok([]);
    OneMoreTarget(REQUEST, BASE, [], BREAKDOWN);
    var none: seq<TargetBreakdown> := [];
    assert none + [BREAKDOWN] == [BREAKDOWN];
  }

  lemma HasTheCosts()
    ensures EstimateOf(REQUEST).Ok?
    ensures ValidateCostEstimate(EstimateOf(REQUEST).value, WIDER_BUFFER).None?
  {
    HasTheBase();
    HasTheBreakdown();
    hide BaseOf, TargetsUpTo;
    assert REQUEST.targetPrices == [1060.0];
    assert FrictionsOf(BASE) == 6.424078;
    assert EstimateOf(REQUEST) == Gated(REQUEST, BASE, [BREAKDOWN]);
  }

  /**
    The same market under the shipped settings with one of them changed, an ATR share of the buffer of 1.5 instead
    of 0.25: a plan is accepted, for every score that reaches the threshold.  Under the shipped settings none is.
   */
  lemma WiderBufferIsAccepted(score: (Assessment, RiskSettings) -> real)
    requires forall a :: score(a, WIDER_BUFFER) >= WIDER_BUFFER.eligibilityMinScore
    ensures exists a :: Accepted(QUIET_MARKET, WIDER_BUFFER, SHIPPED_COSTS, score, a)
    ensures forall a :: !Accepted(QUIET_MARKET, SHIPPED, SHIPPED_COSTS, score, a)
  {
    OpensTheGates();
    HasTheFrame();
    HasTheTarget();
    HasTheSize();
    HasTheLeverage();
    HasTheCosts();
    hide Gate, DeriveFrame, TargetsOf, RiskEngine.PositionOf, Searched, EstimateOf, ValidateCostEstimate;
    var range :| Searched(QUIET_MARKET, WIDER_BUFFER, WIDE_FRAME, SIZED, Ok(range));
    var a := Assessment(WIDE_FRAME, [TARGET_LEVEL], SIZED, range, EstimateOf(REQUEST).value);
    assert Accepted(QUIET_MARKET, WIDER_BUFFER, SHIPPED_COSTS, score, a);
    forall a
      ensures !Accepted(QUIET_MARKET, SHIPPED, SHIPPED_COSTS, score, a)
    {
      ShippedSettingsAcceptNothing(QUIET_MARKET, SHIPPED, SHIPPED_COSTS, a);
    }
  }
}
