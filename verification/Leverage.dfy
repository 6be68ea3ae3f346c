/** The search for a reference leverage (app/risk/leverage_suitability.py). */
module Leverage {
  import opened Arithmetic
  import opened Options
  import opened RiskModel
  import opened Rounding
  import opened MarginModel
  import opened LiquidationSafety

  const STEP := 0.5
  const TOLERANCE := 0.000000001

  // ---------------------------------------------------------------- the tier cap

  predicate TierApplies(t: RiskTier, notional: real) {
    t.RiskTier? && notional >= t.lowerBound >= -1.0 && t.maxLeverage > 0
  }

  /** The cap of the applicable tier with the greatest lower bound; among equal bounds, the last one listed. */
  ghost predicate IsTierCap(tiers: seq<RiskTier>, notional: real, cap: Option<int>) {
    match cap
    case None => forall t | t in tiers :: !TierApplies(t, notional)
    case Some(max) =>
      exists k: nat ::
        && k < |tiers| && TierApplies(tiers[k], notional) && tiers[k].maxLeverage == max
        && forall j | 0 <= j < |tiers| && TierApplies(tiers[j], notional) ::
             tiers[j].lowerBound < tiers[k].lowerBound || (tiers[j].lowerBound == tiers[k].lowerBound && j <= k)
  }

  method TierCap(tiers: seq<RiskTier>, notional: real) returns (applicable: Option<int>)
    ensures IsTierCap(tiers, notional, applicable)
  {
    applicable := None;
    var bestBound := -1.0;
    ghost var best: nat := 0;
    for i := 0 to |tiers|
      invariant applicable.None? ==> bestBound == -1.0 && forall j | 0 <= j < i :: !TierApplies(tiers[j], notional)
      invariant applicable.Some? ==>
                  && best < i && TierApplies(tiers[best], notional)
                  && applicable.value == tiers[best].maxLeverage && bestBound == tiers[best].lowerBound
                  && forall j | 0 <= j < i && TierApplies(tiers[j], notional) ::
                       tiers[j].lowerBound < bestBound || (tiers[j].lowerBound == bestBound && j <= best)
    {
      var tier := tiers[i];
      if tier.Malformed? {
        continue;
      }
      if notional >= tier.lowerBound && tier.lowerBound >= bestBound && tier.maxLeverage > 0 {
        bestBound, applicable, best := tier.lowerBound, Some(tier.maxLeverage), i;
      }
    }
  }

  // ---------------------------------------------------------------- the cap

  function Reduced(cap: real, step: real): real {
    Min(cap, Max(1.0, cap - step))
  }

  function CapOf(maxReference: real, maxMarket: int, tierCap: Option<int>,
                 elevatedVolatility: bool, wideSpread: bool, fundingThin: bool): real
  {
    var market := Min(maxReference, maxMarket as real);
    var tier := if tierCap.Some? && tierCap.value as real < market then tierCap.value as real else market;
    var volatility := if elevatedVolatility then Reduced(tier, 1.0) else tier;
    var spread := if wideSpread then Reduced(volatility, 0.5) else volatility;
    if fundingThin then Reduced(spread, 0.5) else spread
  }

  /** The reductions, applied one after the other and each stopping at 1x, add up. */
  lemma ReductionsAddUp(maxReference: real, maxMarket: int, tierCap: Option<int>,
                        elevatedVolatility: bool, wideSpread: bool, fundingThin: bool)
    ensures var limit := Min(Min(maxReference, maxMarket as real),
                             if tierCap.Some? then tierCap.value as real else maxReference);
            var reduction := (if elevatedVolatility then 1.0 else 0.0) + (if wideSpread then 0.5 else 0.0)
                             + if fundingThin then 0.5 else 0.0;
            CapOf(maxReference, maxMarket, tierCap, elevatedVolatility, wideSpread, fundingThin)
            == if limit < 1.0 then limit else Max(1.0, limit - reduction)
  {
  }

  // ---------------------------------------------------------------- the candidates

  /** Two decimals, half to even. */
  function Round2(x: real): real {
    RoundHalfEven(x * 100.0) as real / 100.0
  }

  function Measure(level: real): nat {
    if level < 0.0 then 0 else (2.0 * level).Floor + 1
  }

  function Steps(level: real): seq<real>
    decreases Measure(level)
  {
    if level < 1.0 - TOLERANCE then [] else [Round2(level)] + Steps(level - STEP)
  }

  function Candidates(cap: real): seq<real> {
    var steps := Steps(cap);
    if steps == [] || steps[|steps| - 1] > 1.0 then steps + [1.0] else steps
  }

  method ListCandidates(cap: real) returns (candidates: seq<real>)
    ensures candidates == Candidates(cap)
  {
    candidates := [];
    var level := cap;
    while level >= 1.0 - TOLERANCE
      invariant Steps(cap) == candidates + Steps(level)
      decreases Measure(level)
    {
      candidates := candidates + [Round2(level)];
      level := level - STEP;
    }
    if candidates == [] || candidates[|candidates| - 1] > 1.0 {
      candidates := candidates + [1.0];
    }
  }

  lemma RoundHalfEvenShift(x: real)
    ensures RoundHalfEven(x - 50.0) == RoundHalfEven(x) - 50
  {
  }

  lemma RoundHalfEvenGrows(x: real, y: real)
    requires x <= y
    ensures RoundHalfEven(x) <= RoundHalfEven(y)
  {
  }

  lemma Round2Facts(x: real)
    ensures Round2(x - STEP) == Round2(x) - STEP
    ensures x >= 1.0 - TOLERANCE ==> Round2(x) >= 1.0
    ensures x <= 3.0 ==> Round2(x) <= 3.0
  {
    assert (x - STEP) * 100.0 == x * 100.0 - 50.0;
    RoundHalfEvenShift(x * 100.0);
    if x >= 1.0 - TOLERANCE {
      assert RoundHalfEven(99.9999999) == 100 by {
        assert (99.9999999 as real).Floor == 99;
      }
      RoundHalfEvenGrows(99.9999999, x * 100.0);
    }
    if x <= 3.0 {
      RoundHalfEvenGrows(x * 100.0, 300.0);
    }
  }

  predicate Falling(levels: seq<real>) {
    forall i, j | 0 <= i < j < |levels| :: levels[i] > levels[j]
  }

  lemma {:induction false} StepsFall(level: real)
    ensures var steps := Steps(level);
            && Falling(steps)
            && (forall c | c in steps :: 1.0 <= c <= Round2(level))
            && (steps == [] <==> level < 1.0 - TOLERANCE)
            && (steps != [] ==> steps[0] == Round2(level))
    decreases Measure(level)
  {
    if level >= 1.0 - TOLERANCE {
      Round2Facts(level);
      StepsFall(level - STEP);
      hide Round2;
      var rest := Steps(level - STEP);
      assert forall j | 0 <= j < |rest| :: rest[j] in rest;
    }
  }

  /** The candidates fall strictly down to exactly 1x, from the cap rounded to two decimals. */
  lemma CandidatesFallToOne(cap: real)
    ensures var candidates := Candidates(cap);
            && candidates != [] && Falling(candidates)
            && candidates[|candidates| - 1] == 1.0
            && (forall c | c in candidates :: 1.0 <= c <= Max(1.0, Round2(cap)))
            && (cap >= 1.0 - TOLERANCE ==> candidates[0] == Round2(cap))
  {
    StepsFall(cap);
    hide Round2, Steps;
    var steps := Steps(cap);
    if steps != [] {
      assert steps[|steps| - 1] in steps;
    }
  }

  /**
   * From one candidate to the next it is half a step of 1x, and the last one is at most half a step above 1x or is
   * 1x itself: the candidates are the cap, to two decimals, less multiples of 0.5x.
   */
  lemma {:induction false} StepsAreHalves(level: real, k: nat)
    requires k < |Steps(level)|
    ensures Steps(level)[k] == Round2(level) - 0.5 * k as real
    ensures k == |Steps(level)| - 1 ==> Steps(level)[k] <= 1.5
    decreases k
  {
    Round2Facts(level);
    if k > 0 {
      StepsAreHalves(level - STEP, k - 1);
    } else if |Steps(level)| == 1 {
      assert Steps(level - STEP) == [];
      RoundHalfEvenGrows(level * 100.0, 150.0);
    }
  }

  lemma CandidatesAreHalfSteps(cap: real, k: nat)
    requires k < |Candidates(cap)|
    ensures var candidates := Candidates(cap);
            && (k < |candidates| - 1 ==>
                  candidates[k] == Round2(cap) - 0.5 * k as real && candidates[k] - candidates[k + 1] <= 0.5)
            && (k == |candidates| - 1 ==> candidates[k] == 1.0)
  {
    CandidatesFallToOne(cap);
    if k < |Steps(cap)| {
      StepsAreHalves(cap, k);
    }
    if k + 1 < |Steps(cap)| {
      StepsAreHalves(cap, k + 1);
    }
    hide Round2, Steps;
  }

  /** Two decimals: a whole number of hundredths, nowhere more than half a hundredth away. */
  lemma Round2Means(x: real)
    ensures (Round2(x) * 100.0).Floor as real == Round2(x) * 100.0
    ensures x - 0.005 <= Round2(x) <= x + 0.005
  {
    assert Round2(x) * 100.0 == RoundHalfEven(x * 100.0) as real;
    NearestIsNearest(x * 100.0, 0);
  }

  /** The search stays under its cap exactly when the cap is at least 1x and two decimals do not round it up. */
  lemma CandidatesWithinCapExactlyWhen(cap: real)
    ensures (forall c | c in Candidates(cap) :: c <= cap) <==> cap >= 1.0 && Round2(cap) <= cap
  {
    CandidatesFallToOne(cap);
    hide Round2, Candidates;
    var candidates := Candidates(cap);
    assert candidates[0] in candidates && candidates[|candidates| - 1] in candidates;
  }

  // ---------------------------------------------------------------- the search

  datatype LeverageRange =
    LeverageRange(allowedMin: real, allowedMax: real, recommended: real, margin: Margin, buffer: LiquidationBuffer)

  datatype Conditions = Conditions(
    entry: real,
    invalidation: real,
    notional: real,
    bullish: bool,
    atr: Option<real>,
    atrPercentile: Option<real>,
    spreadBps: Option<real>,
    fundingThin: bool)

  predicate PassesAt(i: Instrument, c: Conditions, leverage: real, s: RiskSettings) {
    Passes(i, c.entry, c.invalidation, c.notional, leverage, c.bullish, c.atr, s)
  }

  /** The same in prices. */
  ghost predicate Safe(i: Instrument, c: Conditions, leverage: real, s: RiskSettings) {
    SafeAt(i, c.entry, c.invalidation, leverage, c.bullish, c.atr, s)
  }

  lemma PassesIsSafe(i: Instrument, c: Conditions, leverage: real, s: RiskSettings)
    requires leverage >= 1.0
    ensures PassesAt(i, c, leverage, s) <==> Safe(i, c, leverage, s)
  {
    PassingIsSafety(i, c.entry, c.invalidation, c.notional, leverage, c.bullish, c.atr, s);
  }

  function MarginAt(i: Instrument, c: Conditions, leverage: real, s: RiskSettings): Result<Margin, MarginError> {
    BuildMargin(i, c.entry, c.notional, leverage, c.bullish, s)
  }

  function CapFor(i: Instrument, c: Conditions, tierCap: Option<int>, s: RiskSettings): real
    requires i.maxLeverage.Some?
  {
    CapOf(s.maxReferenceLeverage, i.maxLeverage.value, tierCap,
          c.atrPercentile.Some? && c.atrPercentile.value >= 75.0,
          c.spreadBps.Some? && c.spreadBps.value > 10.0, c.fundingThin)
  }

  /**
   * The cap of a search: the smallest of the configured, the market's and the tier's limit, less 1x when the ATR is in
   * its upper quarter, half a step for a spread of more than 10 bps and half a step for thin funding data, but not
   * below 1x.
   */
  lemma CapIsReducedLimit(i: Instrument, c: Conditions, tierCap: Option<int>, s: RiskSettings)
    requires i.maxLeverage.Some?
    ensures var market := i.maxLeverage.value as real;
            var smaller := if s.maxReferenceLeverage < market then s.maxReferenceLeverage else market;
            var limit := if tierCap.Some? && tierCap.value as real < smaller then tierCap.value as real else smaller;
            var reduction := (if c.atrPercentile.Some? && c.atrPercentile.value >= 75.0 then 1.0 else 0.0)
                             + (if c.spreadBps.Some? && c.spreadBps.value > 10.0 then 0.5 else 0.0)
                             + if c.fundingThin then 0.5 else 0.0;
            CapFor(i, c, tierCap, s)
            == if limit < 1.0 then limit else if limit - reduction < 1.0 then 1.0 else limit - reduction
  {
  }

  /** What the search must return for a list of candidates. */
  ghost predicate Found(i: Instrument, c: Conditions, s: RiskSettings, candidates: seq<real>,
                        r: Result<LeverageRange, PlanRejection>)
  {
    match r
    case Ok(range) =>
      && range.allowedMin == 1.0 && range.recommended == range.allowedMax
      && range.allowedMax in candidates && PassesAt(i, c, range.allowedMax, s)
      && (forall x | x in candidates && x > range.allowedMax :: !PassesAt(i, c, x, s))
      && MarginAt(i, c, range.allowedMax, s) == Ok(range.margin)
      && range.margin.mark > 0.0
      && range.buffer == CheckLiquidationBuffer(c.invalidation, range.margin, c.atr, c.bullish, s)
    case Err(code) =>
      && (forall x | x in candidates :: !PassesAt(i, c, x, s))
      && match MarginAt(i, c, 1.0, s)
         case Ok(_) => code == LiquidationBufferInsufficient
         case Err(e) => e == Refused(code)
  }

  lemma RefusalsDoNotDepend(i: Instrument, c: Conditions, s: RiskSettings, x: real)
    requires x >= 1.0
    ensures MarginAt(i, c, x, s).Ok? ==> MarginAt(i, c, x, s).value.mark > 0.0
    ensures var at1, atX := MarginAt(i, c, 1.0, s), MarginAt(i, c, x, s);
            if atX.Err? && atX.error.Refused? then at1 == Err(atX.error) else at1.Ok?
  {
  }

  method SearchCandidates(i: Instrument, c: Conditions, s: RiskSettings, candidates: seq<real>)
    returns (r: Result<LeverageRange, PlanRejection>)
    requires candidates != [] && Falling(candidates) && forall x | x in candidates :: x >= 1.0
    ensures Found(i, c, s, candidates, r)
  {
    hide BuildMargin, CheckLiquidationBuffer;
    for k := 0 to |candidates|
      invariant forall j | 0 <= j < k :: !PassesAt(i, c, candidates[j], s)
      invariant k > 0 ==> MarginAt(i, c, 1.0, s).Ok?
    {
      var leverage := candidates[k];
      assert leverage in candidates;
      RefusalsDoNotDepend(i, c, s, leverage);
      var margin := BuildMargin(i, c.entry, c.notional, leverage, c.bullish, s);
      if margin.Err? {
        if margin.error.Refused? {
          RefusedEverywhere(i, c, s, candidates);
          return Err(margin.error.code);
        }
        continue;
      }
      var buffer := CheckLiquidationBuffer(c.invalidation, margin.value, c.atr, c.bullish, s);
      if buffer.sufficient {
        return Ok(LeverageRange(1.0, leverage, leverage, margin.value, buffer));
      }
    }
    return Err(LiquidationBufferInsufficient);
  }

  lemma RefusedEverywhere(i: Instrument, c: Conditions, s: RiskSettings, candidates: seq<real>)
    requires forall x | x in candidates :: x >= 1.0
    requires MarginAt(i, c, 1.0, s).Err?
    ensures forall x | x in candidates :: !PassesAt(i, c, x, s)
  {
  }

  method DetermineLeverage(i: Instrument, c: Conditions, s: RiskSettings)
    returns (r: Result<LeverageRange, PlanRejection>, ghost tierCap: Option<int>)
    ensures i.maxLeverage.None? || i.maxLeverage.value < 1 ==> r == Err(MaxLeverageUnavailable)
    ensures i.maxLeverage.Some? && i.maxLeverage.value >= 1 ==>
              && IsTierCap(i.riskTiers, c.notional, tierCap)
              && Found(i, c, s, Candidates(CapFor(i, c, tierCap, s)), r)
    ensures i.maxLeverage.Some? && i.maxLeverage.value >= 1 && c.entry > 0.0 && s.maxReferenceLeverage <= 3.0 ==>
              && (r.Ok? <==> Safe(i, c, 1.0, s))
              && (r.Ok? ==>
                    && (forall x: real | 1.0 <= x <= r.value.allowedMax :: Safe(i, c, x, s))
                    && forall x | x in Candidates(CapFor(i, c, tierCap, s)) && x > r.value.allowedMax ::
                         !Safe(i, c, x, s))
  {
    tierCap := None;
    if i.maxLeverage.None? || i.maxLeverage.value < 1 {
      return Err(MaxLeverageUnavailable), tierCap;
    }
    var tierMax := TierCap(i.riskTiers, c.notional);
    tierCap := tierMax;
    var cap := CapFor(i, c, tierMax, s);
    CandidatesFallToOne(cap);
    hide Candidates, CapFor, Found, Safe;
    var candidates := ListCandidates(cap);
    r := SearchCandidates(i, c, s, candidates);
    if c.entry > 0.0 && s.maxReferenceLeverage <= 3.0 {
      RangeIsHonest(i, c, s, tierMax, r);
    }
  }

  lemma TierCapIsUnique(tiers: seq<RiskTier>, notional: real, a: Option<int>, b: Option<int>)
    requires IsTierCap(tiers, notional, a) && IsTierCap(tiers, notional, b)
    ensures a == b
  {
    if a.Some? && b.Some? {
      var j: nat :|
        && j < |tiers| && TierApplies(tiers[j], notional) && tiers[j].maxLeverage == a.value
        && forall n | 0 <= n < |tiers| && TierApplies(tiers[n], notional) ::
             tiers[n].lowerBound < tiers[j].lowerBound || (tiers[n].lowerBound == tiers[j].lowerBound && n <= j);
      var k: nat :|
        && k < |tiers| && TierApplies(tiers[k], notional) && tiers[k].maxLeverage == b.value
        && forall n | 0 <= n < |tiers| && TierApplies(tiers[n], notional) ::
             tiers[n].lowerBound < tiers[k].lowerBound || (tiers[n].lowerBound == tiers[k].lowerBound && n <= k);
      assert j == k;
    }
  }

  /** The outcome of the search is determined by its inputs. */
  lemma FoundIsUnique(i: Instrument, c: Conditions, s: RiskSettings, candidates: seq<real>,
                      r: Result<LeverageRange, PlanRejection>, q: Result<LeverageRange, PlanRejection>)
    requires Found(i, c, s, candidates, r) && Found(i, c, s, candidates, q)
    ensures r == q
  {
    hide PassesAt, MarginAt, CheckLiquidationBuffer;
  }

  /** A search that returns nothing says why the margin cannot be modelled, or that no candidate leaves enough room. */
  lemma SearchRefusalIsFirstClosed(i: Instrument, c: Conditions, s: RiskSettings, candidates: seq<real>,
                                   code: PlanRejection)
    requires Found(i, c, s, candidates, Err(code))
    ensures IsFirstClosed(MarginGates(i, s) + [(true, LiquidationBufferInsufficient)], Some(code))
  {
    RefusalIsFirstClosed(i, c.entry, c.notional, 1.0, c.bullish, s);
    var gates := MarginGates(i, s);
    var all := gates + [(true, LiquidationBufferInsufficient)];
    hide MarginGates, PassesAt, BuildMargin;
    match MarginAt(i, c, 1.0, s)
    case Ok(_) =>
      assert IsClosedAt(all, |gates|, code);
    case Err(e) =>
      var k: nat :| IsClosedAt(gates, k, code);
      assert IsClosedAt(all, k, code);
  }

  /**
   * The range is honest over all reals: a leverage is returned exactly when 1x is safe, every leverage from 1x to
   * the returned one is safe, no larger candidate is, and it never exceeds 3x. With a cap of at least 1x that two
   * decimals do not round up it stays within the configured, market and tier limits too.
   */
  lemma RangeIsHonest(i: Instrument, c: Conditions, s: RiskSettings, tierCap: Option<int>,
                      r: Result<LeverageRange, PlanRejection>)
    requires c.entry > 0.0 && i.maxLeverage.Some? && s.maxReferenceLeverage <= 3.0
    requires Found(i, c, s, Candidates(CapFor(i, c, tierCap, s)), r)
    ensures r.Ok? <==> Safe(i, c, 1.0, s)
    ensures r.Ok? ==>
              && 1.0 <= r.value.allowedMax <= 3.0
              && (forall x: real | 1.0 <= x <= r.value.allowedMax :: Safe(i, c, x, s))
              && (forall x | x in Candidates(CapFor(i, c, tierCap, s)) && x > r.value.allowedMax :: !Safe(i, c, x, s))
    ensures var cap := CapFor(i, c, tierCap, s);
            r.Ok? && cap >= 1.0 && Round2(cap) <= cap ==>
              && r.value.allowedMax <= s.maxReferenceLeverage
              && r.value.allowedMax <= i.maxLeverage.value as real
              && (tierCap.Some? ==> r.value.allowedMax <= tierCap.value as real)
  {
    var cap := CapFor(i, c, tierCap, s);
    var candidates := Candidates(cap);
    CandidatesFallToOne(cap);
    CapAtMost(i, c, tierCap, s);
    Round2Facts(cap);
    CandidatesWithinCapExactlyWhen(cap);
    hide Candidates, CapFor, Round2, Passes, MarginAt, CheckLiquidationBuffer, SafeAt;
    assert candidates[|candidates| - 1] in candidates;
    PassesIsSafe(i, c, 1.0, s);
    forall x | x in candidates
      ensures PassesAt(i, c, x, s) <==> Safe(i, c, x, s)
    {
      PassesIsSafe(i, c, x, s);
    }
    if r.Ok? {
      forall x: real | 1.0 <= x <= r.value.allowedMax
        ensures PassesAt(i, c, x, s) && Safe(i, c, x, s)
      {
        LowerLeveragePasses(i, c.entry, c.invalidation, c.notional, x, r.value.allowedMax, c.bullish, c.atr, s);
        PassesIsSafe(i, c, x, s);
      }
      assert PassesAt(i, c, 1.0, s);
    }
  }

  lemma Round2IsClose(x: real)
    ensures Round2(x) <= x + 0.005
  {
    NearestIsNearest(x * 100.0, 0);
  }

  lemma OnlyTheFirstExceeds(cap: real)
    requires cap >= 1.0
    ensures forall x | x in Candidates(cap) :: x <= cap || x == Round2(cap)
    ensures Round2(cap) in Candidates(cap)
  {
    StepsFall(cap);
    StepsFall(cap - STEP);
    Round2Facts(cap);
    Round2IsClose(cap);
    assert Steps(cap) == [Round2(cap)] + Steps(cap - STEP);
    hide Round2, Steps;
    assert Steps(cap)[0] in Candidates(cap);
  }

  /**
   * The leverage returned exceeds the cap exactly when the cap is below 1x, or when two decimals round the cap up
   * and the rounded cap itself passes.
   */
  lemma ReturnedExceedsCapExactlyWhen(i: Instrument, c: Conditions, s: RiskSettings, tierCap: Option<int>,
                                      range: LeverageRange)
    requires i.maxLeverage.Some?
    requires Found(i, c, s, Candidates(CapFor(i, c, tierCap, s)), Ok(range))
    ensures var cap := CapFor(i, c, tierCap, s);
            range.allowedMax > cap <==> cap < 1.0 || (Round2(cap) > cap && Safe(i, c, Round2(cap), s))
  {
    var cap := CapFor(i, c, tierCap, s);
    CandidatesFallToOne(cap);
    if cap >= 1.0 {
      OnlyTheFirstExceeds(cap);
      PassesIsSafe(i, c, Round2(cap), s);
    }
    hide Candidates, CapFor, Round2, PassesAt, MarginAt, CheckLiquidationBuffer, Safe;
  }

  const ROOMY_INSTRUMENT :=
    Instrument(true, Some(100.0), None, Some(3), Some(1.0), None, 2, 2, [], Some(0.05), Some(0.1), true, true)
  const ROOMY_CONDITIONS := Conditions(100.0, 99.0, 1000.0, true, Some(1.0), None, None, false)

  /** Settings as shipped, except for the overridable leverage cap. */
  function WithLeverageCap(cap: real): RiskSettings {
    RiskSettings(
      requireConfirmedCandidate := true, requireFreshOrderbook := true, eligibilityMinScore := 75.0,
      virtualAccount := 10000.0, riskPerPlanPct := 0.5,
      minDistanceBps := 15.0, maxDistanceBps := 400.0, minDistanceAtr := 0.5, maxDistanceAtr := 4.0,
      invalidationBufferBps := 5.0, invalidationBufferAtr := 0.25, targetMinRelevance := 0.3,
      maxEntryChaseBps := 20.0, maxReferenceNotional := 50000.0, maxReferenceLeverage := cap,
      minNetRr := 1.8, maxCostToRiskPct := 15.0,
      requireInstrumentMarginData := true, allowApproximatedMargin := false,
      approxInitialMarginRate := 0.34, approxMaintenanceMarginRate := 0.1,
      minLiquidationBufferBps := 150.0, minLiquidationBufferAtr := 1.0, marginStressBufferBps := 50.0,
      isolatedMarginOnly := true)
  }

  lemma RoomyPasses(leverage: real, cap: real)
    requires 1.0 <= leverage <= 2.0
    ensures PassesAt(ROOMY_INSTRUMENT, ROOMY_CONDITIONS, leverage, WithLeverageCap(cap))
    ensures MarginAt(ROOMY_INSTRUMENT, ROOMY_CONDITIONS, leverage, WithLeverageCap(cap)).Ok?
  {
    assert 1.0 / leverage >= 0.5;
  }

  /** Two overrides under which a leverage above the cap is returned: 0.5x gives 1x, and 1.006x gives 1.01x. */
  lemma CapsThatAreExceeded(range: LeverageRange)
    ensures CapFor(ROOMY_INSTRUMENT, ROOMY_CONDITIONS, None, WithLeverageCap(0.5)) == 0.5
    ensures CapFor(ROOMY_INSTRUMENT, ROOMY_CONDITIONS, None, WithLeverageCap(1.006)) == 1.006
    ensures Found(ROOMY_INSTRUMENT, ROOMY_CONDITIONS, WithLeverageCap(0.5), Candidates(0.5), Ok(range)) ==>
              range.allowedMax == 1.0
    ensures Found(ROOMY_INSTRUMENT, ROOMY_CONDITIONS, WithLeverageCap(1.006), Candidates(1.006), Ok(range)) ==>
              range.allowedMax == 1.01
    ensures exists r :: Found(ROOMY_INSTRUMENT, ROOMY_CONDITIONS, WithLeverageCap(0.5), Candidates(0.5), Ok(r))
    ensures exists r :: Found(ROOMY_INSTRUMENT, ROOMY_CONDITIONS, WithLeverageCap(1.006), Candidates(1.006), Ok(r))
  {
    CandidatesFallToOne(0.5);
    CandidatesFallToOne(1.006);
    assert Round2(1.006) == 1.01 && Round2(0.5) == 0.5;
    assert Candidates(0.5)[|Candidates(0.5)| - 1] in Candidates(0.5) && Candidates(1.006)[0] in Candidates(1.006);
    hide Candidates, Found, Round2;
    SearchFindsHighest(0.5, 0.5, 1.0, range);
    SearchFindsHighest(1.006, 1.006, 1.01, range);
  }

  lemma SearchFindsHighest(cap: real, listed: real, highest: real, range: LeverageRange)
    requires highest in Candidates(listed) && 1.0 <= highest <= 2.0
    requires forall x | x in Candidates(listed) :: x <= highest
    ensures var i, c, s := ROOMY_INSTRUMENT, ROOMY_CONDITIONS, WithLeverageCap(cap);
            && (Found(i, c, s, Candidates(listed), Ok(range)) ==> range.allowedMax == highest)
            && exists r :: Found(i, c, s, Candidates(listed), Ok(r))
  {
    var i, c, s := ROOMY_INSTRUMENT, ROOMY_CONDITIONS, WithLeverageCap(cap);
    RoomyPasses(highest, cap);
    var margin := MarginAt(i, c, highest, s).value;
    RefusalsDoNotDepend(i, c, s, highest);
    var r := LeverageRange(1.0, highest, highest, margin,
                           CheckLiquidationBuffer(c.invalidation, margin, c.atr, c.bullish, s));
    hide Candidates, PassesAt, MarginAt, CheckLiquidationBuffer, WithLeverageCap;
    assert Found(i, c, s, Candidates(listed), Ok(r));
  }

  predicate TwoDecimals(x: real) {
    Round2(x) == x
  }

  lemma WholeNumbersHaveTwoDecimals(n: int)
    ensures TwoDecimals(n as real)
  {
    assert n as real * 100.0 == (100 * n) as real;
  }

  lemma ReducedKeepsDecimals(cap: real, step: real)
    requires TwoDecimals(cap) && cap >= 1.0 && step in {0.5, 1.0}
    ensures TwoDecimals(Reduced(cap, step)) && Reduced(cap, step) >= 1.0
  {
    Round2Facts(cap);
    Round2Facts(cap - STEP);
    WholeNumbersHaveTwoDecimals(1);
    hide Round2;
  }

  /** Given caps of at least 1x with two decimals, so is the reduced cap, and the search stays within all. */
  lemma GivenCapsAreKept(i: Instrument, c: Conditions, s: RiskSettings, tierCap: Option<int>, range: LeverageRange)
    requires i.maxLeverage.Some? && Found(i, c, s, Candidates(CapFor(i, c, tierCap, s)), Ok(range))
    requires s.maxReferenceLeverage >= 1.0 && TwoDecimals(s.maxReferenceLeverage)
    requires i.maxLeverage.value >= 1 && (tierCap.Some? ==> tierCap.value >= 1)
    ensures TwoDecimals(CapFor(i, c, tierCap, s)) && CapFor(i, c, tierCap, s) >= 1.0
    ensures range.allowedMax <= s.maxReferenceLeverage && range.allowedMax <= i.maxLeverage.value as real
    ensures tierCap.Some? ==> range.allowedMax <= tierCap.value as real
  {
    WholeNumbersHaveTwoDecimals(i.maxLeverage.value);
    WholeNumbersHaveTwoDecimals(if tierCap.Some? then tierCap.value else 1);
    var market := Min(s.maxReferenceLeverage, i.maxLeverage.value as real);
    var tier := if tierCap.Some? && tierCap.value as real < market then tierCap.value as real else market;
    ReducedKeepsDecimals(tier, 1.0);
    var volatility := if c.atrPercentile.Some? && c.atrPercentile.value >= 75.0 then Reduced(tier, 1.0) else tier;
    ReducedKeepsDecimals(volatility, 0.5);
    var spread := if c.spreadBps.Some? && c.spreadBps.value > 10.0 then Reduced(volatility, 0.5) else volatility;
    ReducedKeepsDecimals(spread, 0.5);
    CapAtMost(i, c, tierCap, s);
    ReturnedExceedsCapExactlyWhen(i, c, s, tierCap, range);
    hide Found, Candidates, Round2, Reduced, PassesAt;
  }

  lemma CapAtMost(i: Instrument, c: Conditions, tierCap: Option<int>, s: RiskSettings)
    requires i.maxLeverage.Some?
    ensures var cap := CapFor(i, c, tierCap, s);
            && cap <= s.maxReferenceLeverage && cap <= i.maxLeverage.value as real
            && (tierCap.Some? ==> cap <= tierCap.value as real)
  {
  }
}
