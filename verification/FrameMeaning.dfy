/** The technical frame, the size and the targets of a plan: what they are, and what closes each of their gates. */
module FrameMeaning {
  import opened Options
  import opened RiskModel
  import opened Rounding
  import opened TechnicalFrame
  import opened Targets
  import opened Sizing

  // ---------------------------------------------------------------- the frame

  function FirstLevel(m: Market): Option<real> {
    if m.referencedLevels == [] then None else m.referencedLevels[0]
  }

  /** The price a taker gets: the ask for a bullish candidate, the bid for a bearish one. */
  function Executable(m: Market): Option<real> {
    if m.bullish then m.bestAsk else m.bestBid
  }

  function Value(x: Option<real>): real {
    if x.Some? then x.value else 0.0
  }

  /** The executable price on the grid, against the plan. */
  function ReferenceOf(i: Instrument, m: Market): real {
    RoundTo(Value(Executable(m)), TickSizeFor(i.priceDecimals, i.tickSize), if m.bullish then Up else Down)
  }

  /** The first level with its two buffers, on the grid, away from the plan. */
  function InvalidationOf(i: Instrument, m: Market, s: RiskSettings): real {
    var level, tick := Value(FirstLevel(m)), TickSizeFor(i.priceDecimals, i.tickSize);
    var buffer := BuffersOf(level, Value(m.atr), s);
    if m.bullish then RoundTo(level - buffer, tick, Down) else RoundTo(level + buffer, tick, Up)
  }

  /** The two buffers: a share of the level and a share of the ATR. */
  function BuffersOf(level: real, atr: real, s: RiskSettings): real {
    level * s.invalidationBufferBps / 10000.0 + atr * s.invalidationBufferAtr
  }

  lemma BufferIsBoth(level: real, atr: real, s: RiskSettings)
    ensures TechnicalFrame.Buffer(level, atr, s) == BuffersOf(level, atr, s)
  {
  }

  /** From the invalidation to the reference, in the direction of the plan. */
  function DistanceOf(i: Instrument, m: Market, s: RiskSettings): real {
    if m.bullish then ReferenceOf(i, m) - InvalidationOf(i, m, s) else InvalidationOf(i, m, s) - ReferenceOf(i, m)
  }

  /** The executable price has run away from the level by more than the chase limit. */
  predicate RanAway(m: Market, s: RiskSettings) {
    var level, executable := Value(FirstLevel(m)), Value(Executable(m));
    if m.bullish then executable > level * (1.0 + s.maxEntryChaseBps / 10000.0)
    else executable < level * (1.0 - s.maxEntryChaseBps / 10000.0)
  }

  /** A bound on the distance in basis points of the reference; with no positive reference the distance counts as 0. */
  predicate BpsBelow(distance: real, reference: real, bps: real) {
    if reference > 0.0 then distance * 10000.0 < bps * reference else 0.0 < bps
  }

  predicate BpsAbove(distance: real, reference: real, bps: real) {
    if reference > 0.0 then distance * 10000.0 > bps * reference else 0.0 > bps
  }

  /** The same in multiples of the ATR. */
  predicate AtrBelow(distance: real, atr: real, multiple: real) {
    distance < multiple * atr
  }

  predicate AtrAbove(distance: real, atr: real, multiple: real) {
    distance > multiple * atr
  }

  /** A distance, in basis points of the reference and in multiples of the ATR. */
  predicate DistanceMeans(d: RiskDistance, distance: real, reference: real, atr: real) {
    && d.absolute == distance
    && (reference > 0.0 ==> d.bps * reference == distance * 10000.0)
    && d.atrMultiple.Some? && d.atrMultiple.value * atr == distance
  }

  /** The gates on the frame in their order: what closes each of them, and the code it gives. */
  function FrameGates(i: Instrument, m: Market, s: RiskSettings): seq<(bool, PlanRejection)> {
    var distance, atr := DistanceOf(i, m, s), Value(m.atr);
    [(Value(FirstLevel(m)) <= 0.0, ReferenceEntryUnavailable),
     (!m.bboFresh || m.bestBid.None? || m.bestAsk.None?, ReferenceEntryUnavailable),
     (m.spreadBps.None? || m.spreadBps.value > 2.0 * s.maxEntryChaseBps, ReferenceEntryUnavailable),
     (RanAway(m, s), ReferenceEntryUnavailable),
     (atr <= 0.0, InvalidationUnavailable),
     (InvalidationOf(i, m, s) <= 0.0, InvalidationUnavailable),
     (distance <= 0.0, InvalidationWrongSide),
     (BpsBelow(distance, ReferenceOf(i, m), s.minDistanceBps), InvalidationTooClose),
     (BpsAbove(distance, ReferenceOf(i, m), s.maxDistanceBps), InvalidationTooFar),
     (AtrBelow(distance, atr, s.minDistanceAtr), InvalidationTooClose),
     (AtrAbove(distance, atr, s.maxDistanceAtr), InvalidationTooFar)]
  }

  /** Every figure of an accepted frame. */
  predicate FrameMeans(i: Instrument, m: Market, s: RiskSettings, f: Frame) {
    var level, executable := Value(FirstLevel(m)), Value(Executable(m));
    var tick := TickSizeFor(i.priceDecimals, i.tickSize);
    && f.zone.reference == ReferenceOf(i, m) && f.invalidation == InvalidationOf(i, m, s)
    && f.zone.low == RoundTo(if executable < level then executable else level, tick, Down)
    && f.zone.high == RoundTo(if executable < level then level else executable, tick, Up)
    && DistanceMeans(f.distance, DistanceOf(i, m, s), ReferenceOf(i, m), Value(m.atr))
  }

  lemma Quotients(x: real, y: real, z: real)
    requires y > 0.0
    ensures x / y * y == x
    ensures x / y < z <==> x < z * y
    ensures x / y > z <==> x > z * y
  {
  }

  lemma ZoneGates(i: Instrument, m: Market, s: RiskSettings)
    ensures var zone := DeriveEntryZone(i, m, s);
            var gates := FrameGates(i, m, s);
            && (zone.Ok? <==> !gates[0].0 && !gates[1].0 && !gates[2].0 && !gates[3].0)
            && (zone.Err? ==> zone.error == ReferenceEntryUnavailable)
            && (zone.Ok? ==>
                  && zone.value.reference == ReferenceOf(i, m)
                  && var level, executable := Value(FirstLevel(m)), Value(Executable(m));
                     var tick := TickSizeFor(i.priceDecimals, i.tickSize);
                     && zone.value.low == RoundTo(if executable < level then executable else level, tick, Down)
                     && zone.value.high == RoundTo(if executable < level then level else executable, tick, Up))
  {
    hide RoundTo, TickSizeFor, InvalidationOf, DistanceOf, BpsBelow, BpsAbove;
  }

  lemma InvalidationGates(i: Instrument, m: Market, s: RiskSettings)
    requires Value(FirstLevel(m)) > 0.0
    ensures var r := DeriveInvalidation(i, m, ReferenceOf(i, m), s);
            && r == if Value(m.atr) <= 0.0 || InvalidationOf(i, m, s) <= 0.0 then Err(InvalidationUnavailable)
                    else if DistanceOf(i, m, s) <= 0.0 then Err(InvalidationWrongSide)
                    else Ok(InvalidationOf(i, m, s))
  {
    hide RoundTo, TickSizeFor, TechnicalFrame.Buffer, BuffersOf;
    BufferIsBoth(Value(FirstLevel(m)), Value(m.atr), s);
  }

  lemma DistanceGates(reference: real, invalidation: real, distance: real, atr: real, s: RiskSettings)
    requires atr > 0.0 && distance > 0.0
    requires distance == reference - invalidation || distance == invalidation - reference
    ensures var d := ComputeRiskDistance(reference, invalidation, Some(atr));
            && DistanceMeans(d, distance, reference, atr)
            && ValidateRiskDistance(d, s)
               == if BpsBelow(distance, reference, s.minDistanceBps) then Some(InvalidationTooClose)
                  else if BpsAbove(distance, reference, s.maxDistanceBps) then Some(InvalidationTooFar)
                  else if AtrBelow(distance, atr, s.minDistanceAtr) then Some(InvalidationTooClose)
                  else if AtrAbove(distance, atr, s.maxDistanceAtr) then Some(InvalidationTooFar)
                  else None
  {
    Quotients(distance, atr, s.minDistanceAtr);
    Quotients(distance, atr, s.maxDistanceAtr);
    if reference > 0.0 {
      BpsOfDistance(distance, reference, s.minDistanceBps);
      BpsOfDistance(distance, reference, s.maxDistanceBps);
    }
  }

  lemma BpsOfDistance(distance: real, reference: real, bps: real)
    requires reference > 0.0
    ensures distance / reference * 10000.0 * reference == distance * 10000.0
    ensures distance / reference * 10000.0 < bps <==> distance * 10000.0 < bps * reference
    ensures distance / reference * 10000.0 > bps <==> distance * 10000.0 > bps * reference
  {
    Quotients(distance, reference, bps / 10000.0);
  }

  /** The frame is accepted when all gates are open, with these figures; else the first closed one gives the code. */
  lemma FrameIsFirstClosed(i: Instrument, m: Market, s: RiskSettings)
    ensures var r := DeriveFrame(i, m, s);
            && IsFirstClosed(FrameGates(i, m, s), if r.Ok? then None else Some(r.error))
            && (r.Ok? ==> FrameMeans(i, m, s, r.value))
  {
    var r, gates := DeriveFrame(i, m, s), FrameGates(i, m, s);
    hide DeriveEntryZone, DeriveInvalidation, ComputeRiskDistance, ValidateRiskDistance, ReferenceOf, InvalidationOf,
         RanAway, BpsBelow, BpsAbove, AtrBelow, AtrAbove, DistanceMeans, RoundTo, TickSizeFor;
    ZoneGates(i, m, s);
    if Value(FirstLevel(m)) > 0.0 {
      InvalidationGates(i, m, s);
      if Value(m.atr) > 0.0 && DistanceOf(i, m, s) > 0.0 {
        assert m.atr == Some(Value(m.atr));
        DistanceGates(ReferenceOf(i, m), InvalidationOf(i, m, s), DistanceOf(i, m, s), Value(m.atr), s);
      }
    }
    if r.Err? {
      var k := if gates[0].0 then 0 else if gates[1].0 then 1 else if gates[2].0 then 2 else if gates[3].0 then 3
               else if gates[4].0 then 4 else if gates[5].0 then 5 else if gates[6].0 then 6 else if gates[7].0 then 7
               else if gates[8].0 then 8 else if gates[9].0 then 9 else 10;
      assert IsClosedAt(gates, k, r.error);
    }
  }

  // ---------------------------------------------------------------- the size

  /** The grid quantity whose loss at the invalidation fits the cash risk. */
  function QuantityByRisk(i: Instrument, riskPerUnit: real, s: RiskSettings): real {
    if riskPerUnit == 0.0 then 0.0
    else RoundTo(s.virtualAccount * s.riskPerPlanPct / 100.0 / riskPerUnit, Quantum(i.quantityDecimals), Down)
  }

  /** The grid quantity whose value at the entry fits the notional cap. */
  function QuantityByNotional(i: Instrument, entry: real, s: RiskSettings): real {
    if entry == 0.0 then 0.0 else RoundTo(s.maxReferenceNotional / entry, Quantum(i.quantityDecimals), Down)
  }

  /** The gates on the size in their order; the last two only stand in the way of a capped quantity. */
  function SizeGates(i: Instrument, entry: real, riskPerUnit: real, s: RiskSettings): seq<(bool, PlanRejection)> {
    var byRisk, byNotional := QuantityByRisk(i, riskPerUnit, s), QuantityByNotional(i, entry, s);
    var capped := Amount(byRisk, entry) > s.maxReferenceNotional;
    [(entry <= 0.0 || riskPerUnit <= 0.0, ReferenceQuantityInvalid),
     (byRisk <= 0.0, ReferenceQuantityInvalid),
     (i.minNotional.None?, InstrumentRiskDataMissing),
     (Amount(byRisk, entry) < Value(i.minNotional), MinNotionalViolation),
     (capped && byNotional <= 0.0, ReferenceQuantityInvalid),
     (capped && Amount(byNotional, entry) < Value(i.minNotional), MinNotionalViolation)]
  }

  /** A size is returned when all gates are open; otherwise the first closed one gives the code. */
  lemma SizeIsFirstClosed(i: Instrument, entry: real, riskPerUnit: real, s: RiskSettings)
    ensures var r := SizeReferencePosition(i, entry, riskPerUnit, s);
            IsFirstClosed(SizeGates(i, entry, riskPerUnit, s), if r.Ok? then None else Some(r.error))
  {
    var r, gates := SizeReferencePosition(i, entry, riskPerUnit, s), SizeGates(i, entry, riskPerUnit, s);
    if entry > 0.0 && riskPerUnit > 0.0 {
      SizedIsBest(i, entry, riskPerUnit, s);
      BestWithinRisk(i, entry, riskPerUnit, s);
    }
    hide RoundTo, Quantum, Amount, Best;
    if entry > 0.0 && riskPerUnit > 0.0 {
      var best := Best(i, entry, riskPerUnit, s);
      if best > 0.0 {
        FinalCheckNeverFires(i, entry, riskPerUnit, s, best);
      }
    }
    if r.Err? {
      var k := if gates[0].0 then 0 else if gates[1].0 then 1 else if gates[2].0 then 2 else if gates[3].0 then 3
               else if gates[4].0 then 4 else 5;
      assert IsClosedAt(gates, k, r.error);
    }
  }

  // ---------------------------------------------------------------- the targets

  predicate Known(l: TechnicalLevel, s: RiskSettings) {
    l.price > 0.0 && l.relevance >= s.targetMinRelevance
  }

  /** A known level beyond the entry by more than the minimum distance. */
  predicate Offerable(l: TechnicalLevel, bullish: bool, entry: real, s: RiskSettings) {
    && Known(l, s)
    && if bullish then l.price - entry > entry * s.minDistanceBps / 10000.0
       else entry - l.price > entry * s.minDistanceBps / 10000.0
  }

  /** All offerable levels of the list, and nothing else, with their multiplicity. */
  ghost predicate AllOfferable(all: seq<TechnicalLevel>, levels: seq<TechnicalLevel>, bullish: bool, entry: real,
                               s: RiskSettings) {
    forall l :: multiset(all)[l] == if Offerable(l, bullish, entry, s) then multiset(levels)[l] else 0
  }

  lemma OfferableIsCandidate(levels: seq<TechnicalLevel>, bullish: bool, entry: real, s: RiskSettings)
    ensures AllOfferable(CandidatesFor(levels, bullish, entry, s), levels, bullish, entry, s)
  {
    forall l
      ensures multiset(CandidatesFor(levels, bullish, entry, s))[l]
           == if Offerable(l, bullish, entry, s) then multiset(levels)[l] else 0
    {
      CandidatesAreExactly(levels, bullish, entry, s, l);
      assert Offerable(l, bullish, entry, s)
        <==> IsRelevant(l, s) && Profitable(bullish, l.price, entry, Gap(entry, s));
    }
  }

  lemma NoneKnown(levels: seq<TechnicalLevel>, s: RiskSettings)
    ensures Relevant(levels, s) == [] <==> forall l | l in levels :: !Known(l, s)
  {
    hide Relevant;
    forall l
      ensures l in multiset(Relevant(levels, s)) <==> l in levels && Known(l, s)
    {
      RelevantCount(levels, s, l);
      assert l in multiset(levels) <==> l in levels;
    }
    var relevant := Relevant(levels, s);
    if relevant != [] {
      assert relevant[0] in multiset(relevant);
    } else {
      assert forall l :: l !in multiset(relevant);
    }
  }

  predicate InOrder(bullish: bool, all: seq<TechnicalLevel>) {
    forall j, k | 0 <= j < k < |all| ::
      if bullish then all[j].price <= all[k].price else all[j].price >= all[k].price
  }

  /** These and the rest are all that is offerable, in the order of their distance, and these are the first three. */
  ghost predicate FirstOfAll(targets: seq<TechnicalLevel>, rest: seq<TechnicalLevel>, levels: seq<TechnicalLevel>,
                             bullish: bool, entry: real, s: RiskSettings) {
    && AllOfferable(targets + rest, levels, bullish, entry, s) && InOrder(bullish, targets + rest)
    && |targets| == if |targets + rest| < 3 then |targets + rest| else 3
  }

  /**
   * The targets are the first three, or all, of the offerable levels in the order of their distance; without a known
   * level, or with none that is offerable, the refusal says which.
   */
  lemma TargetsMean(levels: seq<TechnicalLevel>, bullish: bool, entry: real, s: RiskSettings)
    ensures var r := DerivedTargets(levels, bullish, entry, s);
            var known := exists l :: l in levels && Known(l, s);
            var offerable := exists l :: l in levels && Offerable(l, bullish, entry, s);
            && (r == Err(ReferenceTargetUnavailable) <==> entry <= 0.0 || !known)
            && (r == Err(TargetWrongSide) <==> entry > 0.0 && known && !offerable)
            && (r.Ok? <==> entry > 0.0 && offerable)
            && (r.Ok? ==> exists rest :: FirstOfAll(r.value, rest, levels, bullish, entry, s))
  {
    var r, candidates := DerivedTargets(levels, bullish, entry, s), CandidatesFor(levels, bullish, entry, s);
    hide CandidatesFor, Relevant, SortedByPrice, Offerable, Known, AllOfferable, AreNearest, FirstOfAll;
    NoneKnown(levels, s);
    OfferableIsCandidate(levels, bullish, entry, s);
    NoneOfferable(candidates, levels, bullish, entry, s);
    DerivedAreNearest(levels, bullish, entry, s);
    OfferableIsKnown(levels, bullish, entry, s);
    if r.Ok? {
      NearestAreFirst(candidates, r.value, levels, bullish, entry, s);
    }
  }

  lemma OfferableIsKnown(levels: seq<TechnicalLevel>, bullish: bool, entry: real, s: RiskSettings)
    ensures forall l | Offerable(l, bullish, entry, s) :: Known(l, s)
  {
  }

  lemma NearestAreFirst(candidates: seq<TechnicalLevel>, targets: seq<TechnicalLevel>, levels: seq<TechnicalLevel>,
                        bullish: bool, entry: real, s: RiskSettings)
    requires AllOfferable(candidates, levels, bullish, entry, s) && AreNearest(bullish, candidates, targets)
    ensures exists rest :: FirstOfAll(targets, rest, levels, bullish, entry, s)
  {
    var rest: seq<TechnicalLevel> :|
      && multiset(targets + rest) == multiset(candidates)
      && NearestFirst(bullish, targets + rest)
      && |targets| == if |candidates| < MAX_TARGETS then |candidates| else MAX_TARGETS;
    hide AllOfferable, AreNearest;
    var all := targets + rest;
    assert |multiset(all)| == |multiset(candidates)|;
    SameMembers(all, candidates, levels, bullish, entry, s);
    assert InOrder(bullish, all) by {
      forall j, k | 0 <= j < k < |all|
        ensures if bullish then all[j].price <= all[k].price else all[j].price >= all[k].price
      {
        assert Nearer(bullish, all[j], all[k]);
      }
    }
    assert FirstOfAll(targets, rest, levels, bullish, entry, s);
  }

  lemma SameMembers(all: seq<TechnicalLevel>, candidates: seq<TechnicalLevel>, levels: seq<TechnicalLevel>,
                    bullish: bool, entry: real, s: RiskSettings)
    requires multiset(all) == multiset(candidates) && AllOfferable(candidates, levels, bullish, entry, s)
    ensures AllOfferable(all, levels, bullish, entry, s)
  {
  }

  lemma NoneOfferable(candidates: seq<TechnicalLevel>, levels: seq<TechnicalLevel>, bullish: bool, entry: real,
                      s: RiskSettings)
    requires AllOfferable(candidates, levels, bullish, entry, s)
    ensures candidates == [] <==> forall l | l in levels :: !Offerable(l, bullish, entry, s)
  {
    if candidates != [] {
      assert candidates[0] in multiset(candidates);
      assert candidates[0] in multiset(levels);
    } else {
      forall l | l in levels
        ensures !Offerable(l, bullish, entry, s)
      {
        assert l in multiset(levels) && multiset(candidates)[l] == 0;
      }
    }
  }
}
