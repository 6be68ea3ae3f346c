/** Entry zone, invalidation and distance (app/risk/reference_entry.py, technical_invalidation.py, risk_distance.py). */
module TechnicalFrame {
  import opened Options
  import opened RiskModel
  import opened Rounding
  import opened Depth

  /** The price inputs of one evaluation; a referenced level that cannot be read is None. */
  datatype Market = Market(
    bullish: bool,
    referencedLevels: seq<Option<real>>,
    bestBid: Option<real>,
    bestAsk: Option<real>,
    bboFresh: bool,
    spreadBps: Option<real>,
    atr: Option<real>)

  datatype EntryZone = EntryZone(low: real, high: real, reference: real)

  datatype RiskDistance = RiskDistance(absolute: real, bps: real, atrMultiple: Option<real>)

  datatype Frame = Frame(zone: EntryZone, invalidation: real, distance: RiskDistance)

  function SpreadBps(book: OrderbookDepthSnapshot): Option<real> {
    if book.bids == [] || book.asks == [] || book.bids[0].price <= 0.0 then None
    else
      var mid := (book.bids[0].price + book.asks[0].price) / 2.0;
      if mid == 0.0 then None else Some((book.asks[0].price - book.bids[0].price) / mid * 10000.0)
  }

  /** The first referenced level, which must be a positive price. */
  function Anchor(m: Market): Option<real> {
    if m.referencedLevels == [] then None
    else if m.referencedLevels[0].None? || m.referencedLevels[0].value <= 0.0 then None
    else m.referencedLevels[0]
  }

  function DeriveEntryZone(i: Instrument, m: Market, s: RiskSettings): Result<EntryZone, PlanRejection> {
    if Anchor(m).None? then Err(ReferenceEntryUnavailable)
    else if !m.bboFresh || m.bestBid.None? || m.bestAsk.None? then Err(ReferenceEntryUnavailable)
    else if m.spreadBps.None? || m.spreadBps.value > 2.0 * s.maxEntryChaseBps then Err(ReferenceEntryUnavailable)
    else
      var anchor := Anchor(m).value;
      var executable := if m.bullish then m.bestAsk.value else m.bestBid.value;
      var chase := s.maxEntryChaseBps / 10000.0;
      if (if m.bullish then executable > anchor * (1.0 + chase) else executable < anchor * (1.0 - chase)) then
        Err(ReferenceEntryUnavailable)
      else
        Ok(ZoneAround(anchor, executable, m.bullish, TickSizeFor(i.priceDecimals, i.tickSize)))
  }

  function ZoneAround(anchor: real, executable: real, bullish: bool, tick: real): EntryZone
    requires tick > 0.0
  {
    var (low, high) := if executable < anchor then (executable, anchor) else (anchor, executable);
    EntryZone(RoundTo(low, tick, Down), RoundTo(high, tick, Up),
              RoundTo(executable, tick, if bullish then Up else Down))
  }

  function Buffer(anchor: real, atr: real, s: RiskSettings): real {
    anchor * s.invalidationBufferBps / 10000.0 + atr * s.invalidationBufferAtr
  }

  function InvalidationAt(anchor: real, buffer: real, bullish: bool, tick: real): real
    requires tick > 0.0
  {
    if bullish then RoundTo(anchor - buffer, tick, Down) else RoundTo(anchor + buffer, tick, Up)
  }

  function DeriveInvalidation(i: Instrument, m: Market, reference: real, s: RiskSettings): Result<real, PlanRejection> {
    if Anchor(m).None? || m.atr.None? || m.atr.value <= 0.0 then Err(InvalidationUnavailable)
    else
      var invalidation := InvalidationAt(Anchor(m).value, Buffer(Anchor(m).value, m.atr.value, s), m.bullish,
                                         TickSizeFor(i.priceDecimals, i.tickSize));
      if invalidation <= 0.0 then Err(InvalidationUnavailable)
      else if (if m.bullish then invalidation >= reference else invalidation <= reference) then
        Err(InvalidationWrongSide)
      else Ok(invalidation)
  }

  function ComputeRiskDistance(reference: real, invalidation: real, atr: Option<real>): RiskDistance {
    var absolute := if reference < invalidation then invalidation - reference else reference - invalidation;
    RiskDistance(absolute,
                 if reference > 0.0 then absolute / reference * 10000.0 else 0.0,
                 if atr.Some? && atr.value > 0.0 then Some(absolute / atr.value) else None)
  }

  /** validate_risk_distance: the rejection raised, if any. */
  function ValidateRiskDistance(d: RiskDistance, s: RiskSettings): Option<PlanRejection> {
    if d.absolute <= 0.0 then Some(InvalidationWrongSide)
    else if d.bps < s.minDistanceBps then Some(InvalidationTooClose)
    else if d.bps > s.maxDistanceBps then Some(InvalidationTooFar)
    else if d.atrMultiple.None? then Some(InvalidationUnavailable)
    else if d.atrMultiple.value < s.minDistanceAtr then Some(InvalidationTooClose)
    else if d.atrMultiple.value > s.maxDistanceAtr then Some(InvalidationTooFar)
    else None
  }

  function DeriveFrame(i: Instrument, m: Market, s: RiskSettings): Result<Frame, PlanRejection> {
    match DeriveEntryZone(i, m, s)
    case Err(e) => Err(e)
    case Ok(zone) =>
      match DeriveInvalidation(i, m, zone.reference, s)
      case Err(e) => Err(e)
      case Ok(invalidation) =>
        var distance := ComputeRiskDistance(zone.reference, invalidation, m.atr);
        var rejected := ValidateRiskDistance(distance, s);
        if rejected.Some? then Err(rejected.value) else Ok(Frame(zone, invalidation, distance))
  }

  // ---------------------------------------------------------------- where the prices lie

  lemma NeighbouringTicks(x: real, tick: real)
    requires tick > 0.0
    ensures var down, up := Ticks(x / tick, Down), Ticks(x / tick, Up);
            down <= up <= down + 1
  {
  }

  lemma GridStrict(a: int, b: int, tick: real)
    requires tick > 0.0 && OnGrid(a, tick) < OnGrid(b, tick)
    ensures a < b
  {
  }

  /** Prices on one tick grid: one strictly below a rounded-up price is not above it rounded down. */
  lemma BelowRoundedUp(x: real, y: real, tick: real)
    requires tick > 0.0 && RoundTo(x, tick, Down) < RoundTo(y, tick, Up)
    ensures RoundTo(x, tick, Down) <= RoundTo(y, tick, Down)
  {
    GridStrict(Ticks(x / tick, Down), Ticks(y / tick, Up), tick);
    NeighbouringTicks(y, tick);
    GridOrdered(Ticks(x / tick, Down), Ticks(y / tick, Down), tick);
  }

  lemma AboveRoundedDown(x: real, y: real, tick: real)
    requires tick > 0.0 && RoundTo(x, tick, Up) > RoundTo(y, tick, Down)
    ensures RoundTo(x, tick, Up) >= RoundTo(y, tick, Up)
  {
    GridStrict(Ticks(y / tick, Down), Ticks(x / tick, Up), tick);
    NeighbouringTicks(y, tick);
    GridOrdered(Ticks(y / tick, Up), Ticks(x / tick, Up), tick);
  }

  /** The zone holds the reference, and the invalidation lies beyond the zone on the adverse side. */
  predicate FrameOrdered(bullish: bool, f: Frame) {
    && f.zone.low <= f.zone.reference <= f.zone.high
    && f.distance.absolute > 0.0
    && if bullish then f.invalidation < f.zone.reference && f.invalidation <= f.zone.low
       else f.invalidation > f.zone.reference && f.invalidation >= f.zone.high
  }

  lemma ZoneHoldsReference(anchor: real, executable: real, bullish: bool, tick: real)
    requires tick > 0.0
    ensures var z := ZoneAround(anchor, executable, bullish, tick);
            z.low <= z.reference <= z.high
  {
    hide RoundTo;
    RoundingIsTight(anchor, tick, 0);
    RoundingIsTight(executable, tick, 0);
    var (low, high) := if executable < anchor then (executable, anchor) else (anchor, executable);
    RoundingKeepsOrder(low, executable, tick);
    RoundingKeepsOrder(executable, high, tick);
  }

  lemma InvalidationBeyondZone(anchor: real, executable: real, buffer: real, bullish: bool, tick: real)
    requires tick > 0.0 && buffer >= 0.0
    ensures var z := ZoneAround(anchor, executable, bullish, tick);
            var invalidation := InvalidationAt(anchor, buffer, bullish, tick);
            && (bullish && invalidation < z.reference ==> invalidation <= z.low)
            && (!bullish && invalidation > z.reference ==> invalidation >= z.high)
  {
    hide RoundTo;
    RoundingKeepsOrder(anchor - buffer, anchor, tick);
    RoundingKeepsOrder(anchor, anchor + buffer, tick);
    if bullish {
      if InvalidationAt(anchor, buffer, bullish, tick) < RoundTo(executable, tick, Up) {
        BelowRoundedUp(anchor - buffer, executable, tick);
      }
    } else {
      if InvalidationAt(anchor, buffer, bullish, tick) > RoundTo(executable, tick, Down) {
        AboveRoundedDown(anchor + buffer, executable, tick);
      }
    }
  }

  lemma FrameIsOrdered(i: Instrument, m: Market, s: RiskSettings)
    requires s.invalidationBufferBps >= 0.0 && s.invalidationBufferAtr >= 0.0
    ensures DeriveFrame(i, m, s).Ok? ==> FrameOrdered(m.bullish, DeriveFrame(i, m, s).value)
  {
    if DeriveFrame(i, m, s).Ok? {
      var anchor, tick := Anchor(m).value, TickSizeFor(i.priceDecimals, i.tickSize);
      var executable := if m.bullish then m.bestAsk.value else m.bestBid.value;
      var buffer := Buffer(anchor, m.atr.value, s);
      BufferNotNegative(anchor, m.atr.value, s);
      ZoneHoldsReference(anchor, executable, m.bullish, tick);
      InvalidationBeyondZone(anchor, executable, buffer, m.bullish, tick);
    }
  }

  lemma BufferNotNegative(anchor: real, atr: real, s: RiskSettings)
    requires anchor > 0.0 && atr > 0.0 && s.invalidationBufferBps >= 0.0 && s.invalidationBufferAtr >= 0.0
    ensures Buffer(anchor, atr, s) >= 0.0
  {
  }
}
