/** The price a leg is estimated at, from the levels its walk of the book takes. */
module ExecutionPrices {
  import opened Arithmetic
  import opened Options
  import opened OrderBook
  import opened OrderBookState
  import opened Depth
  import opened Vwap
  import opened WalkProperties
  import opened CostModel

  /** The side a leg trades on: opening a long and closing a short buys, from the asks. */
  predicate Buying(leg: Leg, bullish: bool) {
    (leg == Entry) == bullish
  }

  function SideTaken(book: OrderbookDepthSnapshot, buying: bool): seq<Level> {
    if buying then book.asks else book.bids
  }

  /** The stress setting of a leg; a plain stop carries the smaller of two. */
  function Stress(s: CostSettings, leg: Leg, mode: ExecutionMode): real {
    if leg == Entry then s.entryStressBps
    else if leg == Target then s.targetStressBps
    else if mode == StopStressTaker || s.invalidationStressBps <= s.entryStressBps then s.invalidationStressBps
    else s.entryStressBps
  }

  /** Average over best price, and the stress on top, in the direction that hurts. */
  predicate PricedAt(price: real, reference: real, buying: bool, average: real, best: real, stressBps: real) {
    && best > 0.0
    && price == reference * (average / best + if buying then stressBps / 10000.0 else -stressBps / 10000.0)
  }

  /** A leg estimate by the takes of its walk: price, slippage and fee for each unit traded. */
  ghost predicate PricedFromWalk(e: LegEstimate, leg: Leg, mode: ExecutionMode, bullish: bool, quantity: real,
                                 book: OrderbookDepthSnapshot, schedule: FeeSchedule, s: CostSettings) {
    var buying := Buying(leg, bullish);
    var levels := SideTaken(book, buying);
    && book.isFresh && levels != [] && quantity > 0.0
    && var eligible := Eligible(levels, s.orderbookMaxLevels, s.orderbookMaxDistanceBps);
    && var takes := Takes(eligible, quantity);
    && Sum(takes) > 0.0 && TotalQuantity(eligible) >= quantity - 0.000000000001
    && PricedAt(e.executionPrice, e.referencePrice, buying, Average(eligible, takes), levels[0].price,
                Stress(s, leg, mode))
    && Charged(e, mode, quantity, schedule)
  }

  /** A fee is charged on what really trades, maker or taker by the mode. */
  lemma FeeMeans(schedule: FeeSchedule, mode: ExecutionMode, price: real, quantity: real)
    ensures FeeCost(schedule, mode, price, quantity)
         == if price <= 0.0 || quantity <= 0.0 then 0.0
            else if mode in {EntryMaker, TargetMaker} then schedule.makerFeeRate * price * quantity
            else schedule.takerFeeRate * price * quantity
  {
  }

  /** The charges on a quantity that trades at the execution price. */
  predicate Charged(e: LegEstimate, mode: ExecutionMode, quantity: real, schedule: FeeSchedule) {
    && e.slippageCost == Abs(e.executionPrice - e.referencePrice) * quantity
    && e.feeCost == (if mode in {EntryMaker, TargetMaker} then schedule.makerFeeRate else schedule.takerFeeRate)
                    * e.executionPrice * quantity
    && e.notional == e.executionPrice * quantity
  }

  /** What a walk pays or receives for each unit it takes. */
  function Average(levels: seq<Level>, takes: seq<real>): real
    requires |levels| == |takes| && Sum(takes) > 0.0
  {
    Notional(levels, takes) / Sum(takes)
  }

  /** How far an average is from the best price, in basis points. */
  function DepthBps(which: Side, average: real, best: real): real
    requires best > 0.0
  {
    if which == Ask then (average - best) / best * BPS else (best - average) / best * BPS
  }

  lemma Divides(x: real, y: real, z: real)
    requires y > 0.0 && x == z * y
    ensures x / y == z
  {
  }

  lemma RelativeMove(average: real, best: real)
    requires best > 0.0
    ensures (average - best) / best == average / best - 1.0
    ensures (best - average) / best == 1.0 - average / best
  {
    var ratio := average / best;
    assert ratio * best == average;
    assert (ratio - 1.0) * best == average - best && (1.0 - ratio) * best == best - average;
    Divides(average - best, best, ratio - 1.0);
    Divides(best - average, best, 1.0 - ratio);
  }

  lemma PriceOfDepth(reference: real, average: real, best: real, stress: real)
    requires best > 0.0
    ensures ExecutionPrice(reference, 1.0, (average - best) / best * BPS + stress)
         == reference * (average / best + stress / 10000.0)
    ensures ExecutionPrice(reference, -1.0, (best - average) / best * BPS + stress)
         == reference * (average / best - stress / 10000.0)
  {
    RelativeMove(average, best);
    var ratio := average / best;
    SameFactor(ratio, stress);
  }

  lemma SameFactor(ratio: real, stress: real)
    ensures 1.0 + 1.0 * ((ratio - 1.0) * BPS + stress) / BPS == ratio + stress / 10000.0
    ensures 1.0 + -1.0 * ((1.0 - ratio) * BPS + stress) / BPS == ratio - stress / 10000.0
  {
  }

  /** The walk's penalty is how far its average is from the best price. */
  lemma DepthOfWalk(book: OrderbookDepthSnapshot, which: Side, quantity: real, maxLevels: nat, maxDistanceBps: real)
    requires book.isFresh && Walkable(book) && SideLevels(book, which) != [] && quantity > 0.0
    requires FullyFilled(Walked(book, which, quantity, maxLevels, maxDistanceBps))
    ensures var levels := SideLevels(book, which);
            var eligible := Eligible(levels, maxLevels, maxDistanceBps);
            var takes := Takes(eligible, quantity);
            var v := Walked(book, which, quantity, maxLevels, maxDistanceBps);
            && Sum(takes) > 0.0 && levels[0].price > 0.0 && TotalQuantity(eligible) >= quantity - 0.000000000001
            && v.slippageBps == Some(DepthBps(which, Average(eligible, takes), levels[0].price))
  {
    var levels := SideLevels(book, which);
    var eligible := Eligible(levels, maxLevels, maxDistanceBps);
    var takes := Takes(eligible, quantity);
    hide Walked, Eligible, Takes, Sum, Notional, Weighed, TotalQuantity, FullyFilled;
    FullyFilledExactlyWhen(book, which, quantity, maxLevels, maxDistanceBps);
    SlippageOfWalk(book, which, quantity, maxLevels, maxDistanceBps);
    WeighedIsNotional(which, eligible, takes);
    TurnedAverage(which, Notional(eligible, takes), Sum(takes));
  }

  /** Every estimate of a leg on a walkable book is priced from its walk. */
  lemma LegIsPricedFromWalk(leg: Leg, mode: ExecutionMode, bullish: bool, reference: real, quantity: real,
                            book: OrderbookDepthSnapshot, schedule: FeeSchedule, s: CostSettings)
    requires Walkable(book) && EstimateLeg(leg, mode, bullish, reference, quantity, book, schedule, s).Ok?
    ensures var e := EstimateLeg(leg, mode, bullish, reference, quantity, book, schedule, s).value;
            e.referencePrice == reference && PricedFromWalk(e, leg, mode, bullish, quantity, book, schedule, s)
  {
    var which := SideFor(leg, bullish);
    var levels := SideLevels(book, which);
    var e := EstimateLeg(leg, mode, bullish, reference, quantity, book, schedule, s).value;
    LegParts(leg, mode, bullish, reference, quantity, book, schedule, s);
    UnfilledWithoutBook(book, which, quantity, s.orderbookMaxLevels, s.orderbookMaxDistanceBps);
    DepthOfWalk(book, which, quantity, s.orderbookMaxLevels, s.orderbookMaxDistanceBps);
    hide Walked, Eligible, Takes, Sum, Average, DepthBps, TotalQuantity, FullyFilled, Walkable, EstimateLeg,
         ExecutionPrice, PricedAt, Stress, Charged;
    assert levels == SideTaken(book, Buying(leg, bullish)) && (which == Ask <==> Buying(leg, bullish));
    var eligible := Eligible(levels, s.orderbookMaxLevels, s.orderbookMaxDistanceBps);
    PricedFromDepth(e, Buying(leg, bullish), Average(eligible, Takes(eligible, quantity)), levels[0].price,
                    Stress(s, leg, mode));
  }

  lemma PricedFromDepth(e: LegEstimate, buying: bool, average: real, best: real, stress: real)
    requires best > 0.0
    requires e.executionPrice
          == ExecutionPrice(e.referencePrice, if buying then 1.0 else -1.0,
                            DepthBps(if buying then Ask else Bid, average, best) + stress)
    ensures PricedAt(e.executionPrice, e.referencePrice, buying, average, best, stress)
  {
    PriceOfDepth(e.referencePrice, average, best, stress);
    hide ExecutionPrice;
  }

  lemma LegParts(leg: Leg, mode: ExecutionMode, bullish: bool, reference: real, quantity: real,
                 book: OrderbookDepthSnapshot, schedule: FeeSchedule, s: CostSettings)
    requires EstimateLeg(leg, mode, bullish, reference, quantity, book, schedule, s).Ok?
    ensures var e := EstimateLeg(leg, mode, bullish, reference, quantity, book, schedule, s).value;
            var v := Walked(book, SideFor(leg, bullish), quantity, s.orderbookMaxLevels, s.orderbookMaxDistanceBps);
            && FullyFilled(v) && quantity > 0.0 && e.referencePrice == reference
            && (v.slippageBps.Some? ==>
                  e.executionPrice == ExecutionPrice(reference, if Buying(leg, bullish) then 1.0 else -1.0,
                                                     v.slippageBps.value + Stress(s, leg, mode)))
            && Charged(e, mode, quantity, schedule)
  {
    hide Walked, FullyFilled, ExecutionPrice, Abs;
  }

  lemma UnfilledWithoutBook(book: OrderbookDepthSnapshot, which: Side, quantity: real, maxLevels: nat,
                            maxDistanceBps: real)
    ensures FullyFilled(Walked(book, which, quantity, maxLevels, maxDistanceBps)) ==>
              book.isFresh && SideLevels(book, which) != [] && quantity > 0.0
  {
  }

  // ---------------------------------------------------------------- which legs can be priced

  /** A fresh book whose eligible levels hold the quantity, on the side the leg trades on. */
  ghost predicate Fillable(leg: Leg, bullish: bool, quantity: real, book: OrderbookDepthSnapshot, s: CostSettings) {
    var levels := SideTaken(book, Buying(leg, bullish));
    && quantity > 0.0 && book.isFresh && levels != [] && levels[0].price > 0.0
    && var eligible := Eligible(levels, s.orderbookMaxLevels, s.orderbookMaxDistanceBps);
       eligible != [] && TotalQuantity(eligible) >= quantity - 0.000000000001 && Sum(Takes(eligible, quantity)) > 0.0
  }

  /** What a leg needs: the model enabled, a book that fills it, and a price above zero. */
  ghost predicate Priceable(leg: Leg, mode: ExecutionMode, bullish: bool, reference: real, quantity: real,
                            book: OrderbookDepthSnapshot, s: CostSettings) {
    && s.slippageEnabled && reference > 0.0 && Fillable(leg, bullish, quantity, book, s)
    && (Buying(leg, bullish) || BidsAbove(book, quantity, s, Stress(s, leg, mode)))
  }

  /** The average bid of a walk, relative to the best, stays above the stress. */
  ghost predicate BidsAbove(book: OrderbookDepthSnapshot, quantity: real, s: CostSettings, stressBps: real) {
    && book.bids != [] && book.bids[0].price > 0.0
    && var eligible := Eligible(book.bids, s.orderbookMaxLevels, s.orderbookMaxDistanceBps);
       && Sum(Takes(eligible, quantity)) > 0.0
       && Average(eligible, Takes(eligible, quantity)) / book.bids[0].price > stressBps / 10000.0
  }

  lemma SignOfPrice(price: real, reference: real, buying: bool, average: real, best: real, stress: real)
    requires PricedAt(price, reference, buying, average, best, stress) && reference > 0.0
    ensures !buying ==> (price > 0.0 <==> average / best > stress / 10000.0)
  {
    var factor := average / best - stress / 10000.0;
    assert !buying ==> price == reference * factor;
  }

  /** A leg is priced exactly when it can be; otherwise the refusal says what is missing first. */
  lemma LegIsPricedExactlyWhen(leg: Leg, mode: ExecutionMode, bullish: bool, reference: real, quantity: real,
                               book: OrderbookDepthSnapshot, schedule: FeeSchedule, s: CostSettings)
    requires Walkable(book) && ValidCostSettings(s)
    ensures var e := EstimateLeg(leg, mode, bullish, reference, quantity, book, schedule, s);
            && (e.Ok? <==> Priceable(leg, mode, bullish, reference, quantity, book, s))
            && (e.Err? ==>
                  e.error == if !s.slippageEnabled || reference <= 0.0 || quantity <= 0.0 then SlippageModelUnavailable
                             else if s.requireFreshOrderbook && !book.isFresh then OrderbookNotFresh
                             else if !Fillable(leg, bullish, quantity, book, s) then OrderbookDepthInsufficient
                             else SlippageModelUnavailable)
  {
    var which := SideFor(leg, bullish);
    var levels := SideLevels(book, which);
    var v := Walked(book, which, quantity, s.orderbookMaxLevels, s.orderbookMaxDistanceBps);
    assert levels == SideTaken(book, Buying(leg, bullish));
    UnfilledWithoutBook(book, which, quantity, s.orderbookMaxLevels, s.orderbookMaxDistanceBps);
    PriceIs(leg, mode, bullish, reference, quantity, book, schedule, s);
    hide Walked, Eligible, Takes, Sum, Average, TotalQuantity, FullyFilled, Walkable, EstimateLeg, ExecutionPrice,
         Stress, ValidCostSettings;
    if book.isFresh && levels != [] && quantity > 0.0 {
      FullyFilledExactlyWhen(book, which, quantity, s.orderbookMaxLevels, s.orderbookMaxDistanceBps);
      if FullyFilled(v) && reference > 0.0 {
        PriceOfWalk(leg, mode, bullish, reference, quantity, book, s);
      }
    }
  }

  /** When an estimate is made at all, in terms of the walk. */
  lemma PriceIs(leg: Leg, mode: ExecutionMode, bullish: bool, reference: real, quantity: real,
                book: OrderbookDepthSnapshot, schedule: FeeSchedule, s: CostSettings)
    ensures var e := EstimateLeg(leg, mode, bullish, reference, quantity, book, schedule, s);
            var v := Walked(book, SideFor(leg, bullish), quantity, s.orderbookMaxLevels, s.orderbookMaxDistanceBps);
            var sign := if Buying(leg, bullish) then 1.0 else -1.0;
            var depth := if v.slippageBps.Some? then v.slippageBps.value else 0.0;
            && (e.Ok? <==>
                  && s.slippageEnabled && reference > 0.0 && quantity > 0.0
                  && (s.requireFreshOrderbook ==> book.isFresh) && FullyFilled(v)
                  && ExecutionPrice(reference, sign, depth + Stress(s, leg, mode)) > 0.0)
            && (e.Err? ==>
                  e.error == if !s.slippageEnabled || reference <= 0.0 || quantity <= 0.0 then SlippageModelUnavailable
                             else if s.requireFreshOrderbook && !book.isFresh then OrderbookNotFresh
                             else if !FullyFilled(v) then OrderbookDepthInsufficient
                             else SlippageModelUnavailable)
  {
    hide Walked, FullyFilled, ExecutionPrice;
  }

  lemma PriceOfWalk(leg: Leg, mode: ExecutionMode, bullish: bool, reference: real, quantity: real,
                    book: OrderbookDepthSnapshot, s: CostSettings)
    requires Walkable(book) && ValidCostSettings(s) && book.isFresh && quantity > 0.0 && reference > 0.0
    requires SideTaken(book, Buying(leg, bullish)) != []
    requires FullyFilled(Walked(book, SideFor(leg, bullish), quantity, s.orderbookMaxLevels, s.orderbookMaxDistanceBps))
    ensures var buying := Buying(leg, bullish);
            var levels := SideTaken(book, buying);
            var eligible := Eligible(levels, s.orderbookMaxLevels, s.orderbookMaxDistanceBps);
            var takes := Takes(eligible, quantity);
            var v := Walked(book, SideFor(leg, bullish), quantity, s.orderbookMaxLevels, s.orderbookMaxDistanceBps);
            && v.slippageBps.Some? && Sum(takes) > 0.0 && levels[0].price > 0.0
            && (ExecutionPrice(reference, if buying then 1.0 else -1.0,
                               v.slippageBps.value + Stress(s, leg, mode)) > 0.0
                <==> buying || BidsAbove(book, quantity, s, Stress(s, leg, mode)))
  {
    var which, buying := SideFor(leg, bullish), Buying(leg, bullish);
    var levels := SideLevels(book, which);
    DepthOfWalk(book, which, quantity, s.orderbookMaxLevels, s.orderbookMaxDistanceBps);
    SlippageNotNegative(book, which, quantity, s.orderbookMaxLevels, s.orderbookMaxDistanceBps);
    var v := Walked(book, which, quantity, s.orderbookMaxLevels, s.orderbookMaxDistanceBps);
    assert levels == SideTaken(book, buying) && (which == Ask <==> buying) && Stress(s, leg, mode) >= 0.0;
    hide Walked, Eligible, Takes, Sum, Average, DepthBps, TotalQuantity, FullyFilled, Walkable, ExecutionPrice, Stress;
    var eligible := Eligible(levels, s.orderbookMaxLevels, s.orderbookMaxDistanceBps);
    var average := Average(eligible, Takes(eligible, quantity));
    var price := ExecutionPrice(reference, if buying then 1.0 else -1.0, v.slippageBps.value + Stress(s, leg, mode));
    WorseByBps(reference, 1.0, v.slippageBps.value + Stress(s, leg, mode));
    var e := LegEstimate(reference, price, 0.0, 0.0, 0.0, 0.0);
    PricedFromDepth(e, buying, average, levels[0].price, Stress(s, leg, mode));
    SignOfPrice(price, reference, buying, average, levels[0].price, Stress(s, leg, mode));
  }

  // ---------------------------------------------------------------- a book with depth

  const TWO_LEVELS :=
    OrderbookDepthSnapshot([Level(999.5, 10.0)], [Level(1000.0, 1.0), Level(1001.0, 10.0)], true, None)

  /** The walk of two units takes one from each level. */
  lemma TwoUnits(levels: seq<Level>)
    requires levels == TWO_LEVELS.asks
    ensures Eligible(levels, 25, 50.0) == levels
    ensures Takes(levels, 1.0) == [1.0, 0.0] && Takes(levels, 2.0) == [1.0, 1.0]
    ensures Sum([1.0, 0.0]) == 1.0 && Notional(levels, [1.0, 0.0]) == 1000.0
    ensures Sum([1.0, 1.0]) == 2.0 && Notional(levels, [1.0, 1.0]) == 2001.0
    ensures TotalQuantity(levels) == 11.0
  {
    var second := [levels[1]];
    assert levels[1..] == second && second[1..] == [];
    assert First(levels, 25) == levels;
    assert WithinDistance(1001.0, 1000.0, 50.0);
    assert InWindow(second, 1000.0, 50.0) == second + InWindow([], 1000.0, 50.0);
    assert InWindow(levels, 1000.0, 50.0) == [levels[0]] + InWindow(second, 1000.0, 50.0);
    assert Takes(second, 1.0) == [1.0] + Nothing(second[1..]);
    assert Takes(second, 1.0) == [1.0];
    assert Takes(levels, 1.0) == [1.0] + Nothing(second);
    assert Nothing(second) == [0.0];
    assert [1.0, 0.0][1..] == [0.0] && [1.0, 1.0][1..] == [1.0] && [0.0][1..] == [] && [1.0][1..] == [];
    assert Sum([0.0]) == 0.0 + Sum([]) && Sum([1.0]) == 1.0 + Sum([]);
    assert Notional(second, [0.0]) == 0.0 * 1001.0 + Notional([], []);
    assert Notional(second, [1.0]) == 1.0 * 1001.0 + Notional([], []);
    assert TotalQuantity(second) == 10.0 + TotalQuantity([]);
  }

  /**
   * A taker entry of a long with 2 bps of stress: one unit at 1000.2, two units at 1000.7, because the second unit
   * comes from the next level.
   */
  lemma DeeperIsDearer(schedule: FeeSchedule, s: CostSettings)
    requires ValidCostSettings(s) && s.slippageEnabled && s.entryStressBps == 2.0
    requires s.orderbookMaxLevels == 25 && s.orderbookMaxDistanceBps == 50.0
    ensures var one := EstimateLeg(Entry, EntryTaker, true, 1000.0, 1.0, TWO_LEVELS, schedule, s);
            var two := EstimateLeg(Entry, EntryTaker, true, 1000.0, 2.0, TWO_LEVELS, schedule, s);
            && one.Ok? && one.value.executionPrice == 1000.2
            && two.Ok? && two.value.executionPrice == 1000.7
  {
    TwoUnits(TWO_LEVELS.asks);
    assert Walkable(TWO_LEVELS);
    assert SideTaken(TWO_LEVELS, Buying(Entry, true)) == TWO_LEVELS.asks;
    hide Walked, Eligible, Takes, Sum, Notional, TotalQuantity, Walkable, EstimateLeg;
    LegIsPricedExactlyWhen(Entry, EntryTaker, true, 1000.0, 1.0, TWO_LEVELS, schedule, s);
    LegIsPricedExactlyWhen(Entry, EntryTaker, true, 1000.0, 2.0, TWO_LEVELS, schedule, s);
    LegIsPricedFromWalk(Entry, EntryTaker, true, 1000.0, 1.0, TWO_LEVELS, schedule, s);
    LegIsPricedFromWalk(Entry, EntryTaker, true, 1000.0, 2.0, TWO_LEVELS, schedule, s);
  }
}
