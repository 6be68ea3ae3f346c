/** Walking one side of the book for a hypothetical quantity (app/costs/orderbook_vwap.py). */
module Vwap {
  import opened Arithmetic
  import opened Options
  import opened OrderBook
  import opened OrderBookState
  import opened Depth

  /** The remainder at or below which a walk counts as complete. */
  const DUST := 0.000000000001

  const BPS := 10000.0

  datatype VwapResult = VwapResult(
    requested: real,
    filled: real,
    unfilled: real,
    vwapPrice: Option<real>,
    referencePrice: Option<real>,
    slippageAbs: Option<real>,
    slippageBps: Option<real>,
    levelsConsumed: nat)

  predicate FullyFilled(v: VwapResult) {
    v.unfilled <= 0.0 && v.vwapPrice.Some?
  }

  predicate WithinDistance(price: real, reference: real, maxDistanceBps: real) {
    reference > 0.0 && Abs(price - reference) / reference * BPS <= maxDistanceBps
  }

  function First(levels: seq<Level>, count: nat): seq<Level> {
    if |levels| < count then levels else levels[..count]
  }

  /** The levels before the first one outside the window. */
  function InWindow(levels: seq<Level>, reference: real, maxDistanceBps: real): seq<Level> {
    if levels == [] || !WithinDistance(levels[0].price, reference, maxDistanceBps) then []
    else [levels[0]] + InWindow(levels[1..], reference, maxDistanceBps)
  }

  /** What a walk takes from each level, in order. */
  function Takes(levels: seq<Level>, remaining: real): (takes: seq<real>)
    ensures |takes| == |levels|
  {
    if levels == [] then []
    else
      var take := Min(remaining, levels[0].quantity);
      if take <= 0.0 then [0.0] + Takes(levels[1..], remaining)
      else if remaining - take <= DUST then [take] + Nothing(levels[1..])
      else [take] + Takes(levels[1..], remaining - take)
  }

  function Nothing(levels: seq<Level>): (takes: seq<real>)
    ensures |takes| == |levels|
  {
    seq(|levels|, _ => 0.0)
  }

  function Sum(takes: seq<real>): real {
    if takes == [] then 0.0 else takes[0] + Sum(takes[1..])
  }

  function Consumed(takes: seq<real>): nat {
    if takes == [] then 0 else (if takes[0] > 0.0 then 1 else 0) + Consumed(takes[1..])
  }

  function Notional(levels: seq<Level>, takes: seq<real>): real
    requires |takes| == |levels|
  {
    if takes == [] then 0.0 else takes[0] * levels[0].price + Notional(levels[1..], takes[1..])
  }

  function Settled(remaining: real): real {
    if remaining <= DUST then 0.0 else remaining
  }

  function SideLevels(book: OrderbookDepthSnapshot, which: Side): seq<Level> {
    if which == Ask then book.asks else book.bids
  }

  /** The levels a walk may use. */
  function Eligible(levels: seq<Level>, maxLevels: nat, maxDistanceBps: real): seq<Level>
    requires levels != []
  {
    InWindow(First(levels, maxLevels), levels[0].price, maxDistanceBps)
  }

  /** The result for given totals. */
  function Priced(quantity: real, filled: real, unfilled: real, notional: real, reference: real,
                  consumed: nat): VwapResult {
    var vwap := if filled > 0.0 then Some(notional / filled) else None;
    var slippage := if vwap.Some? && reference > 0.0 then Some(Abs(vwap.value - reference)) else None;
    VwapResult(quantity, filled, unfilled, vwap, Some(reference), slippage,
               if slippage.Some? then Some(slippage.value / reference * BPS) else None, consumed)
  }

  function Walked(book: OrderbookDepthSnapshot, which: Side, quantity: real, maxLevels: nat, maxDistanceBps: real)
    : VwapResult
  {
    var levels := SideLevels(book, which);
    if quantity <= 0.0 then
      VwapResult(quantity, 0.0, 0.0, None, None, None, None, 0)
    else if !book.isFresh || levels == [] then
      VwapResult(quantity, 0.0, quantity, None, if levels == [] then None else Some(levels[0].price), None, None, 0)
    else
      var eligible := Eligible(levels, maxLevels, maxDistanceBps);
      var takes := Takes(eligible, quantity);
      var filled := Sum(takes);
      Priced(quantity, filled, if filled > 0.0 then Settled(quantity - filled) else quantity,
             Notional(eligible, takes), levels[0].price, Consumed(takes))
  }

  lemma {:induction false} NothingTakes(levels: seq<Level>)
    ensures Sum(Nothing(levels)) == 0.0 && Notional(levels, Nothing(levels)) == 0.0
    ensures Consumed(Nothing(levels)) == 0
  {
    if levels != [] {
      assert Nothing(levels)[1..] == Nothing(levels[1..]);
      NothingTakes(levels[1..]);
    }
  }

  /** What a walk still has to do: totals so far plus the rest of the levels. */
  ghost predicate Totals(levels: seq<Level>, quantity: real, rest: seq<Level>,
                         remaining: real, filled: real, notional: real, consumed: nat) {
    var takes, more := Takes(levels, quantity), Takes(rest, remaining);
    && Sum(takes) == filled + Sum(more)
    && Notional(levels, takes) == notional + Notional(rest, more)
    && Consumed(takes) == consumed + Consumed(more)
  }

  lemma FirstTake(take: real, levels: seq<Level>, takes: seq<real>)
    requires |levels| == |takes| + 1
    ensures Sum([take] + takes) == take + Sum(takes)
    ensures Notional(levels, [take] + takes) == take * levels[0].price + Notional(levels[1..], takes)
    ensures Consumed([take] + takes) == (if take > 0.0 then 1 else 0) + Consumed(takes)
  {
  }

  /** The first level's share of what the rest of a walk takes. */
  lemma RestSplits(rest: seq<Level>, remaining: real)
    requires rest != []
    ensures var takes, take := Takes(rest, remaining), Min(remaining, rest[0].quantity);
            var after := Takes(rest[1..], remaining - take);
            if take <= 0.0 then SameTotals(rest, takes, rest[1..], Takes(rest[1..], remaining))
            else if remaining - take <= DUST then Finished(rest, takes, take, take * rest[0].price, 1)
            else Adds(rest, takes, take, rest[0].price, rest[1..], after)
  {
    var take := Min(remaining, rest[0].quantity);
    if take <= 0.0 {
      FirstTake(0.0, rest, Takes(rest[1..], remaining));
    } else if remaining - take <= DUST {
      FirstTake(take, rest, Nothing(rest[1..]));
      NothingTakes(rest[1..]);
    } else {
      FirstTake(take, rest, Takes(rest[1..], remaining - take));
    }
  }

  ghost predicate SameTotals(levels: seq<Level>, takes: seq<real>, rest: seq<Level>, more: seq<real>)
    requires |levels| == |takes| && |rest| == |more|
  {
    Sum(takes) == Sum(more) && Notional(levels, takes) == Notional(rest, more) && Consumed(takes) == Consumed(more)
  }

  ghost predicate Adds(levels: seq<Level>, takes: seq<real>, take: real, price: real, rest: seq<Level>, more: seq<real>)
    requires |levels| == |takes| && |rest| == |more|
  {
    && Sum(takes) == take + Sum(more)
    && Notional(levels, takes) == take * price + Notional(rest, more)
    && Consumed(takes) == 1 + Consumed(more)
  }

  ghost predicate Finished(levels: seq<Level>, takes: seq<real>, filled: real, notional: real, consumed: nat)
    requires |levels| == |takes|
  {
    Sum(takes) == filled && Notional(levels, takes) == notional && Consumed(takes) == consumed
  }

  lemma LevelTaken(levels: seq<Level>, quantity: real, rest: seq<Level>,
                   remaining: real, filled: real, notional: real, consumed: nat)
    requires rest != [] && Totals(levels, quantity, rest, remaining, filled, notional, consumed)
    ensures var take := Min(remaining, rest[0].quantity);
            if take <= 0.0 then Totals(levels, quantity, rest[1..], remaining, filled, notional, consumed)
            else if remaining - take > DUST then
              Totals(levels, quantity, rest[1..], remaining - take, filled + take,
                     notional + take * rest[0].price, consumed + 1)
            else
              Finished(levels, Takes(levels, quantity), filled + take, notional + take * rest[0].price, consumed + 1)
  {
    hide Takes, Sum, Notional, Consumed;
    RestSplits(rest, remaining);
  }

  lemma AllTaken(levels: seq<Level>, quantity: real, remaining: real, filled: real, notional: real, consumed: nat)
    requires Totals(levels, quantity, [], remaining, filled, notional, consumed)
    ensures Finished(levels, Takes(levels, quantity), filled, notional, consumed)
  {
  }

  lemma NothingTakenYet(levels: seq<Level>, quantity: real)
    ensures Totals(levels, quantity, levels, quantity, 0.0, 0.0, 0)
  {
  }

  /** The loop over the levels. */
  method WalkLevels(levels: seq<Level>, reference: real, quantity: real, maxDistanceBps: real)
    returns (filled: real, unfilled: real, notional: real, consumed: nat)
    requires quantity > 0.0
    ensures var eligible := InWindow(levels, reference, maxDistanceBps);
            Finished(eligible, Takes(eligible, quantity), filled, notional, consumed)
    ensures unfilled == if filled > 0.0 then Settled(quantity - filled) else quantity
  {
    hide Takes, Sum, Notional, Consumed, WithinDistance;
    ghost var eligible := InWindow(levels, reference, maxDistanceBps);
    ghost var rest := eligible;
    filled, unfilled, notional, consumed := 0.0, quantity, 0.0, 0;
    NothingTakenYet(eligible, quantity);
    var i := 0;
    while i < |levels| && WithinDistance(levels[i].price, reference, maxDistanceBps)
      invariant 0 <= i <= |levels| && rest == InWindow(levels[i..], reference, maxDistanceBps)
      invariant Totals(eligible, quantity, rest, unfilled, filled, notional, consumed)
      invariant unfilled == quantity - filled && filled >= 0.0
      invariant filled > 0.0 ==> unfilled > DUST
    {
      LevelTaken(eligible, quantity, rest, unfilled, filled, notional, consumed);
      var level := levels[i];
      assert levels[i..][1..] == levels[i + 1..] && rest[0] == level;
      rest, i := rest[1..], i + 1;
      var take := Min(unfilled, level.quantity);
      if take <= 0.0 {
        continue;
      }
      notional, filled := notional + take * level.price, filled + take;
      unfilled, consumed := unfilled - take, consumed + 1;
      if unfilled <= DUST {
        unfilled := 0.0;
        return;
      }
    }
    AllTaken(eligible, quantity, unfilled, filled, notional, consumed);
  }

  method WalkBook(book: OrderbookDepthSnapshot, which: Side, quantity: real, maxLevels: nat, maxDistanceBps: real)
    returns (v: VwapResult)
    ensures v == Walked(book, which, quantity, maxLevels, maxDistanceBps)
  {
    var levels := if which == Ask then book.asks else book.bids;
    if quantity <= 0.0 {
      return VwapResult(quantity, 0.0, 0.0, None, None, None, None, 0);
    }
    if !book.isFresh || levels == [] {
      var reference := if levels == [] then None else Some(levels[0].price);
      return VwapResult(quantity, 0.0, quantity, None, reference, None, None, 0);
    }
    var reference := levels[0].price;
    var filled, unfilled, notional, consumed :=
      WalkLevels(First(levels, maxLevels), reference, quantity, maxDistanceBps);
    v := Priced(quantity, filled, unfilled, notional, reference, consumed);
  }
}
