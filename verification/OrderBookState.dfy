/** The mutable order book object; every method is tied to the value it leaves behind. */
module OrderBookState {
  import opened Options
  import opened OrderBook

  datatype Side = Bid | Ask

  class OrderbookState {
    var initialized: bool
    var needsResync: bool
    var resyncCount: nat
    var sequenceGaps: nat
    var lastSequence: Option<int>
    var lastReliableUpdate: Option<int>
    var lastSnapshotAt: Option<int>
    var bids: Levels
    var asks: Levels

    function Value(): Book
      reads this
    {
      Book(initialized, needsResync, resyncCount, sequenceGaps, lastSequence, lastReliableUpdate,
           lastSnapshotAt, bids, asks)
    }

    constructor ()
      ensures Value() == FRESH_BOOK
    {
      initialized, needsResync, resyncCount, sequenceGaps := false, false, 0, 0;
      lastSequence, lastReliableUpdate, lastSnapshotAt := None, None, None;
      bids, asks := map[], map[];
    }

    method MarkUnreliable()
      modifies this
      ensures Value() == MarkedUnreliable(old(Value()))
    {
      if !needsResync {
        needsResync := true;
      }
    }

    method Reset()
      modifies this
      ensures Value() == ResetForResync(old(Value()))
    {
      bids, asks := map[], map[];
      initialized := false;
      lastSequence := None;
    }

    method IsCrossed() returns (crossed: bool)
      ensures crossed <==> Crossed(bids, asks)
    {
      var bid := Best(bids, Bid);
      var ask := Best(asks, Ask);
      crossed := bid.Some? && ask.Some? && ask.value.price < bid.value.price;
    }

    /** best_bid and best_ask: the extreme price of a side with its quantity. */
    static method Best(side: Levels, which: Side) returns (best: Option<Level>)
      ensures best.None? <==> side == map[]
      ensures best.Some? ==> best.value.price in side && side[best.value.price] == best.value.quantity
      ensures best.Some? ==> forall p | p in side ::
                  if which == Bid then p <= best.value.price else best.value.price <= p
    {
      if |side| == 0 {
        return None;
      }
      var first :| first in side.Items;
      var price, rest := first.0, side.Items - {first};
      while |rest| > 0
        invariant price in side && rest <= side.Items
        invariant forall p | p in side && (p, side[p]) !in rest :: if which == Bid then p <= price else price <= p
        decreases rest
      {
        var item :| item in rest;
        var p := item.0;
        rest := rest - {item};
        if (which == Bid && p > price) || (which == Ask && p < price) {
          price := p;
        }
      }
      assert forall p | p in side :: (p, side[p]) in side.Items;
      best := Some(Level(price, side[price]));
    }

    /** The dictionary comprehension of a snapshot side. */
    static method Filled(levels: seq<Level>) returns (side: Levels)
      ensures side == FromSnapshot(levels)
    {
      side := map[];
      for i := 0 to |levels|
        invariant side == FromSnapshot(levels[..i])
      {
        assert levels[..i + 1][..i] == levels[..i];
        if levels[i].quantity > 0.0 {
          side := side[levels[i].price := levels[i].quantity];
        }
      }
      assert levels[..|levels|] == levels;
    }

    /** The loop of a delta over one side. */
    static method Written(before: Levels, levels: seq<Level>) returns (side: Levels)
      ensures side == Overwritten(before, levels)
    {
      side := before;
      for i := 0 to |levels|
        invariant side == Overwritten(before, levels[..i])
      {
        assert levels[..i + 1][..i] == levels[..i];
        if levels[i].quantity == 0.0 {
          side := side - {levels[i].price};
        } else {
          side := side[levels[i].price := levels[i].quantity];
        }
      }
      assert levels[..|levels|] == levels;
    }

    method ApplySnapshot(m: Message) returns (ok: bool)
      modifies this
      ensures Value() == AfterSnapshot(old(Value()), m)
      ensures ok <==> Reliable(Value())
    {
      bids := Filled(m.bids);
      asks := Filled(m.asks);
      lastSequence := m.sequence;
      initialized := true;
      var wasResyncing := needsResync;
      needsResync := false;
      lastSnapshotAt := Some(m.ts);
      var crossed := IsCrossed();
      if crossed {
        MarkUnreliable();
        return false;
      }
      if wasResyncing {
        resyncCount := resyncCount + 1;
      }
      lastReliableUpdate := Some(m.ts);
      return true;
    }

    method ApplyDelta(m: Message) returns (ok: bool)
      modifies this
      ensures Value() == AfterDelta(old(Value()), m)
      ensures ok <==> Reliable(Value())
    {
      if !initialized {
        MarkUnreliable();
        return false;
      }
      if needsResync {
        return false;
      }
      if m.sequence.Some? && lastSequence.Some? {
        if m.sequence.value <= lastSequence.value {
          return true;
        }
        if m.sequence.value != lastSequence.value + 1 {
          sequenceGaps := sequenceGaps + 1;
          MarkUnreliable();
          return false;
        }
      }
      if m.sequence.Some? {
        lastSequence := m.sequence;
      }
      bids := Written(bids, m.bids);
      asks := Written(asks, m.asks);
      var crossed := IsCrossed();
      if crossed {
        MarkUnreliable();
        return false;
      }
      lastReliableUpdate := Some(m.ts);
      return true;
    }

    /** OrderbookManager.apply on this instrument's book: returns its reliability afterwards. */
    method Apply(m: Message) returns (ok: bool)
      modifies this
      ensures Value() == AfterMessage(old(Value()), m)
      ensures ok <==> Reliable(Value())
    {
      if m.isSnapshot {
        ok := ApplySnapshot(m);
      } else {
        ok := ApplyDelta(m);
      }
    }

    /** levels(side, count): the best count prices of a side, best first. */
    method TopLevels(which: Side, count: nat) returns (levels: seq<Level>)
      ensures IsTop(if which == Bid then bids else asks, which, levels)
      ensures var side := if which == Bid then bids else asks;
              |levels| == if |side| < count then |side| else count
    {
      hide IsTop, Prices;
      var side := if which == Bid then bids else asks;
      levels := [];
      NothingTaken(side, which);
      var rest := side;
      while |levels| < count && |rest| > 0
        invariant |levels| <= count && |levels| + |rest| == |side|
        invariant rest == side - Prices(levels)
        invariant IsTop(side, which, levels)
      {
        var best := Best(rest, which);
        OneMoreLevel(side, which, levels, rest, best.value);
        levels := levels + [best.value];
        rest := rest - {best.value.price};
      }
    }
  }

  predicate Better(which: Side, p: real, q: real) {
    if which == Bid then p > q else p < q
  }

  function Prices(levels: seq<Level>): set<real> {
    set l | l in levels :: l.price
  }

  predicate SortedSide(which: Side, levels: seq<Level>) {
    forall i, j | 0 <= i < j < |levels| :: Better(which, levels[i].price, levels[j].price)
  }

  /** Best first, with the side's own quantities, and everything left out is worse. */
  predicate IsTop(side: Levels, which: Side, levels: seq<Level>) {
    && SortedSide(which, levels)
    && (forall l | l in levels :: l.price in side && side[l.price] == l.quantity)
    && forall l, p | l in levels && p in side && p !in Prices(levels) :: Better(which, l.price, p)
  }

  lemma NothingTaken(side: Levels, which: Side)
    ensures IsTop(side, which, []) && side - Prices([]) == side
  {
  }

  lemma OneMoreLevel(side: Levels, which: Side, levels: seq<Level>, rest: Levels, best: Level)
    requires IsTop(side, which, levels) && rest == side - Prices(levels)
    requires best.price in rest && rest[best.price] == best.quantity
    requires forall p | p in rest :: if which == Bid then p <= best.price else best.price <= p
    ensures IsTop(side, which, levels + [best])
    ensures rest - {best.price} == side - Prices(levels + [best])
    ensures |rest - {best.price}| == |rest| - 1
  {
    var more := levels + [best];
    PricesGrow(levels, best);
    assert rest.Keys == (rest - {best.price}).Keys + {best.price};
    forall i, j | 0 <= i < j < |more|
      ensures Better(which, more[i].price, more[j].price)
    {
      assert levels[i] in levels;
    }
    forall l, p | l in more && p in side && p !in Prices(more)
      ensures Better(which, l.price, p)
    {
      assert p in rest;
    }
  }

  lemma PricesGrow(levels: seq<Level>, best: Level)
    ensures Prices(levels + [best]) == Prices(levels) + {best.price}
  {
  }
}
