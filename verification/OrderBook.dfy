/** The order book of one instrument as a value, and what each message does to it (app/data/orderbook_service.py). */
module OrderBook {
  import opened Options

  datatype Level = Level(price: real, quantity: real)

  type Levels = map<real, real>

  datatype Message = Message(isSnapshot: bool, bids: seq<Level>, asks: seq<Level>, ts: int, sequence: Option<int>)

  datatype Book = Book(
    initialized: bool,
    needsResync: bool,
    resyncCount: nat,
    sequenceGaps: nat,
    lastSequence: Option<int>,
    lastReliableUpdate: Option<int>,
    lastSnapshotAt: Option<int>,
    bids: Levels,
    asks: Levels)

  const FRESH_BOOK := Book(false, false, 0, 0, None, None, None, map[], map[])

  predicate Reliable(b: Book) {
    b.initialized && !b.needsResync
  }

  /** The dictionary built from a snapshot's levels: positive quantities, the last one of a price. */
  function FromSnapshot(levels: seq<Level>): Levels {
    if levels == [] then map[]
    else
      var front, last := FromSnapshot(levels[..|levels| - 1]), levels[|levels| - 1];
      if last.quantity > 0.0 then front[last.price := last.quantity] else front
  }

  /** A delta written over a side, level by level; zero removes. */
  function Overwritten(side: Levels, levels: seq<Level>): Levels {
    if levels == [] then side
    else
      var front, last := Overwritten(side, levels[..|levels| - 1]), levels[|levels| - 1];
      if last.quantity == 0.0 then front - {last.price} else front[last.price := last.quantity]
  }

  /** min(asks) < max(bids), for two non-empty sides. */
  predicate Crossed(bids: Levels, asks: Levels) {
    exists bid, ask | bid in bids && ask in asks :: ask < bid
  }

  function MarkedUnreliable(b: Book): Book {
    b.(needsResync := true)
  }

  function ResetForResync(b: Book): Book {
    b.(bids := map[], asks := map[], initialized := false, lastSequence := None)
  }

  function AfterSnapshot(b: Book, m: Message): Book {
    var filled := b.(bids := FromSnapshot(m.bids), asks := FromSnapshot(m.asks), lastSequence := m.sequence,
                     initialized := true, needsResync := false, lastSnapshotAt := Some(m.ts));
    if Crossed(filled.bids, filled.asks) then MarkedUnreliable(filled)
    else filled.(resyncCount := if b.needsResync then b.resyncCount + 1 else b.resyncCount,
                 lastReliableUpdate := Some(m.ts))
  }

  /** A delta the book already contains. */
  predicate Outdated(last: Option<int>, m: Message) {
    m.sequence.Some? && last.Some? && m.sequence.value <= last.value
  }

  predicate LeavesGap(last: Option<int>, m: Message) {
    m.sequence.Some? && last.Some? && m.sequence.value > last.value + 1
  }

  function AfterDelta(b: Book, m: Message): Book {
    if !b.initialized then MarkedUnreliable(b)
    else if b.needsResync || Outdated(b.lastSequence, m) then b
    else if LeavesGap(b.lastSequence, m) then MarkedUnreliable(b.(sequenceGaps := b.sequenceGaps + 1))
    else
      var written := b.(lastSequence := if m.sequence.Some? then m.sequence else b.lastSequence,
                        bids := Overwritten(b.bids, m.bids), asks := Overwritten(b.asks, m.asks));
      if Crossed(written.bids, written.asks) then MarkedUnreliable(written)
      else written.(lastReliableUpdate := Some(m.ts))
  }

  function AfterMessage(b: Book, m: Message): Book {
    if m.isSnapshot then AfterSnapshot(b, m) else AfterDelta(b, m)
  }

  /** What validation lets through: positive prices and no negative quantities. */
  predicate ValidLevels(levels: seq<Level>) {
    forall l | l in levels :: l.price > 0.0 && l.quantity >= 0.0
  }

  predicate ValidMessage(m: Message) {
    ValidLevels(m.bids) && ValidLevels(m.asks)
  }

  datatype RawLevel = Unreadable | RawLevel(price: Option<real>, quantity: Option<real>)

  /** event_validation._levels: all entries or nothing. */
  method ParseLevels(raw: Option<seq<RawLevel>>) returns (levels: Option<seq<Level>>)
    ensures levels.Some? ==> ValidLevels(levels.value)
    ensures raw.None? ==> levels == Some([])
    ensures raw.Some? ==>
              (levels.Some? <==> forall r | r in raw.value ::
                 r.RawLevel? && r.price.Some? && r.quantity.Some? && r.price.value > 0.0 && r.quantity.value >= 0.0)
    ensures raw.Some? && levels.Some? ==>
              && |levels.value| == |raw.value|
              && forall i | 0 <= i < |raw.value| ::
                   raw.value[i] == RawLevel(Some(levels.value[i].price), Some(levels.value[i].quantity))
  {
    if raw.None? {
      return Some([]);
    }
    var entries := raw.value;
    var parsed: seq<Level> := [];
    for i := 0 to |entries|
      invariant |parsed| == i && ValidLevels(parsed)
      invariant forall j | 0 <= j < i :: entries[j] == RawLevel(Some(parsed[j].price), Some(parsed[j].quantity))
    {
      var r := entries[i];
      if r.Unreadable? || r.price.None? || r.quantity.None? {
        return None;
      }
      if r.price.value <= 0.0 || r.quantity.value < 0.0 {
        return None;
      }
      parsed := parsed + [Level(r.price.value, r.quantity.value)];
    }
    assert forall j | 0 <= j < |entries| :: parsed[j] in parsed;
    levels := Some(parsed);
  }
}
