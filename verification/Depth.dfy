/** The excerpt of the live book that cost estimates walk (app/risk/evaluation_context.py). */
module Depth {
  import opened Options
  import opened OrderBook
  import opened OrderBookState
  import opened BookRefinement
  import BookRuns

  datatype OrderbookDepthSnapshot =
    OrderbookDepthSnapshot(bids: seq<Level>, asks: seq<Level>, isFresh: bool, snapshotAt: Option<int>)

  predicate PositiveLevels(levels: seq<Level>) {
    forall l | l in levels :: l.price > 0.0 && l.quantity > 0.0
  }

  /** What walking a snapshot relies on: both sides best first, real quantities, not crossed. */
  predicate Walkable(s: OrderbookDepthSnapshot) {
    && SortedSide(Bid, s.bids) && PositiveLevels(s.bids)
    && SortedSide(Ask, s.asks) && PositiveLevels(s.asks)
    && (s.bids != [] && s.asks != [] ==> s.bids[0].price <= s.asks[0].price)
  }

  const NO_BOOK := OrderbookDepthSnapshot([], [], false, None)

  /** Cut from a book fed by validated messages only, a snapshot marked fresh can be walked. */
  method DepthSnapshot(book: OrderbookState, wired: bool, feedFresh: bool, maxLevels: nat,
                       ghost inputs: seq<Input>)
    returns (s: OrderbookDepthSnapshot)
    requires book.Value() == Replay(inputs) && forall i | i in inputs :: BookRuns.ValidInput(i)
    ensures s.isFresh <==> wired && feedFresh && Reliable(book.Value())
    ensures s.isFresh ==> Walkable(s) && IsTop(book.bids, Bid, s.bids) && IsTop(book.asks, Ask, s.asks)
    ensures !wired ==> s == NO_BOOK
    ensures wired ==>
              && |s.bids| == (if |book.bids| < maxLevels then |book.bids| else maxLevels)
              && |s.asks| == (if |book.asks| < maxLevels then |book.asks| else maxLevels)
              && s.snapshotAt == book.lastReliableUpdate
  {
    if !wired {
      return NO_BOOK;
    }
    var bids := book.TopLevels(Bid, maxLevels);
    var asks := book.TopLevels(Ask, maxLevels);
    var isFresh := book.initialized && !book.needsResync && feedFresh;
    s := OrderbookDepthSnapshot(bids, asks, isFresh, book.lastReliableUpdate);
    BookRuns.BookStaysSafe(inputs);
    assert forall l | l in bids :: l.price in book.bids;
    assert forall l | l in asks :: l.price in book.asks;
    if bids != [] && asks != [] {
      assert bids[0] in bids && asks[0] in asks;
    }
  }
}
