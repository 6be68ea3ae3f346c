/** Feeding book messages into the replica and asking for a resync (app/data/market_data_service.py). */
module MarketData {
  import opened Options
  import opened OrderBook
  import opened OrderBookState

  const RESYNC_MIN_INTERVAL := 5.0

  predicate MayAsk(last: Option<real>, now: real) {
    last.None? || now - last.value >= RESYNC_MIN_INTERVAL
  }

  datatype Handled = Handled(own: Book, other: Option<Book>, accepted: bool, asked: bool)

  /**
   * One book frame of a tracker. A frame may name another instrument; then other is that book, and the
   * tracker's own book is untouched by the message but still the one a resync request empties.
   */
  function HandledFrame(own: Book, other: Option<Book>, m: Message, last: Option<real>, now: real): Handled {
    var addressed := AfterMessage(if other.Some? then other.value else own, m);
    var ownAfter := if other.Some? then own else addressed;
    var accepted := Reliable(addressed) && !ownAfter.needsResync;
    var asked := !accepted && MayAsk(last, now);
    Handled(if asked then ResetForResync(ownAfter) else ownAfter,
            if other.Some? then Some(addressed) else None,
            accepted, asked)
  }

  /** No request so far, or the last one at least five seconds ago. */
  predicate DueAfterFiveSeconds(requests: seq<real>, now: real) {
    requests != [] ==> now >= requests[|requests| - 1] + 5.0
  }

  class InstrumentTracker {
    const book: OrderbookState
    var lastResyncRequestAt: Option<real>
    var resyncRequests: nat
    ghost var requests: seq<real>

    ghost predicate Valid()
      reads this
    {
      && Spaced(requests)
      && resyncRequests == |requests|
      && lastResyncRequestAt == if requests == [] then None else Some(requests[|requests| - 1])
    }

    constructor (book: OrderbookState)
      ensures Valid() && this.book == book && requests == [] && resyncRequests == 0 && lastResyncRequestAt.None?
    {
      this.book := book;
      lastResyncRequestAt, resyncRequests, requests := None, 0, [];
    }

    method HandleBook(addressed: OrderbookState, m: Message, now: real) returns (accepted: bool)
      requires Valid()
      modifies this, book, addressed
      ensures Valid() && Spaced(requests) && resyncRequests == |requests|
      ensures var h := HandledFrame(old(book.Value()),
                                    if addressed == book then None else Some(old(addressed.Value())),
                                    m, old(lastResyncRequestAt), now);
              && book.Value() == h.own
              && (addressed != book ==> h.other == Some(addressed.Value()))
              && accepted == h.accepted
              && requests == if h.asked then old(requests) + [now] else old(requests)
      ensures var addressedAfter := AfterMessage(old(addressed.Value()), m);
              var ownAfter := if addressed == book then addressedAfter else old(book.Value());
              && (accepted <==> addressedAfter.initialized && !addressedAfter.needsResync && !ownAfter.needsResync)
              && (addressed != book ==> addressed.Value() == addressedAfter)
              && (requests != old(requests) <==> !accepted && DueAfterFiveSeconds(old(requests), now))
              && (requests == old(requests) ==> book.Value() == ownAfter)
              && (requests != old(requests) ==>
                    && requests == old(requests) + [now]
                    && book.bids == map[] == book.asks && !book.initialized && book.lastSequence.None?
                    && book.needsResync == ownAfter.needsResync && book.resyncCount == ownAfter.resyncCount
                    && book.sequenceGaps == ownAfter.sequenceGaps
                    && book.lastReliableUpdate == ownAfter.lastReliableUpdate
                    && book.lastSnapshotAt == ownAfter.lastSnapshotAt)
    {
      var reliable := addressed.Apply(m);
      accepted := reliable && !book.needsResync;
      if !accepted {
        RequestBookResync(now);
      }
    }

    method RequestBookResync(now: real)
      requires Valid()
      modifies this, book
      ensures Valid() && Spaced(requests) && resyncRequests == |requests|
      ensures MayAsk(old(lastResyncRequestAt), now) ==>
                requests == old(requests) + [now] && book.Value() == ResetForResync(old(book.Value()))
      ensures !MayAsk(old(lastResyncRequestAt), now) ==>
                requests == old(requests) && book.Value() == old(book.Value())
    {
      if lastResyncRequestAt.Some? && now - lastResyncRequestAt.value < RESYNC_MIN_INTERVAL {
        return;
      }
      lastResyncRequestAt := Some(now);
      resyncRequests := resyncRequests + 1;
      requests := requests + [now];
      book.Reset();
    }
  }

  // ---------------------------------------------------------------- how often a resync is asked for

  predicate Spaced(times: seq<real>) {
    forall i | 0 < i < |times| :: times[i] - times[i - 1] >= RESYNC_MIN_INTERVAL
  }

  function CountWithin(times: seq<real>, from: real, until: real): nat {
    if times == [] then 0
    else
      CountWithin(times[..|times| - 1], from, until)
      + if from <= times[|times| - 1] <= until then 1 else 0
  }

  lemma {:induction false} SpacedRises(times: seq<real>, i: nat)
    requires Spaced(times) && i < |times| - 1
    ensures times[i] <= times[|times| - 1] - RESYNC_MIN_INTERVAL
  {
    var front := times[..|times| - 1];
    if i < |front| - 1 {
      SpacedRises(front, i);
    }
  }

  lemma {:induction false} CountStopsAtLast(times: seq<real>, from: real, until: real, last: real)
    requires last <= until && forall i | 0 <= i < |times| :: times[i] <= last
    ensures CountWithin(times, from, until) == CountWithin(times, from, last)
  {
    if times != [] {
      var front := times[..|times| - 1];
      CountStopsAtLast(front, from, until, last);
    }
  }

  /** Requests at least five seconds apart: a window of length d holds at most 1 + d / 5 of them. */
  lemma {:induction false} FewRequestsInAnyWindow(times: seq<real>, from: real, d: real)
    requires Spaced(times) && d >= 0.0
    ensures CountWithin(times, from, from + d) as real <= 1.0 + d / 5.0
  {
    NoneInEmptyWindow(times, from, from + d);
    if times != [] {
      var front, last := times[..|times| - 1], times[|times| - 1];
      if from <= last <= from + d {
        forall i | 0 <= i < |front|
          ensures front[i] <= last - RESYNC_MIN_INTERVAL
        {
          SpacedRises(times, i);
        }
        CountStopsAtLast(front, from, from + d, last - RESYNC_MIN_INTERVAL);
        NoneInEmptyWindow(front, from, last - RESYNC_MIN_INTERVAL);
        if last - RESYNC_MIN_INTERVAL >= from {
          FewRequestsInAnyWindow(front, from, last - RESYNC_MIN_INTERVAL - from);
          assert from + (last - RESYNC_MIN_INTERVAL - from) == last - RESYNC_MIN_INTERVAL;
        }
      } else {
        FewRequestsInAnyWindow(front, from, d);
      }
    }
  }

  lemma {:induction false} NoneInEmptyWindow(times: seq<real>, from: real, until: real)
    ensures until < from ==> CountWithin(times, from, until) == 0
  {
    if times != [] {
      NoneInEmptyWindow(times[..|times| - 1], from, until);
    }
  }

  // ---------------------------------------------------------------- frames that name another book

  /**
   * A frame naming another instrument changes this tracker's reliable book exactly when the other book ends
   * up unreliable and five seconds have passed since the last request: then this book is emptied.
   */
  lemma OtherBooksTroubleReachesThisOne(own: Book, other: Book, m: Message, last: Option<real>, now: real)
    requires Reliable(own)
    ensures var h := HandledFrame(own, Some(other), m, last, now);
            && (h.own != own <==> !Reliable(AfterMessage(other, m)) && MayAsk(last, now))
            && (h.own != own ==> h.own == ResetForResync(own) && !Reliable(h.own))
  {
  }

  /** A delta for a book that was never initialised, handed to a tracker whose own book is fine, empties that book. */
  lemma ReliableBookIsEmptied(now: real)
    ensures var own := AfterSnapshot(FRESH_BOOK, Message(true, [Level(99.0, 1.0)], [Level(101.0, 1.0)], 0, Some(1)));
            var h := HandledFrame(own, Some(FRESH_BOOK), Message(false, [], [], 0, Some(1)), None, now);
            && Reliable(own) && 99.0 in own.bids && 101.0 in own.asks
            && h.asked && h.own.bids == map[] == h.own.asks && !Reliable(h.own)
  {
    assert [Level(99.0, 1.0)][..0] == [] && [Level(101.0, 1.0)][..0] == [];
    assert FromSnapshot([Level(99.0, 1.0)]) == map[99.0 := 1.0];
    assert FromSnapshot([Level(101.0, 1.0)]) == map[101.0 := 1.0];
  }

  /** A frame for the tracker's own book is refused exactly when it leaves that book unreliable. */
  lemma OwnFrameRefusedWhenUnreliable(own: Book, m: Message, last: Option<real>, now: real)
    ensures var h := HandledFrame(own, None, m, last, now);
            && (h.accepted <==> Reliable(AfterMessage(own, m)))
            && (h.accepted ==> Reliable(h.own))
            && (h.asked ==> h.own.needsResync && !h.own.initialized)
  {
  }
}
