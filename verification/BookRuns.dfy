/** Safety of the book over every run of messages and resets, and what a repeated delivery does. */
module BookRuns {
  import opened Options
  import opened OrderBook
  import opened BookRefinement

  // ---------------------------------------------------------------- safety

  predicate ValidInput(input: Input) {
    input.Arrives? ==> ValidMessage(input.message)
  }

  predicate Positives(side: Levels) {
    forall p | p in side :: p > 0.0 && side[p] > 0.0
  }

  predicate Safe(b: Book) {
    && Positives(b.bids) && Positives(b.asks)
    && (Reliable(b) ==> !Crossed(b.bids, b.asks))
  }

  lemma {:induction false} FilledPositives(levels: seq<Level>)
    requires ValidLevels(levels)
    ensures Positives(FromSnapshot(levels))
  {
    if levels != [] {
      var front, last := levels[..|levels| - 1], levels[|levels| - 1];
      FilledPositives(front);
      assert last in levels;
    }
  }

  lemma {:induction false} OverwrittenPositives(side: Levels, levels: seq<Level>)
    requires ValidLevels(levels) && Positives(side)
    ensures Positives(Overwritten(side, levels))
  {
    if levels != [] {
      var front, last := levels[..|levels| - 1], levels[|levels| - 1];
      OverwrittenPositives(side, front);
      assert last in levels;
    }
  }

  /** Positive quantities at positive prices at all times, and never crossed while reliable. */
  lemma {:induction false} BookStaysSafe(inputs: seq<Input>)
    requires forall i | i in inputs :: ValidInput(i)
    ensures Safe(Replay(inputs))
  {
    if inputs != [] {
      var front, last := inputs[..|inputs| - 1], inputs[|inputs| - 1];
      BookStaysSafe(front);
      assert last in inputs;
      if last.Arrives? {
        var b, m := Replay(front), last.message;
        FilledPositives(m.bids);
        FilledPositives(m.asks);
        OverwrittenPositives(b.bids, m.bids);
        OverwrittenPositives(b.asks, m.asks);
      }
    }
  }

  /** From unreliable, exactly the snapshots that are not crossed lead back. */
  lemma OnlySnapshotRestores(b: Book, input: Input)
    requires !Reliable(b)
    ensures Reliable(After(b, input)) <==>
            input.Arrives? && input.message.isSnapshot
            && !Crossed(FromSnapshot(input.message.bids), FromSnapshot(input.message.asks))
  {
  }

  /** The cross check of validation, over the positive quantities of the message itself. */
  predicate RejectedAsCrossed(m: Message) {
    exists bid, ask | bid in m.bids && ask in m.asks ::
      bid.quantity > 0.0 && ask.quantity > 0.0 && ask.price < bid.price
  }

  lemma {:induction false} FilledPrices(levels: seq<Level>, price: real)
    ensures price in FromSnapshot(levels) <==> exists l | l in levels :: l.quantity > 0.0 && l.price == price
  {
    if levels != [] {
      var front, last := levels[..|levels| - 1], levels[|levels| - 1];
      FilledPrices(front, price);
      assert levels == front + [last];
    }
  }

  /** Validation's cross check and the book's own are the same test, so a validated snapshot always restores. */
  lemma ValidatedSnapshotRestores(b: Book, m: Message)
    requires m.isSnapshot
    ensures Reliable(AfterMessage(b, m)) <==> !RejectedAsCrossed(m)
  {
    hide FromSnapshot;
    if RejectedAsCrossed(m) {
      var bid, ask :| bid in m.bids && ask in m.asks
                      && bid.quantity > 0.0 && ask.quantity > 0.0 && ask.price < bid.price;
      FilledPrices(m.bids, bid.price);
      FilledPrices(m.asks, ask.price);
    } else if Crossed(FromSnapshot(m.bids), FromSnapshot(m.asks)) {
      var bid, ask :| bid in FromSnapshot(m.bids) && ask in FromSnapshot(m.asks) && ask < bid;
      FilledPrices(m.bids, bid);
      FilledPrices(m.asks, ask);
    }
  }

  // ---------------------------------------------------------------- repeated delivery

  /** The delta is written into the book rather than ignored or refused. */
  predicate Accepted(b: Book, m: Message) {
    && !m.isSnapshot && Reliable(b)
    && !Outdated(b.lastSequence, m) && !LeavesGap(b.lastSequence, m)
  }

  /** A numbered delta leaves the whole book as it was exactly when it is refused or out of date. */
  lemma DeltaIgnoredExactlyWhen(b: Book, m: Message)
    requires m.sequence.Some?
    ensures AfterDelta(b, m) == b <==> b.needsResync || (b.initialized && Outdated(b.lastSequence, m))
  {
  }

  /** A feed with repeats: each entry is new input or a message delivered once more. */
  datatype Delivery = New(input: Input) | Again(message: Message)

  function Delivered(feed: seq<Delivery>): seq<Input> {
    if feed == [] then []
    else
      var last := feed[|feed| - 1];
      Delivered(feed[..|feed| - 1]) + [if last.New? then last.input else Arrives(last.message)]
  }

  function Originals(feed: seq<Delivery>): seq<Input> {
    if feed == [] then []
    else
      var front, last := Originals(feed[..|feed| - 1]), feed[|feed| - 1];
      if last.New? then front + [last.input] else front
  }

  /** The deltas the book accepted in the course of a run. */
  function AcceptedIn(inputs: seq<Input>): set<Message> {
    if inputs == [] then {}
    else
      var front, last := inputs[..|inputs| - 1], inputs[|inputs| - 1];
      AcceptedIn(front)
      + if last.Arrives? && Accepted(Replay(front), last.message) then {last.message} else {}
  }

  /** Whatever is delivered again had been accepted before. */
  predicate RepeatsAccepted(feed: seq<Delivery>) {
    feed != [] ==>
      var front, last := feed[..|feed| - 1], feed[|feed| - 1];
      RepeatsAccepted(front) && (last.Again? ==> last.message in AcceptedIn(Originals(front)))
  }

  predicate NotBelow(sequence: Option<int>, accepted: set<Message>) {
    sequence.Some? && forall m | m in accepted :: m.sequence.Some? && m.sequence.value <= sequence.value
  }

  /** Every message is numbered, and no snapshot's number is below a delta already accepted. */
  predicate Numbered(inputs: seq<Input>) {
    inputs != [] ==>
      var front, last := inputs[..|inputs| - 1], inputs[|inputs| - 1];
      && Numbered(front)
      && (last.Arrives? ==>
            && last.message.sequence.Some?
            && (last.message.isSnapshot ==> NotBelow(last.message.sequence, AcceptedIn(front))))
  }

  /** The book is only reset while it waits for a resync. */
  predicate ResetsWait(inputs: seq<Input>) {
    inputs != [] ==>
      var front, last := inputs[..|inputs| - 1], inputs[|inputs| - 1];
      ResetsWait(front) && (last.Forgotten? ==> Replay(front).needsResync)
  }

  lemma {:induction false} AcceptedStayBehind(inputs: seq<Input>)
    requires Numbered(inputs)
    ensures Replay(inputs).initialized ==> NotBelow(Replay(inputs).lastSequence, AcceptedIn(inputs))
    ensures forall m | m in AcceptedIn(inputs) :: !m.isSnapshot && m.sequence.Some?
  {
    if inputs != [] {
      var front := inputs[..|inputs| - 1];
      AcceptedStayBehind(front);
      hide FromSnapshot, Overwritten, Crossed;
    }
  }

  /** The same book, except that one that is empty may already be waiting, and was or will be once more. */
  predicate SameButForWaiting(b: Book, b': Book) {
    b'.(needsResync := b.needsResync, resyncCount := b.resyncCount) == b
    && (b.initialized ==> b.needsResync == b'.needsResync)
  }

  lemma InputKeepsSame(b: Book, b': Book, input: Input)
    requires SameButForWaiting(b, b')
    ensures SameButForWaiting(After(b, input), After(b', input))
  {
    hide FromSnapshot, Overwritten, Crossed;
    match input
    case Arrives(m) =>
      if m.isSnapshot {
        hide AfterDelta;
      } else {
        hide AfterSnapshot;
      }
    case Forgotten =>
  }

  lemma RepeatKeepsSame(b: Book, b': Book, m: Message)
    requires SameButForWaiting(b, b') && m.sequence.Some? && !m.isSnapshot
    requires b'.initialized ==> Outdated(b'.lastSequence, m)
    ensures SameButForWaiting(After(b, Arrives(m)), b')
  {
    hide FromSnapshot, Overwritten, Crossed, AfterSnapshot;
  }

  /**
   * In every numbered run, whenever the book is reset, repeating accepted deltas anywhere leaves the same
   * final book: both sides, both sequence numbers and whether it is reliable.  Only an empty book can be
   * sent waiting by a repeat, which shows in needs_resync until the next snapshot and in resync_count.
   */
  lemma {:induction false} RepeatsOnlySendWaiting(feed: seq<Delivery>)
    requires RepeatsAccepted(feed) && Numbered(Originals(feed))
    ensures SameButForWaiting(Replay(Delivered(feed)), Replay(Originals(feed)))
    ensures Reliable(Replay(Delivered(feed))) <==> Reliable(Replay(Originals(feed)))
  {
    hide After, Accepted, AcceptedIn;
    if feed != [] {
      var front, last := feed[..|feed| - 1], feed[|feed| - 1];
      var all, kept := Delivered(feed), Originals(feed);
      assert all[..|all| - 1] == Delivered(front);
      assert last.New? ==> kept[..|kept| - 1] == Originals(front);
      RepeatsOnlySendWaiting(front);
      if last.Again? {
        AcceptedStayBehind(Originals(front));
        RepeatKeepsSame(Replay(Delivered(front)), Replay(Originals(front)), last.message);
      } else {
        InputKeepsSame(Replay(Delivered(front)), Replay(Originals(front)), last.input);
      }
    }
  }

  /** Each repeat meets a book that has had its snapshot or is waiting for one. */
  predicate RepeatsFindABook(feed: seq<Delivery>) {
    feed != [] ==>
      var front, last := feed[..|feed| - 1], feed[|feed| - 1];
      && RepeatsFindABook(front)
      && (last.Again? ==> Replay(Originals(front)).initialized || Replay(Originals(front)).needsResync)
  }

  /** At no point of the feed do the repeats so far make a difference, counters included. */
  predicate UntouchedThroughout(feed: seq<Delivery>) {
    feed != [] ==>
      UntouchedThroughout(feed[..|feed| - 1]) && Replay(Delivered(feed)) == Replay(Originals(feed))
  }

  /** For numbered runs that is so exactly when no repeat meets a book that is empty and does not wait. */
  lemma {:induction false} RepeatsChangeNothingExactlyWhen(feed: seq<Delivery>)
    requires RepeatsAccepted(feed) && Numbered(Originals(feed))
    ensures UntouchedThroughout(feed) <==> RepeatsFindABook(feed)
    ensures UntouchedThroughout(feed) ==> Replay(Delivered(feed)) == Replay(Originals(feed))
  {
    hide FromSnapshot, Overwritten, Crossed, Accepted;
    if feed != [] {
      var front, last := feed[..|feed| - 1], feed[|feed| - 1];
      var all, kept := Delivered(feed), Originals(feed);
      assert all[..|all| - 1] == Delivered(front);
      assert last.New? ==> kept[..|kept| - 1] == Originals(front);
      RepeatsChangeNothingExactlyWhen(front);
      if last.Again? {
        AcceptedStayBehind(Originals(front));
        DeltaIgnoredExactlyWhen(Replay(Originals(front)), last.message);
      }
    }
  }

  lemma {:induction false} EmptiedBooksWait(inputs: seq<Input>)
    requires ResetsWait(inputs)
    ensures Replay(inputs).initialized || Replay(inputs).needsResync || AcceptedIn(inputs) == {}
  {
    hide FromSnapshot, Overwritten, Crossed;
    if inputs != [] {
      EmptiedBooksWait(inputs[..|inputs| - 1]);
    }
  }

  lemma {:induction false} RepeatsAreMet(feed: seq<Delivery>)
    requires RepeatsAccepted(feed) && ResetsWait(Originals(feed))
    ensures RepeatsFindABook(feed)
  {
    hide Replay, AcceptedIn;
    if feed != [] {
      var front, kept := feed[..|feed| - 1], Originals(feed);
      assert feed[|feed| - 1].New? ==> kept[..|kept| - 1] == Originals(front);
      RepeatsAreMet(front);
      EmptiedBooksWait(Originals(front));
    }
  }

  /**
   * When the book is only reset while it waits, repeating accepted deltas anywhere in a numbered run leaves
   * the final book untouched, counters included.
   */
  lemma RepeatsChangeNothing(feed: seq<Delivery>)
    requires RepeatsAccepted(feed) && Numbered(Originals(feed)) && ResetsWait(Originals(feed))
    ensures Replay(Delivered(feed)) == Replay(Originals(feed))
  {
    hide *;
    RepeatsAreMet(feed);
    RepeatsChangeNothingExactlyWhen(feed);
  }

  lemma NewDelivery(feed: seq<Delivery>, input: Input)
    ensures Delivered(feed + [New(input)]) == Delivered(feed) + [input]
    ensures Originals(feed + [New(input)]) == Originals(feed) + [input]
    ensures RepeatsAccepted(feed + [New(input)]) <==> RepeatsAccepted(feed)
  {
    assert (feed + [New(input)])[..|feed|] == feed;
  }

  lemma RepeatedDelivery(feed: seq<Delivery>, m: Message)
    ensures Delivered(feed + [Again(m)]) == Delivered(feed) + [Arrives(m)]
    ensures Originals(feed + [Again(m)]) == Originals(feed)
    ensures RepeatsAccepted(feed + [Again(m)]) <==> RepeatsAccepted(feed) && m in AcceptedIn(Originals(feed))
  {
    assert (feed + [Again(m)])[..|feed|] == feed;
  }

  lemma OneMoreInput(inputs: seq<Input>, input: Input)
    ensures Replay(inputs + [input]) == After(Replay(inputs), input)
    ensures AcceptedIn(inputs) <= AcceptedIn(inputs + [input])
    ensures input.Arrives? && Accepted(Replay(inputs), input.message) ==> input.message in AcceptedIn(inputs + [input])
  {
    assert (inputs + [input])[..|inputs|] == inputs;
  }

  const FIRST_SNAPSHOT := Message(true, [], [], 0, Some(7))
  const ONE_BID := Message(false, [Level(5.0, 1.0)], [], 1, Some(8))
  const RESTART := Message(true, [], [], 2, Some(7))

  lemma OneBidIsWritten(b: Book)
    requires Reliable(b) && b.bids == map[] == b.asks && b.lastSequence == Some(7)
    ensures Accepted(b, ONE_BID) && Reliable(AfterDelta(b, ONE_BID)) && 5.0 in AfterDelta(b, ONE_BID).bids
  {
    assert ONE_BID.bids[..0] == [];
    assert Overwritten(b.bids, ONE_BID.bids) == map[5.0 := 1.0];
  }

  /** When a later snapshot restarts the numbering lower, a repeated delta is written a second time. */
  lemma RestartedNumberingBreaksRepeats()
    ensures exists feed ::
              && RepeatsAccepted(feed)
              && Reliable(Replay(Delivered(feed))) && Reliable(Replay(Originals(feed)))
              && Replay(Delivered(feed)).bids != Replay(Originals(feed)).bids
  {
    var one := [New(Arrives(FIRST_SNAPSHOT))];
    var two := one + [New(Arrives(ONE_BID))];
    var three := two + [New(Arrives(RESTART))];
    assert [] + [New(Arrives(FIRST_SNAPSHOT))] == one && [] + [Arrives(FIRST_SNAPSHOT)] == [Arrives(FIRST_SNAPSHOT)];
    NewDelivery([], Arrives(FIRST_SNAPSHOT));
    NewDelivery(one, Arrives(ONE_BID));
    NewDelivery(two, Arrives(RESTART));
    RepeatedDelivery(three, ONE_BID);
    OneMoreInput([], Arrives(FIRST_SNAPSHOT));
    OneMoreInput(Originals(one), Arrives(ONE_BID));
    OneMoreInput(Originals(two), Arrives(RESTART));
    OneMoreInput(Originals(three), Arrives(ONE_BID));
    OneBidIsWritten(Replay(Originals(one)));
    OneBidIsWritten(Replay(Originals(three)));
  }

  lemma NumberedGrows(inputs: seq<Input>, input: Input)
    requires Numbered(inputs)
    requires input.Arrives? ==>
               input.message.sequence.Some?
               && (input.message.isSnapshot ==> NotBelow(input.message.sequence, AcceptedIn(inputs)))
    ensures Numbered(inputs + [input])
  {
    assert (inputs + [input])[..|inputs|] == inputs;
  }

  /** After the reset of a reliable book, a repeated delta sends the empty book waiting. */
  lemma RepeatAfterResetSendsWaiting()
    ensures exists feed ::
              && RepeatsAccepted(feed) && Numbered(Originals(feed))
              && Replay(Delivered(feed)).needsResync && !Replay(Originals(feed)).needsResync
  {
    hide FromSnapshot, Overwritten, Crossed;
    var one := [New(Arrives(FIRST_SNAPSHOT))];
    var two := one + [New(Arrives(ONE_BID))];
    var three := two + [New(Forgotten)];
    assert [] + [New(Arrives(FIRST_SNAPSHOT))] == one && [] + [Arrives(FIRST_SNAPSHOT)] == [Arrives(FIRST_SNAPSHOT)];
    NewDelivery([], Arrives(FIRST_SNAPSHOT));
    NewDelivery(one, Arrives(ONE_BID));
    NewDelivery(two, Forgotten);
    RepeatedDelivery(three, ONE_BID);
    OneMoreInput([], Arrives(FIRST_SNAPSHOT));
    OneMoreInput(Originals(one), Arrives(ONE_BID));
    OneMoreInput(Originals(two), Forgotten);
    OneMoreInput(Originals(three), Arrives(ONE_BID));
    NumberedGrows([], Arrives(FIRST_SNAPSHOT));
    NumberedGrows(Originals(one), Arrives(ONE_BID));
    NumberedGrows(Originals(two), Forgotten);
    FirstSnapshotIsTaken();
    OneBidIsWritten(Replay(Originals(one)));
    assert RepeatsAccepted(three + [Again(ONE_BID)]);
  }

  lemma FirstSnapshotIsTaken()
    ensures AfterSnapshot(FRESH_BOOK, FIRST_SNAPSHOT)
         == Book(true, false, 0, 0, Some(7), Some(0), Some(0), map[], map[])
  {
  }
}
