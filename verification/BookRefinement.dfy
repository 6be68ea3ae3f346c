/**
 * What the incremental book means: over every run of messages and resync resets, a reliable book is the
 * last snapshot with each later kept delta written over it, and nothing else.
 */
module BookRefinement {
  import opened Options
  import opened OrderBook
  import opened OrderBookState

  datatype Input = Arrives(message: Message) | Forgotten

  function After(b: Book, input: Input): Book {
    match input
    case Arrives(m) => AfterMessage(b, m)
    case Forgotten => ResetForResync(b)
  }

  function Replay(inputs: seq<Input>): Book {
    if inputs == [] then FRESH_BOOK
    else After(Replay(inputs[..|inputs| - 1]), inputs[|inputs| - 1])
  }

  // ---------------------------------------------------------------- the reference

  function SideOf(which: Side, m: Message): seq<Level> {
    if which == Bid then m.bids else m.asks
  }

  function Positive(levels: seq<Level>): seq<Level> {
    if levels == [] then []
    else
      var front, last := Positive(levels[..|levels| - 1]), levels[|levels| - 1];
      if last.quantity > 0.0 then front + [last] else front
  }

  /** Everything ever written to one side since a snapshot, in order. */
  function Entries(which: Side, snapshot: Message, deltas: seq<Message>): seq<Level> {
    if deltas == [] then Positive(SideOf(which, snapshot))
    else Entries(which, snapshot, deltas[..|deltas| - 1]) + SideOf(which, deltas[|deltas| - 1])
  }

  /** The quantity the last entry of a price leaves there; zero leaves none. */
  function LastWrite(entries: seq<Level>, price: real): Option<real> {
    if entries == [] then None
    else
      var last := entries[|entries| - 1];
      if last.price != price then LastWrite(entries[..|entries| - 1], price)
      else if last.quantity == 0.0 then None
      else Some(last.quantity)
  }

  /** The newest sequence number among a snapshot's own and those of the deltas after it. */
  function Newest(sequence: Option<int>, deltas: seq<Message>): Option<int> {
    if deltas == [] then sequence
    else if deltas[|deltas| - 1].sequence.Some? then deltas[|deltas| - 1].sequence
    else Newest(sequence, deltas[..|deltas| - 1])
  }

  /** The deltas left once those that are out of date on arrival are dropped. */
  function Kept(sequence: Option<int>, deltas: seq<Message>): seq<Message> {
    if deltas == [] then []
    else
      var front, last := Kept(sequence, deltas[..|deltas| - 1]), deltas[|deltas| - 1];
      if Outdated(Newest(sequence, front), last) then front else front + [last]
  }

  ghost predicate WritesCross(snapshot: Message, deltas: seq<Message>) {
    exists bid, ask ::
      && LastWrite(Entries(Bid, snapshot, deltas), bid).Some?
      && LastWrite(Entries(Ask, snapshot, deltas), ask).Some?
      && ask < bid
  }

  /** The book those writes give was never crossed and no delta skipped a sequence number. */
  ghost predicate Clean(snapshot: Message, deltas: seq<Message>) {
    && !WritesCross(snapshot, Kept(snapshot.sequence, deltas))
    && (deltas != [] ==>
          var front := deltas[..|deltas| - 1];
          && Clean(snapshot, front)
          && !LeavesGap(Newest(snapshot.sequence, Kept(snapshot.sequence, front)), deltas[|deltas| - 1]))
  }

  function Messages(inputs: seq<Input>): seq<Message>
    requires forall i | i in inputs :: i.Arrives?
  {
    seq(|inputs|, i requires 0 <= i < |inputs| => assert inputs[i] in inputs; inputs[i].message)
  }

  /** Position k holds a snapshot, and only deltas came after it. */
  predicate SnapshotAt(inputs: seq<Input>, k: nat) {
    && k < |inputs|
    && inputs[k].Arrives? && inputs[k].message.isSnapshot
    && forall i | i in inputs[k + 1..] :: i.Arrives? && !i.message.isSnapshot
  }

  function DeltasSince(inputs: seq<Input>, k: nat): seq<Message>
    requires SnapshotAt(inputs, k)
  {
    Messages(inputs[k + 1..])
  }

  /** A side of the book holds, price by price, the last write. */
  ghost predicate Shows(side: Levels, entries: seq<Level>) {
    forall p: real :: LastWrite(entries, p) == if p in side then Some(side[p]) else None
  }

  ghost predicate Mirrors(b: Book, snapshot: Message, deltas: seq<Message>) {
    && Shows(b.bids, Entries(Bid, snapshot, deltas))
    && Shows(b.asks, Entries(Ask, snapshot, deltas))
    && b.lastSequence == Newest(snapshot.sequence, deltas)
  }

  // ---------------------------------------------------------------- one side

  lemma {:induction false} FilledShows(levels: seq<Level>)
    ensures Shows(FromSnapshot(levels), Positive(levels))
  {
    if levels != [] {
      var front, last := levels[..|levels| - 1], levels[|levels| - 1];
      FilledShows(front);
      assert (Positive(front) + [last])[..|Positive(front)|] == Positive(front);
    }
  }

  lemma {:induction false} OverwrittenShows(side: Levels, entries: seq<Level>, levels: seq<Level>)
    requires Shows(side, entries)
    ensures Shows(Overwritten(side, levels), entries + levels)
  {
    if levels == [] {
      assert entries + levels == entries;
    } else {
      var front := levels[..|levels| - 1];
      OverwrittenShows(side, entries, front);
      assert (entries + levels)[..|entries + levels| - 1] == entries + front;
    }
  }

  lemma CrossingShows(b: Book, snapshot: Message, deltas: seq<Message>)
    requires Mirrors(b, snapshot, deltas)
    ensures Crossed(b.bids, b.asks) <==> WritesCross(snapshot, deltas)
  {
  }

  lemma DeltaKeepsMirror(b: Book, snapshot: Message, deltas: seq<Message>, m: Message)
    requires Mirrors(b, snapshot, deltas)
    ensures Mirrors(b.(bids := Overwritten(b.bids, m.bids), asks := Overwritten(b.asks, m.asks),
                       lastSequence := if m.sequence.Some? then m.sequence else b.lastSequence),
                    snapshot, deltas + [m])
  {
    OverwrittenShows(b.bids, Entries(Bid, snapshot, deltas), m.bids);
    OverwrittenShows(b.asks, Entries(Ask, snapshot, deltas), m.asks);
    assert (deltas + [m])[..|deltas|] == deltas;
  }

  // ---------------------------------------------------------------- whole runs

  /** What is true of the book once only deltas followed the snapshot. */
  ghost predicate Reflects(b: Book, snapshot: Message, deltas: seq<Message>) {
    && b.initialized
    && (Reliable(b) <==> Clean(snapshot, deltas))
    && (Reliable(b) ==> Mirrors(b, snapshot, Kept(snapshot.sequence, deltas)))
  }

  lemma SnapshotReflects(b: Book, m: Message)
    ensures Reflects(AfterSnapshot(b, m), m, [])
  {
    FilledShows(m.bids);
    FilledShows(m.asks);
    var filled := b.(bids := FromSnapshot(m.bids), asks := FromSnapshot(m.asks), lastSequence := m.sequence);
    assert Mirrors(filled, m, []);
    CrossingShows(filled, m, []);
  }

  lemma DeltaReflects(b: Book, snapshot: Message, deltas: seq<Message>, m: Message)
    requires Reflects(b, snapshot, deltas)
    ensures Reflects(AfterDelta(b, m), snapshot, deltas + [m])
  {
    var more, kept := deltas + [m], Kept(snapshot.sequence, deltas);
    assert more[..|more| - 1] == deltas;
    hide Overwritten, Crossed, LastWrite, Entries, WritesCross;
    if Reliable(b) {
      if !Outdated(b.lastSequence, m) && !LeavesGap(b.lastSequence, m) {
        DeltaKeepsMirror(b, snapshot, kept, m);
        var written := b.(bids := Overwritten(b.bids, m.bids), asks := Overwritten(b.asks, m.asks),
                          lastSequence := if m.sequence.Some? then m.sequence else b.lastSequence);
        CrossingShows(written, snapshot, kept + [m]);
      }
    }
  }

  lemma {:induction false} RunReflects(inputs: seq<Input>, k: nat)
    requires SnapshotAt(inputs, k)
    ensures Reflects(Replay(inputs), inputs[k].message, DeltasSince(inputs, k))
  {
    var front, last := inputs[..|inputs| - 1], inputs[|inputs| - 1];
    hide Reflects;
    if k == |inputs| - 1 {
      SnapshotReflects(Replay(front), last.message);
      assert DeltasSince(inputs, k) == [];
    } else {
      assert inputs[k + 1..] == front[k + 1..] + [last];
      assert last in inputs[k + 1..];
      RunReflects(front, k);
      DeltaReflects(Replay(front), inputs[k].message, DeltasSince(front, k), last.message);
      assert DeltasSince(inputs, k) == DeltasSince(front, k) + [last.message];
    }
  }

  lemma {:induction false} InitializedSinceSnapshot(inputs: seq<Input>) returns (k: nat)
    requires Replay(inputs).initialized
    ensures SnapshotAt(inputs, k)
  {
    var front, last := inputs[..|inputs| - 1], inputs[|inputs| - 1];
    if last.Arrives? && last.message.isSnapshot {
      k := |inputs| - 1;
    } else {
      k := InitializedSinceSnapshot(front);
      assert inputs[k + 1..] == front[k + 1..] + [last];
    }
  }

  /**
   * The refinement. A book is reliable exactly when a snapshot is followed by deltas only, none of which left
   * a gap or a crossed book; and then both sides hold the last writes and nothing more.
   */
  lemma BookIsLastSnapshotOverwritten(inputs: seq<Input>)
    ensures Reliable(Replay(inputs)) <==>
            exists k: nat :: SnapshotAt(inputs, k) && Clean(inputs[k].message, DeltasSince(inputs, k))
    ensures Reliable(Replay(inputs)) ==>
            exists k: nat ::
              && SnapshotAt(inputs, k)
              && Mirrors(Replay(inputs), inputs[k].message,
                         Kept(inputs[k].message.sequence, DeltasSince(inputs, k)))
  {
    hide Mirrors, Clean, Kept, Replay;
    if Reliable(Replay(inputs)) {
      var k := InitializedSinceSnapshot(inputs);
      RunReflects(inputs, k);
    }
    forall k: nat | SnapshotAt(inputs, k)
      ensures Reliable(Replay(inputs)) <==> Clean(inputs[k].message, DeltasSince(inputs, k))
    {
      RunReflects(inputs, k);
    }
  }

  /** Each message that carries a sequence number carries the one after the newest before it. */
  predicate Consecutive(sequence: Option<int>, deltas: seq<Message>) {
    deltas != [] ==>
      var front, last := deltas[..|deltas| - 1], deltas[|deltas| - 1];
      && Consecutive(sequence, front)
      && (last.sequence.Some? && Newest(sequence, front).Some? ==>
            last.sequence.value == Newest(sequence, front).value + 1)
  }

  lemma {:induction false} KeptSequencesAreConsecutive(snapshot: Message, deltas: seq<Message>)
    requires Clean(snapshot, deltas)
    ensures Consecutive(snapshot.sequence, Kept(snapshot.sequence, deltas))
  {
    hide WritesCross, Newest;
    if deltas != [] {
      var front := deltas[..|deltas| - 1];
      KeptSequencesAreConsecutive(snapshot, front);
      var kept, keptFront := Kept(snapshot.sequence, deltas), Kept(snapshot.sequence, front);
      assert kept == keptFront || kept[..|kept| - 1] == keptFront;
    }
  }
}
