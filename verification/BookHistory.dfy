/** What the counters and times a book carries tell of its run. */
module BookHistory {
  import opened Options
  import opened OrderBook
  import opened BookRefinement

  predicate SnapshotArrives(input: Input) {
    input.Arrives? && input.message.isSnapshot
  }

  predicate DeltaArrives(input: Input) {
    input.Arrives? && !input.message.isSnapshot
  }

  /** A snapshot that brings a waiting book back. */
  predicate Recovers(before: Book, input: Input, after: Book) {
    SnapshotArrives(input) && before.needsResync && Reliable(after)
  }

  /** A numbered delta that skips a number, met by a reliable book. */
  predicate SkipsNumbers(before: Book, input: Input) {
    && DeltaArrives(input) && Reliable(before)
    && input.message.sequence.Some? && before.lastSequence.Some?
    && input.message.sequence.value - before.lastSequence.value > 1
  }

  /** A message that is in the book and leaves it reliable; a delta the book already has is not written again. */
  predicate Refreshes(before: Book, input: Input, after: Book) {
    && input.Arrives? && Reliable(after)
    && (DeltaArrives(input) && input.message.sequence.Some? && before.lastSequence.Some? ==>
          input.message.sequence.value == before.lastSequence.value + 1)
  }

  function Recoveries(inputs: seq<Input>): nat {
    if inputs == [] then 0
    else
      var front := inputs[..|inputs| - 1];
      Recoveries(front) + if Recovers(Replay(front), inputs[|inputs| - 1], Replay(inputs)) then 1 else 0
  }

  function Skips(inputs: seq<Input>): nat {
    if inputs == [] then 0
    else
      var front := inputs[..|inputs| - 1];
      Skips(front) + if SkipsNumbers(Replay(front), inputs[|inputs| - 1]) then 1 else 0
  }

  /** The time of the last input of a kind. */
  function LastSnapshotTime(inputs: seq<Input>): Option<int> {
    if inputs == [] then None
    else if SnapshotArrives(inputs[|inputs| - 1]) then Some(inputs[|inputs| - 1].message.ts)
    else LastSnapshotTime(inputs[..|inputs| - 1])
  }

  function LastRefreshTime(inputs: seq<Input>): Option<int> {
    if inputs == [] then None
    else
      var front := inputs[..|inputs| - 1];
      if Refreshes(Replay(front), inputs[|inputs| - 1], Replay(inputs)) then Some(inputs[|inputs| - 1].message.ts)
      else LastRefreshTime(front)
  }

  /**
   * Over every run: the resync count is the number of snapshots that brought a waiting book back, the gap count the
   * number of deltas that skipped a number, and the two times are those of the last snapshot and of the last
   * message that went into a book reliable afterwards.
   */
  lemma {:induction false} CountersTellTheRun(inputs: seq<Input>)
    ensures var b := Replay(inputs);
            && b.resyncCount == Recoveries(inputs) && b.sequenceGaps == Skips(inputs)
            && b.lastSnapshotAt == LastSnapshotTime(inputs) && b.lastReliableUpdate == LastRefreshTime(inputs)
  {
    hide FromSnapshot, Overwritten, Crossed;
    if inputs != [] {
      CountersTellTheRun(inputs[..|inputs| - 1]);
    }
  }
}
