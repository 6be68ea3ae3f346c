/** What holds after every run of the lifecycle protocol: one chain, one winner, a sound audit log. */
module LifecycleSafety {
  import opened Options
  import opened SignalStateMachine
  import opened LifecycleTable
  import opened LifecycleProtocol
  import opened LifecycleInvariant

  /** One row update that took effect, as read off the run. */
  datatype Update = Update(expected: nat, step: TransitionStep, worker: WorkerId)

  predicate WinsFor(s: System, l: Label, id: SignalId) {
    l.CommitRow? && WinsRow(s, l.w) && s.workers[l.w].id == id
  }

  /** The row updates of one signal that took effect in a run, in commit order. */
  function WonUpdates(labels: seq<Label>, id: SignalId): seq<Update>
    decreases |labels|
  {
    if labels == [] then []
    else
      var before := labels[..|labels| - 1];
      var s, l := Run(EMPTY_SYSTEM, before), labels[|labels| - 1];
      WonUpdates(before, id)
      + if WinsFor(s, l, id)
        then [Update(s.workers[l.w].Expected(), s.workers[l.w].steps[s.workers[l.w].applied], l.w)]
        else []
  }

  /** The history kept in the state is the list of updates the run performed. */
  lemma {:induction false} HistoryIsTheRun(labels: seq<Label>, id: SignalId)
    ensures var s := Run(EMPTY_SYSTEM, labels);
            var won := WonUpdates(labels, id);
            if id in s.wins then
              && |won| == |s.wins[id]|
              && forall n | 0 <= n < |won| ::
                   won[n] == Update(ADMITTED_VERSION + n, s.wins[id][n].step, s.wins[id][n].worker)
            else won == []
    decreases |labels|
  {
    hide Step, Inv, WinsRow;
    if labels != [] {
      var before := labels[..|labels| - 1];
      HistoryIsTheRun(before, id);
      RunKeepsInv(before);
      StepExtendsHistory(Run(EMPTY_SYSTEM, before), labels[|labels| - 1], id);
    }
  }

  lemma StepExtendsHistory(s: System, l: Label, id: SignalId)
    requires Inv(s)
    ensures id in s.wins ==> id in Step(s, l).wins
    ensures !WinsFor(s, l, id) && id in s.wins ==> Step(s, l).wins[id] == s.wins[id]
    ensures !WinsFor(s, l, id) && id !in s.wins && id in Step(s, l).wins ==> Step(s, l).wins[id] == []
    ensures WinsFor(s, l, id) ==>
              && id in s.wins
              && var k := s.workers[l.w];
                 && k.Expected() == ADMITTED_VERSION + |s.wins[id]|
                 && Step(s, l).wins[id] == s.wins[id] + [Win(l.w, k.applied, k.steps[k.applied])]
  {
    hide UpdateRow, InsertRow, ClaimRow, ReleaseRow, InsertEvent, InsertAdmissionEvents, ValidChain, Claimable;
    hide KeysInv, LogInv, WinsInv, WorkersInv, StateAfter;
    if WinsFor(s, l, id) {
      assert RowInv(s.table.rows[id], s.wins[id]);
    }
  }

  // ------------------------------------------------------------------ one chain

  /**
    Listed transitions on the versions 2, 3, 4, ..., each starting where the previous one ended,
    the first in WATCHING_ENTRY and none in a terminal state.
   */
  predicate ConsecutiveChain(won: seq<Update>) {
    forall n | 0 <= n < |won| ::
      && won[n].expected == ADMITTED_VERSION + n
      && won[n].step.from == (if n == 0 then WatchingEntry else won[n - 1].step.to)
      && CanTransition(won[n].step.from, won[n].step.to)
      && !Terminal(won[n].step.from)
  }

  /**
    In every run the won transitions of a signal form one consecutive chain, and its end is the
    row.
   */
  lemma TransitionsFormOneChain(labels: seq<Label>, id: SignalId)
    requires id in Run(EMPTY_SYSTEM, labels).table.rows
    ensures var row := Run(EMPTY_SYSTEM, labels).table.rows[id];
            var won := WonUpdates(labels, id);
            && row.version == ADMITTED_VERSION + |won|
            && row.state == (if won == [] then WatchingEntry else won[|won| - 1].step.to)
            && ConsecutiveChain(won)
  {
    hide Run, WonUpdates, RowInv, KeyInv, ConsecutiveChain;
    RowAfterRun(labels, id);
    HistoryIsTheRun(labels, id);
    var s := Run(EMPTY_SYSTEM, labels);
    HistoryIsAChain(s.table.rows[id], s.wins[id], WonUpdates(labels, id));
  }

  lemma HistoryIsAChain(row: Row, wins: seq<Win>, won: seq<Update>)
    requires RowInv(row, wins) && |won| == |wins|
    requires forall n | 0 <= n < |won| :: won[n] == Update(ADMITTED_VERSION + n, wins[n].step, wins[n].worker)
    ensures row.version == ADMITTED_VERSION + |won|
    ensures row.state == (if won == [] then WatchingEntry else won[|won| - 1].step.to)
    ensures ConsecutiveChain(won)
  {
    hide CanTransition, Terminal;
    forall n | 0 <= n < |won|
      ensures
        && won[n].step.from == (if n == 0 then WatchingEntry else won[n - 1].step.to)
        && CanTransition(won[n].step.from, won[n].step.to)
        && !Terminal(won[n].step.from)
    {
      assert won[n].step == wins[n].step;
      ListedTransitionsLeaveLiveStates(wins[n].step.from, wins[n].step.to);
    }
  }

  /** Rely holds of every single step, whoever takes it. */
  lemma StepKeepsRely(s: System, l: Label)
    requires Inv(s)
    ensures Rely(s.table, Step(s, l).table)
  {
    StepKeepsInv(s, l);
    InvBoundsLog(Step(s, l));
    hide Inv;
    LogGrows(s, l);
    hide LogBounded;
  }

  lemma InvBoundsLog(s: System)
    requires Inv(s)
    ensures LogBounded(s.table)
  {
    hide KeysInv, WinsInv, WorkersInv;
    forall e | e in s.table.log
      ensures e.signal in s.table.rows && e.key.signal == e.signal
      ensures e.version == e.key.expected + 1 <= s.table.rows[e.signal].version
    {
      assert EventInv(s.wins, e);
      assert RowInv(s.table.rows[e.signal], s.wins[e.signal]);
    }
  }

  lemma LogGrows(s: System, l: Label)
    ensures s.table.log <= Step(s, l).table.log
    ensures forall id | id in s.table.rows ::
              && id in Step(s, l).table.rows
              && s.table.rows[id].version <= Step(s, l).table.rows[id].version
              && (s.table.rows[id].version == Step(s, l).table.rows[id].version ==>
                    s.table.rows[id].state == Step(s, l).table.rows[id].state)
  {
  }

  lemma {:induction false} RunKeepsRely(labels: seq<Label>, n: nat)
    requires n <= |labels|
    ensures Rely(Run(EMPTY_SYSTEM, labels[..n]).table, Run(EMPTY_SYSTEM, labels).table)
    decreases |labels|
  {
    if n < |labels| {
      var before := labels[..|labels| - 1];
      assert before[..n] == labels[..n];
      RunKeepsRely(before, n);
      RunKeepsInv(before);
      hide Rely, Inv, Step;
      StepKeepsRely(Run(EMPTY_SYSTEM, before), labels[|labels| - 1]);
      RelyIsTransitive(Run(EMPTY_SYSTEM, labels[..n]).table, Run(EMPTY_SYSTEM, before).table,
                       Run(EMPTY_SYSTEM, labels).table);
    } else {
      assert labels[..n] == labels;
    }
  }

  /** Each version of a signal is advanced by at most one call, at whatever two points of a run. */
  lemma OneWinnerPerVersion(labels: seq<Label>, i: nat, j: nat, id: SignalId)
    requires i < j < |labels|
    requires WinsFor(Run(EMPTY_SYSTEM, labels[..i]), labels[i], id)
    requires WinsFor(Run(EMPTY_SYSTEM, labels[..j]), labels[j], id)
    ensures Run(EMPTY_SYSTEM, labels[..i]).workers[labels[i].w].Expected()
         < Run(EMPTY_SYSTEM, labels[..j]).workers[labels[j].w].Expected()
  {
    var atI := Run(EMPTY_SYSTEM, labels[..i]);
    assert labels[..i + 1][..i] == labels[..i];
    assert labels[..j][..i + 1] == labels[..i + 1];
    RunKeepsRely(labels[..j], i + 1);
    assert Run(EMPTY_SYSTEM, labels[..i + 1]) == Step(atI, labels[i]);
  }

  /** A signal that reached a terminal state keeps its state and version in every continuation. */
  lemma TerminalIsForever(labels: seq<Label>, n: nat, id: SignalId)
    requires n <= |labels|
    requires id in Run(EMPTY_SYSTEM, labels[..n]).table.rows
    requires Terminal(Run(EMPTY_SYSTEM, labels[..n]).table.rows[id].state)
    ensures id in Run(EMPTY_SYSTEM, labels).table.rows
    ensures Run(EMPTY_SYSTEM, labels).table.rows[id].state == Run(EMPTY_SYSTEM, labels[..n]).table.rows[id].state
    ensures Run(EMPTY_SYSTEM, labels).table.rows[id].version == Run(EMPTY_SYSTEM, labels[..n]).table.rows[id].version
  {
    RunKeepsRely(labels, n);
    TransitionsFormOneChain(labels[..n], id);
    TransitionsFormOneChain(labels, id);
    WonUpdatesGrow(labels, n, id);
    var won, won' := WonUpdates(labels[..n], id), WonUpdates(labels, id);
    assert |won| > 0 && won'[|won| - 1] == won[|won| - 1];
    assert |won| == |won'| by {
      if |won| < |won'| {
        NextStartsAtLast(won, won'[|won|]);
      }
    }
  }

  lemma NextStartsAtLast(won: seq<Update>, next: Update)
    requires |won| > 0 && Terminal(won[|won| - 1].step.to)
    requires CanTransition(next.step.from, next.step.to)
    ensures next.step.from != won[|won| - 1].step.to
  {
  }

  lemma {:induction false} WonUpdatesGrow(labels: seq<Label>, n: nat, id: SignalId)
    requires n <= |labels|
    ensures WonUpdates(labels[..n], id) <= WonUpdates(labels, id)
    decreases |labels|
  {
    if n < |labels| {
      var before := labels[..|labels| - 1];
      assert before[..n] == labels[..n];
      WonUpdatesGrow(before, n, id);
    } else {
      assert labels[..n] == labels;
    }
  }

  // ------------------------------------------------------------------ one worker's loop

  /**
    The steps a worker counts as applied are a prefix of its list, won by this very worker on the
    consecutive versions from the one it was given, each with its event in the log.
   */
  lemma AppliedStepsAreAWonPrefix(labels: seq<Label>, w: WorkerId)
    requires w in Run(EMPTY_SYSTEM, labels).workers
    ensures var s := Run(EMPTY_SYSTEM, labels);
            var k := s.workers[w];
            var won := WonUpdates(labels, k.id);
            && k.base >= ADMITTED_VERSION && k.applied <= |k.steps| && k.conflicts <= 1
            && k.base - ADMITTED_VERSION + k.applied <= |won|
            && forall j | 0 <= j < k.applied ::
                 && won[k.base - ADMITTED_VERSION + j] == Update(k.base + j, k.steps[j], w)
                 && TransitionEvent(k.id, k.base + j, k.steps[j]) in s.table.log
  {
    hide Run, WonUpdates;
    var s := Run(EMPTY_SYSTEM, labels);
    var k := s.workers[w];
    WorkerAfterRun(labels, w);
    HistoryIsTheRun(labels, k.id);
    assert k.applied > 0 ==> StepWon(s.wins, w, k, k.applied - 1);
    forall j | 0 <= j < k.applied
      ensures WonUpdates(labels, k.id)[k.base - ADMITTED_VERSION + j] == Update(k.base + j, k.steps[j], w)
      ensures TransitionEvent(k.id, k.base + j, k.steps[j]) in s.table.log
    {
      assert StepWon(s.wins, w, k, j) && StepLogged(s.table.log, k, j);
    }
  }

  /**
    Besides the counted ones a worker has won at most its next step, and that only while the call
    is between its commits, or when it died or came back as FAILED.
   */
  lemma UncountedWinsAreInterrupted(labels: seq<Label>, id: SignalId, n: nat)
    requires n < |WonUpdates(labels, id)|
    ensures var s := Run(EMPTY_SYSTEM, labels);
            var u := WonUpdates(labels, id)[n];
            && u.worker in s.workers
            && var k := s.workers[u.worker];
               && k.id == id && k.base <= u.expected <= k.Expected()
               && u.expected - k.base < |k.steps| && u.step == k.steps[u.expected - k.base]
               && (u.expected == k.Expected() ==> k.phase in {RowWon, EventLogged} || Interrupted(k))
  {
    hide Run, WonUpdates;
    var s := Run(EMPTY_SYSTEM, labels);
    HistoryIsTheRun(labels, id);
    WinAfterRun(labels, id, n);
  }

  // ------------------------------------------------------------------ audit log

  /** What an event past admission records of a row update, column by column. */
  predicate Records(e: Event, u: Update) {
    && e.from == Some(u.step.from) && e.to == u.step.to
    && e.eventType == u.step.eventType
    && e.version == u.expected + 1
    && e.key.signal == e.signal && e.key.eventType == u.step.eventType && e.key.to == u.step.to
    && e.key.expected == u.expected
  }

  /** What the three events of an admission record. */
  predicate RecordsAdmission(e: Event) {
    && e.key.signal == e.signal && e.key.eventType == e.eventType && e.key.to == e.to && e.key.expected == e.version - 1
    && ((e.version == 0 && e.eventType == Created && e.from == None && e.to == Draft)
        || (e.version == 1 && e.eventType == Entering(PendingAdmission) && e.from == Some(Draft)
            && e.to == PendingAdmission)
        || (e.version == 2 && e.eventType == Entering(WatchingEntry) && e.from == Some(PendingAdmission)
            && e.to == WatchingEntry))
  }

  /**
    Every event in the log is one of an admission, or it belongs to the row update that really took
    effect on its version and records it column by column.
   */
  lemma LoggedTransitionsAreReal(labels: seq<Label>, e: Event)
    requires e in Run(EMPTY_SYSTEM, labels).table.log
    ensures var won := WonUpdates(labels, e.signal);
            if e.version <= ADMITTED_VERSION then RecordsAdmission(e)
            else e.version - ADMITTED_VERSION - 1 < |won| && Records(e, won[e.version - ADMITTED_VERSION - 1])
  {
    hide Run, WonUpdates;
    var s := Run(EMPTY_SYSTEM, labels);
    HistoryIsTheRun(labels, e.signal);
    EventAfterRun(labels, e);
  }

  /** The logged events of a signal chain: each one starts where the one before it, if it is logged, ended. */
  lemma LoggedEventsChain(labels: seq<Label>, e: Event, next: Event)
    requires e in Run(EMPTY_SYSTEM, labels).table.log && next in Run(EMPTY_SYSTEM, labels).table.log
    requires next.signal == e.signal && next.version == e.version + 1
    ensures next.from == Some(e.to)
  {
    hide Run, WonUpdates;
    LoggedTransitionsAreReal(labels, e);
    LoggedTransitionsAreReal(labels, next);
    if next.version > ADMITTED_VERSION {
      EventsSignalExists(labels, e);
      TransitionsFormOneChain(labels, e.signal);
      var won, n := WonUpdates(labels, e.signal), next.version - ADMITTED_VERSION - 1;
      ChainLink(won, n);
      assert Records(next, won[n]);
      assert n > 0 ==> Records(e, won[n - 1]);
    }
  }

  lemma ChainLink(won: seq<Update>, n: nat)
    requires ConsecutiveChain(won) && n < |won|
    ensures won[n].step.from == if n == 0 then WatchingEntry else won[n - 1].step.to
  {
  }

  /** The event of the row's own version, if it is logged, ends in the row's state. */
  lemma NewestEventIsTheState(labels: seq<Label>, e: Event)
    requires e in Run(EMPTY_SYSTEM, labels).table.log
    ensures e.signal in Run(EMPTY_SYSTEM, labels).table.rows
    ensures e.version <= Run(EMPTY_SYSTEM, labels).table.rows[e.signal].version
    ensures e.version == Run(EMPTY_SYSTEM, labels).table.rows[e.signal].version ==>
              e.to == Run(EMPTY_SYSTEM, labels).table.rows[e.signal].state
  {
    hide Run, WonUpdates;
    LoggedTransitionsAreReal(labels, e);
    EventsSignalExists(labels, e);
    TransitionsFormOneChain(labels, e.signal);
  }

  lemma EventsSignalExists(labels: seq<Label>, e: Event)
    requires e in Run(EMPTY_SYSTEM, labels).table.log
    ensures e.signal in Run(EMPTY_SYSTEM, labels).table.rows
  {
    hide Run;
    EventAfterRun(labels, e);
    RunKeepsInv(labels);
  }

  /** No signal has two events for the same version. */
  lemma EventsAreLoggedOnce(labels: seq<Label>, i: nat, j: nat)
    requires i < j < |Run(EMPTY_SYSTEM, labels).table.log|
    ensures var log := Run(EMPTY_SYSTEM, labels).table.log;
            log[i].signal == log[j].signal ==> log[i].version != log[j].version
  {
    hide Run, WonUpdates;
    var s := Run(EMPTY_SYSTEM, labels);
    var log := s.table.log;
    LoggedTransitionsAreReal(labels, log[i]);
    LoggedTransitionsAreReal(labels, log[j]);
    EventAfterRun(labels, log[i]);
    assert log[i].key != log[j].key;
  }

  lemma RunUnfolds(s: System, labels: seq<Label>, n: nat)
    requires n < |labels|
    ensures Run(s, labels[..n + 1]) == Step(Run(s, labels[..n]), labels[n])
    ensures Run(s, labels[..0]) == s
  {
    assert labels[..n + 1][..n] == labels[..n];
  }

  // ------------------------------------------------------------------ live signals

  /** Live rows carry their dedupe key as active_key, terminal rows none; one live row per key. */
  lemma OneLiveSignalPerKey(labels: seq<Label>)
    ensures var rows := Run(EMPTY_SYSTEM, labels).table.rows;
            && (forall id | id in rows :: rows[id].activeKey == Some(rows[id].dedupeKey) <==> !Terminal(rows[id].state))
            && (forall id | id in rows :: rows[id].activeKey.None? <==> Terminal(rows[id].state))
            && (forall id | id in rows :: rows[id].terminalAt.Some? <==> Terminal(rows[id].state))
            && forall a, b | a in rows && b in rows && !Terminal(rows[a].state) && !Terminal(rows[b].state)
                             && rows[a].dedupeKey == rows[b].dedupeKey :: a == b
  {
    hide Run;
    var rows := Run(EMPTY_SYSTEM, labels).table.rows;
    forall id | id in rows
      ensures KeyInv(rows[id])
    {
      RowAfterRun(labels, id);
    }
    forall a, b | a in rows && b in rows && !Terminal(rows[a].state) && !Terminal(rows[b].state)
                  && rows[a].dedupeKey == rows[b].dedupeKey
      ensures a == b
    {
      assert KeyInv(rows[a]) && KeyInv(rows[b]);
      assert SameActiveKey(rows, a, b);
      LiveKeysAfterRun(labels, a, b);
    }
  }
}
