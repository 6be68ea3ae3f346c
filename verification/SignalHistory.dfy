/** What a signal's row tells of its past: how often it can have moved, and when it entered its marked states. */
module SignalHistory {
  import opened Options
  import opened SignalStateMachine
  import opened LifecycleTable
  import opened LifecycleProtocol
  import opened LifecycleInvariant
  import opened LifecycleSafety

  // ------------------------------------------------------------------ every signal comes to an end

  /** How far along its life a signal is; all ends are equally far. */
  function Progress(s: State): nat {
    match s
    case Draft => 0
    case PendingAdmission => 1
    case WatchingEntry => 2
    case EntryConfirmed => 3
    case ActiveResearch => 4
    case Target1Reached => 5
    case Target2Reached => 6
    case TrailingResearch => 7
    case Paused => 8
    case _ => 9
  }

  lemma TransitionsProgress(from: State, to: State)
    requires CanTransition(from, to)
    ensures Progress(from) < Progress(to)
  {
  }

  lemma {:induction false} ChainProgresses(won: seq<Update>, n: nat, m: nat)
    requires ConsecutiveChain(won) && n <= m < |won|
    ensures Progress(won[n].step.to) + (m - n) <= Progress(won[m].step.to)
    ensures 3 + m <= Progress(won[m].step.to)
  {
    TransitionsProgress(won[m].step.from, won[m].step.to);
    ChainLink(won, m);
    hide Progress, CanTransition, ConsecutiveChain;
    if n < m {
      ChainProgresses(won, n, m - 1);
    } else if m > 0 {
      ChainProgresses(won, m - 1, m - 1);
    }
    assert Progress(WatchingEntry) == 2 by {
      ProgressOfAdmitted();
    }
  }

  lemma ProgressOfAdmitted()
    ensures Progress(WatchingEntry) == 2
  {
  }

  /** Over every run a signal moves at most seven times, and never enters a state twice. */
  lemma SignalsMoveFewTimes(labels: seq<Label>, id: SignalId)
    requires id in Run(EMPTY_SYSTEM, labels).table.rows
    ensures Run(EMPTY_SYSTEM, labels).table.rows[id].version <= 9
    ensures var won := WonUpdates(labels, id);
            forall n, m | 0 <= n < m < |won| :: won[n].step.to != won[m].step.to
  {
    hide Run, WonUpdates, ConsecutiveChain;
    var won := WonUpdates(labels, id);
    TransitionsFormOneChain(labels, id);
    if won != [] {
      ChainProgresses(won, |won| - 1, |won| - 1);
    }
    hide Progress;
    forall n, m | 0 <= n < m < |won|
      ensures won[n].step.to != won[m].step.to
    {
      ChainProgresses(won, n, m);
    }
  }

  /** Seven moves are possible. */
  lemma LongestLife()
    ensures ValidChain(WatchingEntry, LONGEST_LIFE) && |LONGEST_LIFE| == 7
  {
  }

  const LONGEST_LIFE := [
    TransitionStep(WatchingEntry, EntryConfirmed, Entering(EntryConfirmed), 0),
    TransitionStep(EntryConfirmed, ActiveResearch, Entering(ActiveResearch), 0),
    TransitionStep(ActiveResearch, Target1Reached, Entering(Target1Reached), 0),
    TransitionStep(Target1Reached, Target2Reached, Entering(Target2Reached), 0),
    TransitionStep(Target2Reached, TrailingResearch, Entering(TrailingResearch), 0),
    TransitionStep(TrailingResearch, Paused, Entering(Paused), 0),
    TransitionStep(Paused, Expired, Entering(Expired), 0)]

  // ------------------------------------------------------------------ the time stamps

  /** A column holds the time of the one call that brought the signal into such a state, or nothing. */
  predicate Stamped(column: Option<Instant>, won: seq<Update>, workers: map<WorkerId, Worker>, marks: set<State>) {
    && (forall n | 0 <= n < |won| && won[n].step.to in marks ::
          won[n].worker in workers && column == Some(workers[won[n].worker].now))
    && (column.Some? ==> exists n | 0 <= n < |won| :: won[n].step.to in marks)
  }

  predicate AllStamped(row: Row, won: seq<Update>, workers: map<WorkerId, Worker>) {
    && Stamped(row.entryConfirmedAt, won, workers, {EntryConfirmed})
    && Stamped(row.activeResearchAt, won, workers, {ActiveResearch})
    && Stamped(row.terminalAt, won, workers, ENDS)
  }

  /** Calls never disappear and keep the time they started with. */
  lemma CallsKeepTheirTime(s: System, l: Label)
    ensures forall w | w in s.workers :: w in Step(s, l).workers && Step(s, l).workers[w].now == s.workers[w].now
  {
    hide UpdateMatches, ValidChain, UpdateRow, InsertEvent, Claimable, ClaimRow, ReleaseRow, InsertRow,
         InsertAdmissionEvents, InsertAccepted;
  }

  /** The row columns that only a won update or an admission writes. */
  predicate SameStamps(row: Row, row': Row) {
    && row'.entryConfirmedAt == row.entryConfirmedAt && row'.activeResearchAt == row.activeResearchAt
    && row'.terminalAt == row.terminalAt && row'.dedupeKey == row.dedupeKey
  }

  lemma StepKeepsStamps(s: System, l: Label, id: SignalId)
    requires id in s.table.rows && !WinsFor(s, l, id)
    ensures id in Step(s, l).table.rows && SameStamps(s.table.rows[id], Step(s, l).table.rows[id])
  {
    hide ValidChain, Advanced;
  }

  lemma AdmissionStamps(s: System, l: Label, id: SignalId)
    requires id !in s.table.rows && id in Step(s, l).table.rows
    ensures l.Admit? && l.signal.id == id && Step(s, l).table.rows[id].dedupeKey == l.signal.dedupeKey
    ensures AllStamped(Step(s, l).table.rows[id], [], Step(s, l).workers)
  {
    hide ValidChain, Advanced;
  }

  lemma WinStamps(s: System, l: Label, id: SignalId)
    requires WinsFor(s, l, id)
    ensures id in s.table.rows && id in Step(s, l).table.rows
    ensures var k := s.workers[l.w];
            var row, row', to := s.table.rows[id], Step(s, l).table.rows[id], k.steps[k.applied].to;
            && row'.entryConfirmedAt == (if to == EntryConfirmed then Some(k.now) else row.entryConfirmedAt)
            && row'.activeResearchAt == (if to == ActiveResearch then Some(k.now) else row.activeResearchAt)
            && row'.terminalAt == (if to in ENDS then Some(k.now) else row.terminalAt)
            && row'.dedupeKey == row.dedupeKey
  {
  }

  lemma OneMoreStamp(column: Option<Instant>, column': Option<Instant>, won: seq<Update>, u: Update,
                     workers: map<WorkerId, Worker>, workers': map<WorkerId, Worker>, marks: set<State>)
    requires Stamped(column, won, workers, marks) && u.worker in workers'
    requires forall w | w in workers :: w in workers' && workers'[w].now == workers[w].now
    requires forall n | 0 <= n < |won| && u.step.to in marks :: won[n].step.to !in marks
    requires column' == if u.step.to in marks then Some(workers'[u.worker].now) else column
    ensures Stamped(column', won + [u], workers', marks)
  {
    var more := won + [u];
    assert more[|won|] == u;
    if column'.Some? && u.step.to !in marks {
      var n :| 0 <= n < |won| && won[n].step.to in marks;
      assert more[n] == won[n];
    }
  }

  lemma StampsStay(column: Option<Instant>, won: seq<Update>, workers: map<WorkerId, Worker>,
                   workers': map<WorkerId, Worker>, marks: set<State>)
    requires Stamped(column, won, workers, marks)
    requires forall w | w in workers :: w in workers' && workers'[w].now == workers[w].now
    ensures Stamped(column, won, workers', marks)
  {
  }

  /** A mark is entered by at most one update. */
  lemma MarksAreEnteredOnce(won: seq<Update>, n: nat, marks: set<State>)
    requires ConsecutiveChain(won) && n < |won| - 1
    requires marks == {EntryConfirmed} || marks == {ActiveResearch} || marks == ENDS
    requires won[|won| - 1].step.to in marks
    ensures won[n].step.to !in marks
  {
    ChainProgresses(won, n, |won| - 1);
  }

  lemma WinKeepsStamps(s: System, l: Label, id: SignalId, won: seq<Update>, u: Update)
    requires WinsFor(s, l, id) && id in s.table.rows && AllStamped(s.table.rows[id], won, s.workers)
    requires u == Update(s.workers[l.w].Expected(), s.workers[l.w].steps[s.workers[l.w].applied], l.w)
    requires ConsecutiveChain(won + [u])
    ensures id in Step(s, l).table.rows && AllStamped(Step(s, l).table.rows[id], won + [u], Step(s, l).workers)
  {
    var more, s' := won + [u], Step(s, l);
    WinStamps(s, l, id);
    CallsKeepTheirTime(s, l);
    var row, row' := s.table.rows[id], s'.table.rows[id];
    hide Step, WinsFor, Stamped, ConsecutiveChain;
    forall n, marks | 0 <= n < |won| && marks in {{EntryConfirmed}, {ActiveResearch}, ENDS} && u.step.to in marks
      ensures won[n].step.to !in marks
    {
      MarksAreEnteredOnce(more, n, marks);
      assert more[n] == won[n] && more[|won|] == u;
    }
    OneMoreStamp(row.entryConfirmedAt, row'.entryConfirmedAt, won, u, s.workers, s'.workers, {EntryConfirmed});
    OneMoreStamp(row.activeResearchAt, row'.activeResearchAt, won, u, s.workers, s'.workers, {ActiveResearch});
    OneMoreStamp(row.terminalAt, row'.terminalAt, won, u, s.workers, s'.workers, ENDS);
  }

  /**
    Over every run the three time stamps of a row tell its history: each is the start time of the
    one call whose update brought the signal into that state, or into an end, and empty if none did.
   */
  lemma {:induction false} StampsTellTheHistory(labels: seq<Label>, id: SignalId)
    requires id in Run(EMPTY_SYSTEM, labels).table.rows
    ensures var s := Run(EMPTY_SYSTEM, labels);
            AllStamped(s.table.rows[id], WonUpdates(labels, id), s.workers)
    decreases |labels|
  {
    var before, l := labels[..|labels| - 1], labels[|labels| - 1];
    var s := Run(EMPTY_SYSTEM, before);
    var won := WonUpdates(before, id);
    hide Step, AllStamped, WinsFor;
    if id !in s.table.rows {
      AdmissionStamps(s, l, id);
      NothingWonYet(before, id);
      NoWinOfAdmission(s, l, id);
    } else {
      StampsTellTheHistory(before, id);
      if WinsFor(s, l, id) {
        TransitionsFormOneChain(labels, id);
        var k := s.workers[l.w];
        WinKeepsStamps(s, l, id, won, Update(k.Expected(), k.steps[k.applied], l.w));
      } else {
        assert WonUpdates(labels, id) == won;
        assert Run(EMPTY_SYSTEM, labels) == Step(s, l);
        StepKeepsStamps(s, l, id);
        CallsKeepTheirTime(s, l);
        RowKeepsStamps(s.table.rows[id], Step(s, l).table.rows[id], won, s.workers, Step(s, l).workers);
      }
    }
  }

  lemma RowKeepsStamps(row: Row, row': Row, won: seq<Update>, workers: map<WorkerId, Worker>,
                       workers': map<WorkerId, Worker>)
    requires AllStamped(row, won, workers) && SameStamps(row, row')
    requires forall w | w in workers :: w in workers' && workers'[w].now == workers[w].now
    ensures AllStamped(row', won, workers')
  {
    hide Stamped;
    StampsStay(row.entryConfirmedAt, won, workers, workers', {EntryConfirmed});
    StampsStay(row.activeResearchAt, won, workers, workers', {ActiveResearch});
    StampsStay(row.terminalAt, won, workers, workers', ENDS);
  }

  lemma NoWinOfAdmission(s: System, l: Label, id: SignalId)
    requires l.Admit?
    ensures !WinsFor(s, l, id)
  {
  }

  lemma NothingWonYet(labels: seq<Label>, id: SignalId)
    requires id !in Run(EMPTY_SYSTEM, labels).table.rows
    ensures WonUpdates(labels, id) == []
  {
    hide Run, WonUpdates;
    HistoryIsTheRun(labels, id);
    RunKeepsInv(labels);
  }

  /** A row belongs to an admission of the run, whose dedupe key it keeps for good. */
  lemma {:induction false} RowsWereAdmitted(labels: seq<Label>, id: SignalId)
    requires id in Run(EMPTY_SYSTEM, labels).table.rows
    ensures exists n | 0 <= n < |labels| ::
              && labels[n].Admit? && labels[n].signal.id == id
              && labels[n].signal.dedupeKey == Run(EMPTY_SYSTEM, labels).table.rows[id].dedupeKey
    decreases |labels|
  {
    var before, l := labels[..|labels| - 1], labels[|labels| - 1];
    var s := Run(EMPTY_SYSTEM, before);
    hide Step, WinsFor;
    if id !in s.table.rows {
      AdmissionStamps(s, l, id);
      assert labels[|labels| - 1].Admit?;
    } else {
      RowsWereAdmitted(before, id);
      if WinsFor(s, l, id) {
        WinStamps(s, l, id);
      } else {
        StepKeepsStamps(s, l, id);
      }
      var n :| 0 <= n < |before| && before[n].Admit? && before[n].signal.id == id
               && before[n].signal.dedupeKey == s.table.rows[id].dedupeKey;
      assert labels[n] == before[n];
    }
  }
}
