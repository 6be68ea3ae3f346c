/** Which row updates have their event in the audit log, over every run of the lifecycle protocol. */
module AuditLog {
  import opened Options
  import opened SignalStateMachine
  import opened LifecycleTable
  import opened LifecycleProtocol
  import opened LifecycleInvariant
  import opened LifecycleSafety

  predicate Unlogged(s: System, id: SignalId, u: Update) {
    TransitionEvent(id, u.expected, u.step) !in s.table.log
  }

  /** The call that won the update stands between its two commits. */
  predicate Pending(s: System, id: SignalId, u: Update) {
    InPhase(s, u.worker, {RowWon}) && s.workers[u.worker].id == id && s.workers[u.worker].Expected() == u.expected
  }

  /** Label l makes that call fail or die there, instead of committing the event. */
  predicate Abandons(s: System, l: Label, id: SignalId, u: Update) {
    Pending(s, id, u) && (l == Fail(u.worker) || l == Die(u.worker))
  }

  predicate Abandoned(labels: seq<Label>, id: SignalId, u: Update)
    decreases |labels|
  {
    labels != [] &&
      var before := labels[..|labels| - 1];
      Abandoned(before, id, u) || Abandons(Run(EMPTY_SYSTEM, before), labels[|labels| - 1], id, u)
  }

  /** Update u is entry n of the signal's history. */
  predicate IsWin(s: System, id: SignalId, n: nat, u: Update) {
    && id in s.wins && n < |s.wins[id]|
    && u == Update(ADMITTED_VERSION + n, s.wins[id][n].step, s.wins[id][n].worker)
  }

  // ------------------------------------------------------------------ one step

  /** Only the winner's own event commit logs the event of an update. */
  lemma OnlyTheWinnerLogs(s: System, l: Label, id: SignalId, n: nat, u: Update)
    requires Inv(s) && IsWin(s, id, n, u) && Unlogged(s, id, u)
    requires !(l == CommitEvent(u.worker) && Pending(s, id, u))
    ensures Unlogged(Step(s, l), id, u)
  {
    hide RowsInv, KeysInv, LogInv, WinsInv;
    if l.CommitEvent? && Enabled(s, l) {
      assert WorkerInv(s.wins, s.table.log, l.w, s.workers[l.w]);
    }
  }

  lemma EventsStay(s: System, l: Label, id: SignalId, u: Update)
    requires !Unlogged(s, id, u)
    ensures !Unlogged(Step(s, l), id, u)
  {
  }

  /** While a call stands between its two commits nobody else logs an event under its key. */
  lemma OwnKeyIsOurs(s: System, l: Label, w: WorkerId)
    requires Inv(s) && InPhase(s, w, {RowWon}) && l != CommitEvent(w)
    requires var k := s.workers[w];
             k.applied < |k.steps| && !KeyLogged(s.table, TransitionEvent(k.id, k.Expected(), k.steps[k.applied]).key)
    ensures var k := s.workers[w];
            !KeyLogged(Step(s, l).table, TransitionEvent(k.id, k.Expected(), k.steps[k.applied]).key)
  {
    hide RowsInv, KeysInv, LogInv, WinsInv;
    assert WorkerInv(s.wins, s.table.log, w, s.workers[w]);
    if l.CommitEvent? && Enabled(s, l) {
      assert WorkerInv(s.wins, s.table.log, l.w, s.workers[l.w]);
    }
  }

  /** The winner's event commit does log it. */
  lemma CommitLogs(s: System, id: SignalId, n: nat, u: Update)
    requires Inv(s) && IsWin(s, id, n, u) && Pending(s, id, u)
    ensures !Unlogged(Step(s, CommitEvent(u.worker)), id, u)
  {
    hide RowsInv, KeysInv, WinsInv;
    var k := s.workers[u.worker];
    assert WorkerInv(s.wins, s.table.log, u.worker, k);
    var e := TransitionEvent(k.id, k.Expected(), k.steps[k.applied]);
    if KeyLogged(s.table, e.key) {
      var x :| x in s.table.log && x.key == e.key;
      assert EventInv(s.wins, x);
    } else {
      assert InsertEvent(s.table, e).log[|s.table.log|] == e;
    }
  }

  /** The worker label l moves, if any. */
  function Mover(l: Label): Option<WorkerId> {
    match l
    case Admit(_) => None
    case LogAdmission(_) => None
    case Begin(w, _, _, _, _, _) => Some(w)
    case Claim(w) => Some(w)
    case CommitRow(w) => Some(w)
    case CommitEvent(w) => Some(w)
    case Return(w) => Some(w)
    case Fail(w) => Some(w)
    case Exhaust(w) => Some(w)
    case Release(w) => Some(w)
    case Die(w) => Some(w)
  }

  lemma OthersStandStill(s: System, l: Label, w: WorkerId)
    requires Mover(l) != Some(w)
    ensures w in Step(s, l).workers <==> w in s.workers
    ensures w in s.workers ==> Step(s, l).workers[w] == s.workers[w]
  {
  }

  /** Only a winning row update brings a worker between its two commits, and there it stays until it moves on. */
  lemma RowWonSteps(s: System, l: Label, w: WorkerId)
    requires Mover(l) == Some(w)
    requires InPhase(s, w, {RowWon}) ==> s.workers[w].applied < |s.workers[w].steps|
    ensures InPhase(Step(s, l), w, {RowWon}) <==>
            || (l.CommitRow? && WinsRow(s, w))
            || (InPhase(s, w, {RowWon}) && !l.CommitEvent? && !l.Fail? && !l.Die?)
    ensures w in s.workers && InPhase(Step(s, l), w, {RowWon}) ==>
              && Step(s, l).workers[w].id == s.workers[w].id
              && Step(s, l).workers[w].Expected() == s.workers[w].Expected()
  {
    hide UpdateMatches, Terminal, ValidChain, UpdateRow, InsertEvent, Claimable, ClaimRow, ReleaseRow;
  }

  /** A call is between its commits once: it gets there by winning, and leaves by one of three labels. */
  lemma PendingSteps(s: System, l: Label, id: SignalId, n: nat, u: Update)
    requires Inv(s) && IsWin(s, id, n, u)
    ensures Pending(Step(s, l), id, u) <==>
            Pending(s, id, u) && l !in {CommitEvent(u.worker), Fail(u.worker), Die(u.worker)}
  {
    hide KeysInv, LogInv, WinsInv, Step;
    if u.worker in s.workers {
      assert WorkerInv(s.wins, s.table.log, u.worker, s.workers[u.worker]);
    }
    if Mover(l) == Some(u.worker) {
      RowWonSteps(s, l, u.worker);
      if l.CommitRow? && WinsRow(s, u.worker) && s.workers[u.worker].id == id {
        assert RowInv(s.table.rows[id], s.wins[id]);
      }
    } else {
      OthersStandStill(s, l, u.worker);
    }
  }

  /** A new win has no event yet, and its call is between the commits. */
  lemma NewWinIsPending(s: System, l: Label, id: SignalId, u: Update)
    requires Inv(s) && WinsFor(s, l, id)
    requires u == Update(s.workers[l.w].Expected(), s.workers[l.w].steps[s.workers[l.w].applied], l.w)
    ensures Pending(Step(s, l), id, u) && Unlogged(Step(s, l), id, u) && !Pending(s, id, u)
  {
    hide KeysInv, WinsInv, WorkersInv;
    assert RowInv(s.table.rows[id], s.wins[id]);
    var e := TransitionEvent(id, u.expected, u.step);
    assert e in s.table.log ==> EventInv(s.wins, e);
  }

  // ------------------------------------------------------------------ all runs

  lemma WinOfUpdate(labels: seq<Label>, id: SignalId, n: nat)
    requires n < |WonUpdates(labels, id)|
    ensures IsWin(Run(EMPTY_SYSTEM, labels), id, n, WonUpdates(labels, id)[n])
  {
    hide Run, WonUpdates;
    HistoryIsTheRun(labels, id);
  }

  lemma {:induction false} NotAbandonedBeforeWon(labels: seq<Label>, id: SignalId, u: Update)
    requires forall n | 0 <= n < |WonUpdates(labels, id)| :: WonUpdates(labels, id)[n].expected < u.expected
    ensures !Abandoned(labels, id, u) && !Pending(Run(EMPTY_SYSTEM, labels), id, u)
    decreases |labels|
  {
    var s := Run(EMPTY_SYSTEM, labels);
    if Pending(s, id, u) {
      WorkerAfterRun(labels, u.worker);
      HistoryIsTheRun(labels, id);
    }
    if labels != [] {
      WonUpdatesGrow(labels, |labels| - 1, id);
      NotAbandonedBeforeWon(labels[..|labels| - 1], id, u);
    }
  }

  /**
    An update lacks its event exactly while its call stands between its two commits, or when that
    call left this point by failing or dying instead of committing the event.
   */
  lemma {:induction false} EventMissingExactlyWhen(labels: seq<Label>, id: SignalId, n: nat)
    requires n < |WonUpdates(labels, id)|
    ensures var s, u := Run(EMPTY_SYSTEM, labels), WonUpdates(labels, id)[n];
            && (Unlogged(s, id, u) <==> Pending(s, id, u) || Abandoned(labels, id, u))
            && !(Pending(s, id, u) && Abandoned(labels, id, u))
    decreases |labels|
  {
    var before, l := labels[..|labels| - 1], labels[|labels| - 1];
    var s, u := Run(EMPTY_SYSTEM, before), WonUpdates(labels, id)[n];
    RunKeepsInv(before);
    hide Step, Inv, Pending, Unlogged, WinsFor, Enabled;
    if n < |WonUpdates(before, id)| {
      EventMissingExactlyWhen(before, id, n);
      WinOfUpdate(before, id, n);
      PendingSteps(s, l, id, n, u);
      if Unlogged(s, id, u) {
        if l == CommitEvent(u.worker) && Pending(s, id, u) {
          CommitLogs(s, id, n, u);
        } else {
          OnlyTheWinnerLogs(s, l, id, n, u);
        }
      } else {
        EventsStay(s, l, id, u);
      }
    } else {
      NewWinIsPending(s, l, id, u);
      WinOfUpdate(labels, id, n);
      OlderWinsAreSmaller(before, id, u, n);
      NotAbandonedBeforeWon(before, id, u);
    }
  }

  lemma OlderWinsAreSmaller(labels: seq<Label>, id: SignalId, u: Update, n: nat)
    requires n >= |WonUpdates(labels, id)| && u.expected == ADMITTED_VERSION + n
    ensures forall m | 0 <= m < |WonUpdates(labels, id)| :: WonUpdates(labels, id)[m].expected < u.expected
  {
    hide Run, WonUpdates;
    HistoryIsTheRun(labels, id);
  }

  /**
    The event of a row update is missing only while the winning call is between its two commits,
    or after it died or returned FAILED; a counted update always has its event.
   */
  lemma MissingEventsWereInterrupted(labels: seq<Label>, id: SignalId, n: nat)
    requires n < |WonUpdates(labels, id)|
    ensures var s := Run(EMPTY_SYSTEM, labels);
            var u := WonUpdates(labels, id)[n];
            TransitionEvent(id, u.expected, u.step) !in s.table.log ==>
              && u.worker in s.workers
              && var k := s.workers[u.worker];
                 k.id == id && u.expected == k.Expected() && (k.phase == RowWon || Interrupted(k))
  {
    hide Run, WonUpdates;
    var s := Run(EMPTY_SYSTEM, labels);
    var u := WonUpdates(labels, id)[n];
    UncountedWinsAreInterrupted(labels, id, n);
    var k := s.workers[u.worker];
    AppliedStepsAreAWonPrefix(labels, u.worker);
    WorkerAfterRun(labels, u.worker);
    assert k.phase == EventLogged ==> StepLogged(s.table.log, k, k.applied);
  }

  /** An event that is missing once its call has left that point stays missing in every continuation. */
  lemma LostForGood(labels: seq<Label>, more: seq<Label>, id: SignalId, n: nat)
    requires n < |WonUpdates(labels, id)|
    requires Unlogged(Run(EMPTY_SYSTEM, labels), id, WonUpdates(labels, id)[n])
    requires !Pending(Run(EMPTY_SYSTEM, labels), id, WonUpdates(labels, id)[n])
    ensures n < |WonUpdates(labels + more, id)| && WonUpdates(labels + more, id)[n] == WonUpdates(labels, id)[n]
    ensures Unlogged(Run(EMPTY_SYSTEM, labels + more), id, WonUpdates(labels, id)[n])
  {
    var all := labels + more;
    assert all[..|labels|] == labels;
    hide Run, WonUpdates, Unlogged, Pending;
    EventMissingExactlyWhen(labels, id, n);
    WonUpdatesGrow(all, |labels|, id);
    AbandonedStays(all, |labels|, id, WonUpdates(labels, id)[n]);
    EventMissingExactlyWhen(all, id, n);
  }

  lemma {:induction false} AbandonedStays(labels: seq<Label>, n: nat, id: SignalId, u: Update)
    requires n <= |labels| && Abandoned(labels[..n], id, u)
    ensures Abandoned(labels, id, u)
    decreases |labels|
  {
    if n < |labels| {
      assert labels[..|labels| - 1][..n] == labels[..n];
      AbandonedStays(labels[..|labels| - 1], n, id, u);
    } else {
      assert labels[..n] == labels;
    }
  }

  const EXPIRY_STEP := TransitionStep(WatchingEntry, Expired, Entering(Expired), 70)
  const LATE_WORKER := Worker(7, 5, 0.0, 60.0, 2, [EXPIRY_STEP], Started, 0, 0, None)
  const LEASED_ROW := FreshRow(NewSignal(7, 1, 0.0)).(leaseOwner := Some(5), leaseExpires := Some(60.0))

  /** Signal 7 is leased by worker 0, which is about to expire it. */
  const BEFORE_EXPIRY := System(Table(map[7 := LEASED_ROW], []), {7},
                               map[0 := LATE_WORKER.(phase := Ready)], map[7 := []])

  const EXPIRED_UNLOGGED := System(Table(map[7 := Advanced(LEASED_ROW, 2, EXPIRY_STEP, 0.0)], []), {7},
                                  map[0 := LATE_WORKER.(phase := RowWon)], map[7 := [Win(0, 0, EXPIRY_STEP)]])

  const EXPIRY_FAILED :=
    Put(EXPIRED_UNLOGGED, 0, LATE_WORKER.(phase := Closing, last := Some(Failed)))

  lemma ReachBeforeExpiry()
    ensures Run(EMPTY_SYSTEM, [Admit(NewSignal(7, 1, 0.0)), Begin(0, 7, 5, 0.0, 60.0, [EXPIRY_STEP]), Claim(0)])
         == BEFORE_EXPIRY
  {
    var l0, l1 := Admit(NewSignal(7, 1, 0.0)), Begin(0, 7, 5, 0.0, 60.0, [EXPIRY_STEP]);
    var labels := [l0, l1, Claim(0)];
    var s1 := System(Table(map[7 := FreshRow(NewSignal(7, 1, 0.0))], []), {7}, map[], map[7 := []]);
    assert Step(EMPTY_SYSTEM, l0) == s1;
    var s2 := s1.(workers := map[0 := LATE_WORKER]);
    assert Step(s1, l1) == s2;
    assert Step(s2, Claim(0)) == BEFORE_EXPIRY;
    RunUnfolds(EMPTY_SYSTEM, labels, 0);
    RunUnfolds(EMPTY_SYSTEM, labels, 1);
    RunUnfolds(EMPTY_SYSTEM, labels, 2);
    assert labels[..3] == labels;
  }

  lemma ReachFailure() returns (labels: seq<Label>)
    ensures Run(EMPTY_SYSTEM, labels) == EXPIRY_FAILED
    ensures WonUpdates(labels, 7) == [Update(2, EXPIRY_STEP, 0)]
  {
    var before := [Admit(NewSignal(7, 1, 0.0)), Begin(0, 7, 5, 0.0, 60.0, [EXPIRY_STEP]), Claim(0)];
    labels := before + [CommitRow(0), Fail(0)];
    ReachBeforeExpiry();
    assert [] + [Win(0, 0, EXPIRY_STEP)] == [Win(0, 0, EXPIRY_STEP)];
    assert Step(BEFORE_EXPIRY, CommitRow(0)) == EXPIRED_UNLOGGED;
    assert Step(EXPIRED_UNLOGGED, Fail(0)) == EXPIRY_FAILED;
    hide Run, WonUpdates, Step;
    RunUnfolds(EMPTY_SYSTEM, labels, 3);
    RunUnfolds(EMPTY_SYSTEM, labels, 4);
    assert labels[..3] == before && labels[..5] == labels;
    HistoryIsTheRun(labels, 7);
  }

  /**
    An error between the two commits loses the event for good: a run that expires signal 7 and
    fails there, after which no continuation ever logs the event of that update.
   */
  lemma AnEventCanBeLost() returns (labels: seq<Label>)
    ensures 7 in Run(EMPTY_SYSTEM, labels).table.rows && Run(EMPTY_SYSTEM, labels).table.rows[7].version == 3
    ensures Run(EMPTY_SYSTEM, labels).table.rows[7].state == Expired
    ensures forall more: seq<Label> ::
              TransitionEvent(7, 2, EXPIRY_STEP) !in Run(EMPTY_SYSTEM, labels + more).table.log
  {
    labels := ReachFailure();
    hide Run, WonUpdates;
    forall more: seq<Label>
      ensures TransitionEvent(7, 2, EXPIRY_STEP) !in Run(EMPTY_SYSTEM, labels + more).table.log
    {
      LostForGood(labels, more, 7, 0);
    }
  }
}
