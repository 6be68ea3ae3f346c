/**
  Any number of admissions and monitor workers over the shared lifecycle tables.

  A worker is one `monitor_one` call: it holds a snapshot of a row, claims the lease, applies its
  steps one commit at a time and releases the lease.  A label names which participant moves next
  and how; a label that is not enabled leaves the system as it is.  A run is any sequence of
  labels, so a statement about all runs is a statement about all interleavings, all crashes and
  all lost acknowledgements.
 */
module LifecycleProtocol {
  import opened Options
  import opened SignalStateMachine
  import opened LifecycleTable

  type WorkerId = nat

  datatype Outcome = Applied | Conflict | NotFound | Failed

  /** Where a worker stands; the commit a phase is named after has already happened. */
  datatype Phase = Started | Ready | RowWon | RowMissed | EventLogged | Closing | Finished | Dead

  datatype Worker = Worker(
    id: SignalId,
    owner: Owner,
    now: Instant,
    leaseSeconds: real,
    base: nat,                     // state_version of the row object the worker was given
    steps: seq<TransitionStep>,
    phase: Phase,
    applied: nat,                  // the loop's counter of APPLIED outcomes
    conflicts: nat,
    last: Option<Outcome>)         // outcome of the latest apply_transition that returned
  {
    /** The loop variable `expected`. */
    function Expected(): nat { base + applied }
  }

  /** History: which worker won a row update, and with which of its steps. */
  datatype Win = Win(worker: WorkerId, index: nat, step: TransitionStep)

  datatype System = System(
    table: Table,
    admitting: set<SignalId>,              // rows inserted by a call that has not logged its chain
    workers: map<WorkerId, Worker>,
    wins: map<SignalId, seq<Win>>)         // one entry for each row update, oldest first

  datatype Label =
    | Admit(signal: NewSignal)
    | LogAdmission(id: SignalId)
    | Begin(w: WorkerId, id: SignalId, owner: Owner, now: Instant, leaseSeconds: real, steps: seq<TransitionStep>)
    | Claim(w: WorkerId)
    | CommitRow(w: WorkerId)
    | CommitEvent(w: WorkerId)
    | Return(w: WorkerId)
    | Fail(w: WorkerId)
    | Exhaust(w: WorkerId)
    | Release(w: WorkerId)
    | Die(w: WorkerId)

  const EMPTY_SYSTEM := System(Table(map[], []), {}, map[], map[])

  predicate InPhase(s: System, w: WorkerId, phases: set<Phase>) {
    w in s.workers && s.workers[w].phase in phases
  }

  function Put(s: System, w: WorkerId, worker: Worker): System {
    s.(workers := s.workers[w := worker])
  }

  function Moved(s: System, w: WorkerId, phase: Phase): System
    requires w in s.workers
  {
    Put(s, w, s.workers[w].(phase := phase))
  }

  /** The row update of a Ready worker would match. */
  predicate WinsRow(s: System, w: WorkerId) {
    && InPhase(s, w, {Ready})
    && var worker := s.workers[w];
       && worker.applied < |worker.steps|
       && UpdateMatches(s.table, worker.id, worker.Expected(), worker.steps[worker.applied].from)
  }

  predicate Enabled(s: System, l: Label) {
    match l
    case Admit(signal) => InsertAccepted(s.table, signal)
    case LogAdmission(id) => id in s.admitting
    case Begin(w, id, _, _, _, steps) =>
      && w !in s.workers
      && id in s.table.rows && !Terminal(s.table.rows[id].state)
      && ValidChain(s.table.rows[id].state, steps)
    case Claim(w) => InPhase(s, w, {Started})
    case CommitRow(w) => InPhase(s, w, {Ready}) && s.workers[w].applied < |s.workers[w].steps|
    case CommitEvent(w) => InPhase(s, w, {RowWon}) && s.workers[w].applied < |s.workers[w].steps|
    case Return(w) => InPhase(s, w, {EventLogged, RowMissed})
    case Fail(w) => InPhase(s, w, {Ready, RowWon, RowMissed, EventLogged})
    case Exhaust(w) => InPhase(s, w, {Ready}) && s.workers[w].applied == |s.workers[w].steps|
    case Release(w) => InPhase(s, w, {Closing})
    case Die(w) => w in s.workers
  }

  function Step(s: System, l: Label): System {
    if !Enabled(s, l) then s else
    match l
    case Admit(signal) =>
      s.(table := InsertRow(s.table, signal),
         admitting := s.admitting + {signal.id},
         wins := s.wins[signal.id := []])
    case LogAdmission(id) =>
      s.(table := InsertAdmissionEvents(s.table, id), admitting := s.admitting - {id})
    case Begin(w, id, owner, now, leaseSeconds, steps) =>
      Put(s, w, Worker(id, owner, now, leaseSeconds, s.table.rows[id].version, steps, Started, 0, 0, None))
    case Claim(w) =>
      var k := s.workers[w];
      if Claimable(s.table, k.id, k.owner, k.now)
      then Moved(s.(table := ClaimRow(s.table, k.id, k.owner, k.now, k.leaseSeconds)), w, Ready)
      else Moved(s, w, Finished)
    case CommitRow(w) =>
      var k := s.workers[w];
      if WinsRow(s, w) then
        var won := if k.id in s.wins then s.wins[k.id] else [];
        Moved(s.(table := UpdateRow(s.table, k.id, k.Expected(), k.steps[k.applied], k.now),
                 wins := s.wins[k.id := won + [Win(w, k.applied, k.steps[k.applied])]]), w, RowWon)
      else Moved(s, w, RowMissed)
    case CommitEvent(w) =>
      var k := s.workers[w];
      Moved(s.(table := InsertEvent(s.table, TransitionEvent(k.id, k.Expected(), k.steps[k.applied]))), w, EventLogged)
    case Return(w) =>
      var k := s.workers[w];
      if k.phase == EventLogged then
        Put(s, w, k.(phase := Ready, applied := k.applied + 1, last := Some(Applied)))
      else if k.id in s.table.rows then
        Put(s, w, k.(phase := Closing, conflicts := k.conflicts + 1, last := Some(Conflict)))
      else
        Put(s, w, k.(phase := Closing, last := Some(NotFound)))
    case Fail(w) => Put(s, w, s.workers[w].(phase := Closing, last := Some(Failed)))
    case Exhaust(w) => Moved(s, w, Closing)
    case Release(w) =>
      var k := s.workers[w];
      Moved(s.(table := ReleaseRow(s.table, k.id, k.owner)), w, Finished)
    case Die(w) => Moved(s, w, Dead)
  }

  /** The state after a whole run; the last label is taken last. */
  function Run(s: System, labels: seq<Label>): System
    decreases |labels|
  {
    if labels == [] then s else Step(Run(s, labels[..|labels| - 1]), labels[|labels| - 1])
  }
}
