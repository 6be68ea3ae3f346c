/** The monitor job's transition loop, run against a repository that other workers use as well. */
module LifecycleMonitor {
  import opened Options
  import opened SignalStateMachine
  import opened LifecycleTable
  import opened LifecycleProtocol
  import opened LifecycleRepository

  /**
    One apply_transition: the table it met, the table its row commit left, the table its second
    commit found, and the table it left.
   */
  datatype Call = Call(before: Table, changed: Table, seen: Table, after: Table)

  /** A call with this fault and outcome: what it wrote, and why it came back as it did. */
  ghost predicate Called(c: Call, id: SignalId, expected: nat, step: TransitionStep, asOf: Instant, fault: Fault,
                         outcome: Outcome) {
    var matches := UpdateMatches(c.before, id, expected, step.from);
    && c.changed == (if fault == AtRowCommit(false) then c.before else UpdateRow(c.before, id, expected, step, asOf))
    && Rely(c.changed, c.seen)
    && c.after == (if matches && fault in {NoFault, AtEventCommit(true)}
                   then InsertEvent(c.seen, TransitionEvent(id, expected, step)) else c.seen)
    && match outcome
       case Applied => matches && fault == NoFault
       case Failed => fault.AtRowCommit? || fault.AfterRowCommit? || (matches && fault.AtEventCommit?)
       case Conflict => !matches && !fault.AtRowCommit? && !fault.AfterRowCommit? && id in c.after.rows
       case NotFound => !matches && !fault.AtRowCommit? && !fault.AfterRowCommit? && id !in c.after.rows
  }

  /** The calls of one loop, and the outcome that ended it before its last step, if any. */
  datatype Loop = Loop(calls: seq<Call>, stop: Option<Outcome>)
  {
    /** How many steps were counted. */
    function Counted(): int {
      |calls| - if stop.Some? then 1 else 0
    }

    function OutcomeOf(j: nat): Outcome
      requires j < |calls|
    {
      if stop.Some? && j == |calls| - 1 then stop.value else Applied
    }

    /** The table the first n calls leave behind. */
    function LeftBy(start: Table, n: nat): Table
      requires n <= |calls|
    {
      if n == 0 then start else calls[n - 1].after
    }
  }

  /** Call j tried step j on the version the row had been brought to, others' commits having come in between. */
  ghost predicate TriedInTurn(start: Table, loop: Loop, j: nat, id: SignalId, base: nat, steps: seq<TransitionStep>,
                              faults: seq<Fault>, asOf: Instant)
    requires j < |loop.calls| <= |steps| == |faults|
  {
    && Rely(loop.LeftBy(start, j), loop.calls[j].before)
    && Called(loop.calls[j], id, base + j, steps[j], asOf, faults[j], loop.OutcomeOf(j))
  }

  ghost predicate AllTried(start: Table, loop: Loop, id: SignalId, base: nat, steps: seq<TransitionStep>,
                           faults: seq<Fault>, asOf: Instant)
    requires |steps| == |faults|
  {
    && |loop.calls| <= |steps|
    && forall j | 0 <= j < |loop.calls| :: TriedInTurn(start, loop, j, id, base, steps, faults, asOf)
  }

  /**
    The loop over the steps: every step is tried in turn, until one does not apply; after the last
    step or that one nothing more is done.
   */
  ghost predicate LoopRan(start: Table, loop: Loop, end: Table, id: SignalId, base: nat, steps: seq<TransitionStep>,
                          faults: seq<Fault>, asOf: Instant)
    requires |steps| == |faults|
  {
    && AllTried(start, loop, id, base, steps, faults, asOf)
    && (if loop.stop.Some? then loop.calls != [] && loop.stop.value != Applied else |loop.calls| == |steps|)
    && end == loop.LeftBy(start, |loop.calls|)
  }

  lemma WasCalled(c: Call, id: SignalId, expected: nat, step: TransitionStep, asOf: Instant, fault: Fault,
                  outcome: Outcome)
    requires c.changed == if fault == AtRowCommit(false) then c.before
                          else UpdateRow(c.before, id, expected, step, asOf)
    requires Rely(c.changed, c.seen)
    requires c.after == if UpdateMatches(c.before, id, expected, step.from) && fault in {NoFault, AtEventCommit(true)}
                        then InsertEvent(c.seen, TransitionEvent(id, expected, step)) else c.seen
    requires outcome == Applied <==> UpdateMatches(c.before, id, expected, step.from) && fault == NoFault
    requires outcome == Failed <==>
               || fault.AtRowCommit? || fault.AfterRowCommit?
               || (UpdateMatches(c.before, id, expected, step.from) && fault.AtEventCommit?)
    requires (outcome == Conflict ==> id in c.after.rows) && (outcome == NotFound ==> id !in c.after.rows)
    ensures Called(c, id, expected, step, asOf, fault, outcome)
  {
    hide Rely, UpdateRow, UpdateMatches, InsertEvent;
  }

  /** One more call after steps that all applied. */
  lemma OneMoreCall(start: Table, calls: seq<Call>, c: Call, stop: Option<Outcome>, outcome: Outcome, id: SignalId,
                    base: nat, steps: seq<TransitionStep>, faults: seq<Fault>, asOf: Instant)
    requires |calls| < |steps| == |faults| && AllTried(start, Loop(calls, None), id, base, steps, faults, asOf)
    requires Rely(Loop(calls, None).LeftBy(start, |calls|), c.before)
    requires outcome == if stop.Some? then stop.value else Applied
    requires Called(c, id, base + |calls|, steps[|calls|], asOf, faults[|calls|], outcome)
    ensures AllTried(start, Loop(calls + [c], stop), id, base, steps, faults, asOf)
  {
    hide Rely, Called;
    var before, more := Loop(calls, None), Loop(calls + [c], stop);
    forall j | 0 <= j < |more.calls|
      ensures TriedInTurn(start, more, j, id, base, steps, faults, asOf)
    {
      assert more.LeftBy(start, j) == before.LeftBy(start, j);
      if j < |calls| {
        assert TriedInTurn(start, before, j, id, base, steps, faults, asOf);
      }
    }
  }

  /**
    What a finished loop means.  It stopped with a conflict or a missing row only where the row did
    not match, with a failure only on a fault, and never on a step that matched without a fault;
    every counted step changed the row from the state and version it names.
   */
  lemma LoopMeans(start: Table, loop: Loop, end: Table, id: SignalId, base: nat, steps: seq<TransitionStep>,
                  faults: seq<Fault>, asOf: Instant)
    requires |steps| == |faults| && LoopRan(start, loop, end, id, base, steps, faults, asOf)
    ensures 0 <= loop.Counted() <= |steps|
    ensures forall j | 0 <= j < loop.Counted() ::
              && UpdateMatches(loop.calls[j].before, id, base + j, steps[j].from)
              && faults[j] == NoFault
    ensures loop.stop.Some? ==>
              var n := loop.Counted();
              var met := loop.calls[n].before;
              && n < |steps| && Rely(loop.LeftBy(start, n), met)
              && (loop.stop == Some(Conflict) ==> !UpdateMatches(met, id, base + n, steps[n].from) && id in end.rows)
              && (loop.stop == Some(NotFound) ==> !UpdateMatches(met, id, base + n, steps[n].from) && id !in end.rows)
              && (loop.stop == Some(Failed) ==> faults[n] != NoFault)
              && !(faults[n] == NoFault && UpdateMatches(met, id, base + n, steps[n].from))
  {
    hide Rely, UpdateMatches, UpdateRow, InsertEvent;
    forall j | 0 <= j < |loop.calls|
      ensures Called(loop.calls[j], id, base + j, steps[j], asOf, faults[j], loop.OutcomeOf(j))
    {
      assert TriedInTurn(start, loop, j, id, base, steps, faults, asOf);
    }
    if loop.stop.Some? {
      assert TriedInTurn(start, loop, loop.Counted(), id, base, steps, faults, asOf);
    }
  }

  /** A row that still waits for a version has no event of that version. */
  lemma KeyIsFree(t: Table, id: SignalId, expected: nat, step: TransitionStep)
    requires LogBounded(t) && UpdateMatches(t, id, expected, step.from)
    ensures !KeyLogged(t, TransitionEvent(id, expected, step).key)
  {
  }

  lemma NewEventIsLogged(t: Table, e: Event)
    requires !KeyLogged(t, e.key)
    ensures e in InsertEvent(t, e).log
  {
    assert InsertEvent(t, e).log[|t.log|] == e;
  }

  /** The log tells of a step that brought the signal to this version. */
  predicate StepRecorded(log: seq<Event>, id: SignalId, version: int, step: TransitionStep) {
    exists e | e in log ::
      && e.signal == id && e.version == version && e.eventType == step.eventType
      && e.from == Some(step.from) && e.to == step.to
  }

  /** Where monitor_one can raise outside apply_transition. */
  datatype Raise = Nowhere | OnClaim(effective: bool) | BeforeSteps | AfterSteps

  /** The release may raise, before or after its commit took effect. */
  datatype ReleaseEnd = Returns | Raises(effective: bool)

  /** One non-terminal row of a cycle: the row object's version and what evaluating it will meet. */
  datatype Assignment = Assignment(
    id: SignalId,
    base: nat,
    steps: seq<TransitionStep>,
    faults: seq<Fault>,
    raises: Raise,
    release: ReleaseEnd)
  {
    predicate ReleaseCommits() {
      release.Returns? || release.effective
    }

    /** The claim's commit took place, whether or not the call then raised. */
    predicate ClaimCommits() {
      raises != OnClaim(false)
    }
  }

  /** One monitor_one call: the tables it met and left, and its loop if it came to one. */
  datatype Visit = Visit(found: Table, took: Option<Table>, loop: Option<Loop>, last: Table)
  {
    predicate Claimed(row: Assignment) {
      took.Some? && !row.raises.OnClaim?
    }

    predicate Evaluated(row: Assignment) {
      Claimed(row) && row.raises == Nowhere
    }

    predicate Raised(row: Assignment) {
      row.raises.OnClaim? || (Claimed(row) && row.raises != Nowhere)
    }

    /** What its loop counted, whether or not the call went on to report it. */
    function Done(): int {
      if loop.Some? then loop.value.Counted() else 0
    }

    function Lost(): int {
      if loop.Some? && loop.value.stop == Some(Conflict) then 1 else 0
    }

    function Applied(row: Assignment): int {
      if Evaluated(row) then Done() else 0
    }

    function Conflicts(row: Assignment): int {
      if Evaluated(row) then Lost() else 0
    }
  }

  ghost predicate Visited(start: Table, v: Visit, end: Table, row: Assignment, owner: Owner, leaseSeconds: real,
                          now: Instant)
    requires |row.steps| == |row.faults|
  {
    && Rely(start, v.found)
    && v.took == (if row.ClaimCommits() && Claimable(v.found, row.id, owner, now)
                  then Some(ClaimRow(v.found, row.id, owner, now, leaseSeconds)) else None)
    && (v.loop.Some? <==> v.Claimed(row) && row.raises != BeforeSteps)
    && (v.loop.Some? ==>
          exists worked ::
            && LoopRan(v.took.value, v.loop.value, worked, row.id, row.base, row.steps, row.faults, now)
            && Rely(worked, v.last))
    && (v.Claimed(row) && v.loop.None? ==> Rely(v.took.value, v.last))
    && (!v.Claimed(row) ==> v.last == if v.took.Some? then v.took.value else v.found)
    && end == (if v.Claimed(row) && row.ReleaseCommits() then ReleaseRow(v.last, row.id, owner) else v.last)
  }

  /** The table before visit i of a cycle. */
  function Before(start: Table, ends: seq<Table>, i: nat): Table
    requires i <= |ends|
  {
    if i == 0 then start else ends[i - 1]
  }

  predicate WellFormed(rows: seq<Assignment>) {
    forall i | 0 <= i < |rows| :: |rows[i].faults| == |rows[i].steps|
  }

  lemma RowIsWellFormed(rows: seq<Assignment>, i: nat)
    requires WellFormed(rows) && i < |rows|
    ensures |rows[i].faults| == |rows[i].steps|
  {
  }

  /** The first rows of a cycle, one visit after the other. */
  ghost predicate VisitedInTurn(start: Table, visits: seq<Visit>, ends: seq<Table>, rows: seq<Assignment>, owner: Owner,
                                leaseSeconds: real, now: Instant)
    requires |visits| == |ends| <= |rows| && WellFormed(rows)
  {
    forall i | 0 <= i < |visits| ::
      Visited(Before(start, ends, i), visits[i], ends[i], rows[i], owner, leaseSeconds, now)
  }

  lemma NoVisits(start: Table, rows: seq<Assignment>, owner: Owner, leaseSeconds: real, now: Instant)
    requires WellFormed(rows)
    ensures VisitedInTurn(start, [], [], rows, owner, leaseSeconds, now)
    ensures TallyOf(rows, []) == Tally(0, 0, 0, 0, 0, 0)
  {
  }

  lemma CountedIsSum(t: Tally, row: Assignment, v: Visit, report: Tally)
    requires Reports(v, row, report)
    ensures Counted(t, row, v) == Sum(t, report)
    ensures report.evaluated == 0 ==> report.applied == 0 && report.conflicts == 0
  {
  }

  lemma OneMoreInTally(rows: seq<Assignment>, visits: seq<Visit>, v: Visit, report: Tally)
    requires |visits| < |rows| && Reports(v, rows[|visits|], report)
    ensures TallyOf(rows, visits + [v]) == Sum(TallyOf(rows, visits), report)
    ensures report.evaluated == 0 ==> report.applied == 0 && report.conflicts == 0
  {
    hide Counted, Sum, Reports;
    assert (visits + [v])[..|visits|] == visits;
    CountedIsSum(TallyOf(rows, visits), rows[|visits|], v, report);
  }

  lemma OneMoreVisit(start: Table, visits: seq<Visit>, ends: seq<Table>, rows: seq<Assignment>, v: Visit, end: Table,
                     owner: Owner, leaseSeconds: real, now: Instant)
    requires |visits| == |ends| < |rows| && WellFormed(rows)
    requires VisitedInTurn(start, visits, ends, rows, owner, leaseSeconds, now)
    requires Visited(Before(start, ends, |visits|), v, end, rows[|visits|], owner, leaseSeconds, now)
    ensures VisitedInTurn(start, visits + [v], ends + [end], rows, owner, leaseSeconds, now)
    ensures Before(start, ends + [end], |visits| + 1) == end
  {
    hide Visited;
    var visits', ends' := visits + [v], ends + [end];
    forall i | 0 <= i < |visits'|
      ensures Visited(Before(start, ends', i), visits'[i], ends'[i], rows[i], owner, leaseSeconds, now)
    {
      assert Before(start, ends', i) == Before(start, ends, i);
    }
  }

  /** A cycle after some of its rows: the visits so far, the table they left, and what they add up to. */
  ghost predicate CycleSoFar(start: Table, visits: seq<Visit>, ends: seq<Table>, t: Table, rows: seq<Assignment>,
                             tally: Tally, owner: Owner, leaseSeconds: real, now: Instant)
  {
    && |visits| == |ends| <= |rows| && WellFormed(rows) && t == Before(start, ends, |ends|)
    && VisitedInTurn(start, visits, ends, rows, owner, leaseSeconds, now) && TallyOf(rows, visits) == tally
  }

  /** The first n rows of a cycle were visited one after the other, and that is what it adds up to. */
  ghost predicate CycleRan(start: Table, t: Table, rows: seq<Assignment>, n: nat, tally: Tally, owner: Owner,
                           leaseSeconds: real, now: Instant)
  {
    exists visits: seq<Visit>, ends: seq<Table> ::
      |visits| == n && CycleSoFar(start, visits, ends, t, rows, tally, owner, leaseSeconds, now)
  }

  lemma CycleStarts(start: Table, rows: seq<Assignment>, owner: Owner, leaseSeconds: real, now: Instant)
    requires WellFormed(rows)
    ensures CycleRan(start, start, rows, 0, Tally(0, 0, 0, 0, 0, 0), owner, leaseSeconds, now)
  {
    NoVisits(start, rows, owner, leaseSeconds, now);
    assert CycleSoFar(start, [], [], start, rows, Tally(0, 0, 0, 0, 0, 0), owner, leaseSeconds, now);
  }

  lemma CycleGoesOn(start: Table, t: Table, rows: seq<Assignment>, n: nat, tally: Tally, owner: Owner,
                    leaseSeconds: real, now: Instant, v: Visit, end: Table, report: Tally)
    requires CycleRan(start, t, rows, n, tally, owner, leaseSeconds, now) && n < |rows|
    requires |rows[n].faults| == |rows[n].steps|
    requires Visited(t, v, end, rows[n], owner, leaseSeconds, now) && Reports(v, rows[n], report)
    ensures CycleRan(start, end, rows, n + 1, Sum(tally, report), owner, leaseSeconds, now)
    ensures report.evaluated == 0 ==> report.applied == 0 && report.conflicts == 0
  {
    hide CycleSoFar, Visited, Reports, Sum;
    var visits: seq<Visit>, ends: seq<Table> :|
      |visits| == n && CycleSoFar(start, visits, ends, t, rows, tally, owner, leaseSeconds, now);
    OneMoreInCycle(start, visits, ends, t, rows, tally, owner, leaseSeconds, now, v, end, report);
  }

  lemma OneMoreInCycle(start: Table, visits: seq<Visit>, ends: seq<Table>, t: Table, rows: seq<Assignment>,
                       tally: Tally, owner: Owner, leaseSeconds: real, now: Instant, v: Visit, end: Table,
                       report: Tally)
    requires CycleSoFar(start, visits, ends, t, rows, tally, owner, leaseSeconds, now) && |visits| < |rows|
    requires |rows[|visits|].faults| == |rows[|visits|].steps|
    requires Visited(t, v, end, rows[|visits|], owner, leaseSeconds, now) && Reports(v, rows[|visits|], report)
    ensures CycleSoFar(start, visits + [v], ends + [end], end, rows, Sum(tally, report), owner, leaseSeconds, now)
    ensures report.evaluated == 0 ==> report.applied == 0 && report.conflicts == 0
  {
    hide Visited, Reports, TallyOf, VisitedInTurn, Sum;
    OneMoreInTally(rows, visits, v, report);
    OneMoreVisit(start, visits, ends, rows, v, end, owner, leaseSeconds, now);
  }

  /** A whole cycle is within what others may rely on, and reports no more than was done. */
  lemma CycleMeans(start: Table, end: Table, rows: seq<Assignment>, tally: Tally, owner: Owner, leaseSeconds: real,
                   now: Instant)
    requires CycleRan(start, end, rows, |rows|, tally, owner, leaseSeconds, now)
    ensures Rely(start, end)
    ensures 0 <= tally.conflicts <= tally.evaluated <= |rows|
    ensures tally.conflicts <= tally.lost && 0 <= tally.applied <= tally.done
    ensures (forall i | 0 <= i < |rows| :: rows[i].raises == Nowhere) ==>
              tally.applied == tally.done && tally.raised == 0
  {
    var visits: seq<Visit>, ends: seq<Table> :|
      |visits| == |rows| && CycleSoFar(start, visits, ends, end, rows, tally, owner, leaseSeconds, now);
    hide Rely, VisitedInTurn, TallyOf, Consistent;
    VisitsMean(start, visits, ends, rows, |rows|, owner, leaseSeconds, now);
    TallyBounds(rows, visits);
  }

  /** A visit that ends with its claim, because the claim was refused or raised. */
  lemma UnclaimedVisit(start: Table, v: Visit, row: Assignment, owner: Owner, leaseSeconds: real, now: Instant)
    requires |row.steps| == |row.faults| && v.loop.None? && Rely(start, v.found)
    requires if row.ClaimCommits() then
               && v.last == ClaimRow(v.found, row.id, owner, now, leaseSeconds)
               && v.took == if Claimable(v.found, row.id, owner, now) then Some(v.last) else None
             else v.took.None? && v.last == v.found
    ensures !v.Claimed(row) ==> Visited(start, v, v.last, row, owner, leaseSeconds, now)
  {
    hide Rely;
  }

  /** A visit with its claim, its loop if it came to one, and its release. */
  lemma ClaimedVisit(start: Table, v: Visit, worked: Table, end: Table, row: Assignment, owner: Owner,
                     leaseSeconds: real, now: Instant)
    requires |row.steps| == |row.faults| && Rely(start, v.found) && v.Claimed(row)
    requires row.ClaimCommits() && Claimable(v.found, row.id, owner, now)
    requires v.took == Some(ClaimRow(v.found, row.id, owner, now, leaseSeconds))
    requires if row.raises == BeforeSteps then v.loop.None? && worked == v.took.value
             else v.loop.Some?
                  && LoopRan(v.took.value, v.loop.value, worked, row.id, row.base, row.steps, row.faults, now)
    requires Rely(worked, v.last)
    requires end == if row.ReleaseCommits() then ReleaseRow(v.last, row.id, owner) else v.last
    ensures Visited(start, v, end, row, owner, leaseSeconds, now)
  {
    hide Rely, LoopRan, ClaimRow, ReleaseRow, Claimable;
  }

  /** What a cycle reports of its visits, and by how much they moved the job's own counters. */
  datatype Tally = Tally(evaluated: nat, applied: int, conflicts: int, done: int, lost: int, raised: int)

  /** What one call reports, and by how much it moves the counters. */
  predicate Reports(v: Visit, row: Assignment, t: Tally) {
    && (t.evaluated == if v.Evaluated(row) then 1 else 0)
    && t.applied == v.Applied(row) && t.conflicts == v.Conflicts(row)
    && t.done == v.Done() && t.lost == v.Lost()
    && (t.raised == if v.Raised(row) then 1 else 0)
  }

  function Sum(t: Tally, u: Tally): Tally {
    Tally(t.evaluated + u.evaluated, t.applied + u.applied, t.conflicts + u.conflicts, t.done + u.done,
          t.lost + u.lost, t.raised + u.raised)
  }

  function Counted(t: Tally, row: Assignment, v: Visit): Tally {
    Tally(t.evaluated + (if v.Evaluated(row) then 1 else 0), t.applied + v.Applied(row), t.conflicts + v.Conflicts(row),
          t.done + v.Done(), t.lost + v.Lost(), t.raised + if v.Raised(row) then 1 else 0)
  }

  function TallyOf(rows: seq<Assignment>, visits: seq<Visit>): Tally
    requires |visits| <= |rows|
  {
    if visits == [] then Tally(0, 0, 0, 0, 0, 0)
    else var n := |visits| - 1; Counted(TallyOf(rows, visits[..n]), rows[n], visits[n])
  }

  /** A cycle reports no more than was done, and all of it when no call raises. */
  lemma {:induction false} TallyBounds(rows: seq<Assignment>, visits: seq<Visit>)
    requires |visits| <= |rows| && forall i | 0 <= i < |visits| :: Consistent(visits[i], rows[i])
    ensures var t := TallyOf(rows, visits);
            && 0 <= t.conflicts <= t.evaluated <= |visits|
            && t.conflicts <= t.lost && 0 <= t.applied <= t.done
            && ((forall i | 0 <= i < |visits| :: rows[i].raises == Nowhere) ==> t.applied == t.done && t.raised == 0)
  {
    if visits != [] {
      TallyBounds(rows, visits[..|visits| - 1]);
    }
  }

  /** What a visit may report, by how its call ended. */
  predicate Consistent(v: Visit, row: Assignment) {
    && 0 <= v.Done()
    && (row.raises == Nowhere ==> v.Applied(row) == v.Done() && !v.Raised(row))
  }

  /** All visits together are within what others may rely on. */
  lemma {:induction false} VisitsMean(start: Table, visits: seq<Visit>, ends: seq<Table>, rows: seq<Assignment>, n: nat,
                                      owner: Owner, leaseSeconds: real, now: Instant)
    requires n <= |visits| == |ends| <= |rows| && WellFormed(rows)
    requires VisitedInTurn(start, visits, ends, rows, owner, leaseSeconds, now)
    ensures Rely(start, Before(start, ends, n))
    ensures forall i | 0 <= i < n :: Consistent(visits[i], rows[i])
  {
    hide Rely, Visited, Consistent;
    if n == 0 {
      RelyIsReflexive(start);
    } else {
      VisitsMean(start, visits, ends, rows, n - 1, owner, leaseSeconds, now);
      VisitMeans(Before(start, ends, n - 1), visits[n - 1], ends[n - 1], rows[n - 1], owner, leaseSeconds, now);
      RelyIsTransitive(start, Before(start, ends, n - 1), ends[n - 1]);
    }
  }

  class MonitorJob {
    const leaseOwner: Owner
    const leaseSeconds: real
    var degraded: bool
    var failuresTotal: nat
    var transitionsTotal: nat
    var conflictsTotal: nat

    constructor (leaseOwner: Owner, leaseSeconds: real)
      ensures !degraded && transitionsTotal == 0 && conflictsTotal == 0 && failuresTotal == 0
      ensures this.leaseOwner == leaseOwner && this.leaseSeconds == leaseSeconds
    {
      this.leaseOwner, this.leaseSeconds := leaseOwner, leaseSeconds;
      degraded, transitionsTotal, conflictsTotal, failuresTotal := false, 0, 0, 0;
    }

    /** One call of apply_transition on whatever others have committed by then. */
    method TryStep(repo: Repository, id: SignalId, expected: nat, step: TransitionStep, asOf: Instant, fault: Fault)
      returns (outcome: Outcome, ghost call: Call)
      requires LogBounded(repo.T())
      modifies repo
      ensures LogBounded(repo.T()) && Rely(old(repo.T()), call.before) && repo.T() == call.after
      ensures Called(call, id, expected, step, asOf, fault, outcome)
      ensures forall e | e in old(repo.T()).log :: e in repo.T().log
      ensures outcome == Applied ==> TransitionEvent(id, expected, step) in repo.T().log
    {
      hide Rely, LogBounded, UpdateRow, UpdateMatches, InsertEvent, KeyLogged, TransitionEvent, Called;
      ghost var entry := repo.T();
      repo.OthersCommit(None);
      ghost var before := repo.T();
      LogStays(entry, before);
      ghost var changed, seen;
      outcome, changed, seen := repo.ApplyTransition(id, expected, step, asOf, fault);
      call := Call(before, changed, seen, repo.T());
      WasCalled(call, id, expected, step, asOf, fault, outcome);
      CallKeepsRely(call, id, expected, step, asOf, fault, outcome);
      LogStays(before, repo.T());
      if outcome == Applied {
        AppliedIsLogged(call, id, expected, step, asOf, fault);
      }
    }

    /**
      The loop of _evaluate_row over the steps the engine decided on a row object of version
      `base`.  Whatever others commit between any two of its own commits, each step is tried in
      turn until one does not apply, the counted steps are those that did, each has its event
      logged, and the counters tell how the loop ended.
     */
    method ApplySteps(repo: Repository, id: SignalId, base: nat, steps: seq<TransitionStep>,
                      asOf: Instant, faults: seq<Fault>)
      returns (applied: nat, conflicts: nat, ghost loop: Loop)
      requires |faults| == |steps| && LogBounded(repo.T())
      modifies this, repo
      ensures LogBounded(repo.T())
      ensures LoopRan(old(repo.T()), loop, repo.T(), id, base, steps, faults, asOf)
      ensures applied == loop.Counted()
      ensures conflicts == if loop.stop == Some(Conflict) then 1 else 0
      ensures forall j | 0 <= j < applied :: StepRecorded(repo.T().log, id, base + j + 1, steps[j])
      ensures degraded == (old(degraded) || loop.stop == Some(Failed))
      ensures transitionsTotal == old(transitionsTotal) + applied
      ensures conflictsTotal == old(conflictsTotal) + conflicts
      ensures failuresTotal == old(failuresTotal)
    {
      hide Rely, LogBounded, TransitionEvent, AllTried, Called;
      applied, conflicts := 0, 0;
      ghost var start := repo.T();
      ghost var calls: seq<Call> := [];
      ghost var stop := None;
      NothingTried(start, id, base, steps, faults, asOf);
      var expected := base;
      var i := 0;
      while i < |steps|
        invariant i == applied == |calls| <= |steps| && expected == base + applied
        invariant stop == None && conflicts == 0
        invariant AllTried(start, Loop(calls, None), id, base, steps, faults, asOf)
        invariant repo.T() == Loop(calls, None).LeftBy(start, |calls|)
        invariant LogBounded(repo.T())
        invariant forall j | 0 <= j < applied :: TransitionEvent(id, base + j, steps[j]) in repo.T().log
        invariant degraded == old(degraded)
        invariant transitionsTotal == old(transitionsTotal) + applied
        invariant conflictsTotal == old(conflictsTotal) && failuresTotal == old(failuresTotal)
      {
        var outcome;
        ghost var call;
        outcome, call := TryStep(repo, id, expected, steps[i], asOf, faults[i]);
        if outcome == Applied {
          OneMoreCall(start, calls, call, None, Applied, id, base, steps, faults, asOf);
          calls := calls + [call];
          expected := expected + 1;
          applied := applied + 1;
          transitionsTotal := transitionsTotal + 1;
        } else {
          stop := Some(outcome);
          OneMoreCall(start, calls, call, stop, outcome, id, base, steps, faults, asOf);
          calls := calls + [call];
          if outcome == Conflict {
            conflicts := conflicts + 1;
            conflictsTotal := conflictsTotal + 1;
          } else if outcome == Failed {
            degraded := true;
          }
          break;
        }
        i := i + 1;
      }
      loop := Loop(calls, stop);
      EventsRecordSteps(repo.T(), id, base, steps, applied);
    }

    /**
      monitor_one: claim, evaluate, release.  The visit tells the table the claim met, the one it
      left if it was committed, the loop if it came to one, and the table before the release.  A
      lease that is still this owner's then is given back exactly when the claim had returned and
      the release is committed: after an error that comes with a committed claim this call does
      not give it back, and it stays until this owner's next call on the row
      (`Leases.OwnersNextCallGivesItBack`) or until it expires.  What is reported is what the loop
      counted, or nothing after an exception.
     */
    method MonitorOne(repo: Repository, row: Assignment, now: Instant)
      returns (evaluated: bool, applied: nat, conflicts: nat, ghost visit: Visit, ghost report: Tally)
      requires |row.faults| == |row.steps| && LogBounded(repo.T())
      modifies this, repo
      ensures LogBounded(repo.T())
      ensures Visited(old(repo.T()), visit, repo.T(), row, leaseOwner, leaseSeconds, now)
      ensures HoldsLease(visit.last, row.id, leaseOwner) ==>
                (!HoldsLease(repo.T(), row.id, leaseOwner) <==> visit.Claimed(row) && row.ReleaseCommits())
      ensures report == Tally(if evaluated then 1 else 0, applied, conflicts,
                              transitionsTotal - old(transitionsTotal), conflictsTotal - old(conflictsTotal),
                              failuresTotal - old(failuresTotal))
      ensures Reports(visit, row, report)
      ensures degraded == (|| old(degraded) || visit.Raised(row)
                           || (visit.loop.Some? && visit.loop.value.stop == Some(Failed)))
    {
      hide Rely, LogBounded, LoopRan, ClaimRow, ReleaseRow, Claimable, HoldsLease, Visited;
      evaluated, applied, conflicts := false, 0, 0;
      ghost var start := repo.T();
      repo.OthersCommit(None);
      ghost var found := repo.T();
      visit := Visit(found, None, None, found);
      LogStays(start, found);
      if row.raises == OnClaim(false) {
        UnclaimedVisit(start, visit, row, leaseOwner, leaseSeconds, now);
        degraded, failuresTotal := true, failuresTotal + 1;
        report := Tally(0, 0, 0, 0, 0, 1);
        return;
      }
      LeasesKeepRely(found, row.id, leaseOwner, now, leaseSeconds);
      var accepted := repo.Claim(row.id, leaseOwner, now, leaseSeconds);
      LogStays(found, repo.T());
      visit := Visit(found, if accepted then Some(repo.T()) else None, None, repo.T());
      UnclaimedVisit(start, visit, row, leaseOwner, leaseSeconds, now);
      if row.raises.OnClaim? {
        degraded, failuresTotal := true, failuresTotal + 1;
        report := Tally(0, 0, 0, 0, 0, 1);
        return;
      }
      if !accepted {
        report := Tally(0, 0, 0, 0, 0, 0);
        return;
      }
      ghost var loop := None;
      if row.raises == BeforeSteps {
        degraded, failuresTotal := true, failuresTotal + 1;
      } else {
        var done, lost;
        ghost var ran;
        done, lost, ran := ApplySteps(repo, row.id, row.base, row.steps, now, row.faults);
        loop := Some(ran);
        if row.raises == AfterSteps {
          degraded, failuresTotal := true, failuresTotal + 1;
        } else {
          evaluated, applied, conflicts := true, done, lost;
        }
      }
      ghost var worked := repo.T();
      RelyIsReflexive(worked);
      repo.OthersCommit(None);
      LogStays(worked, repo.T());
      visit := visit.(loop := loop, last := repo.T());
      if row.ReleaseCommits() {
        LeasesKeepRely(repo.T(), row.id, leaseOwner, now, leaseSeconds);
        repo.Release(row.id, leaseOwner);
        LogStays(visit.last, repo.T());
        ReleasedIsNotHeld(visit.last, row.id, leaseOwner);
      }
      report := Tally(if evaluated then 1 else 0, applied, conflicts, transitionsTotal - old(transitionsTotal),
                      conflictsTotal - old(conflictsTotal), failuresTotal - old(failuresTotal));
      ClaimedVisit(start, visit, worked, repo.T(), row, leaseOwner, leaseSeconds, now);
    }

    /** The next row of a cycle. */
    method VisitNext(repo: Repository, rows: seq<Assignment>, now: Instant, ghost start: Table, n: nat,
                     ghost tally: Tally)
      returns (evaluated: bool, applied: nat, conflicts: nat)
      requires n < |rows| && |rows[n].faults| == |rows[n].steps| && LogBounded(repo.T())
      requires CycleRan(start, repo.T(), rows, n, tally, leaseOwner, leaseSeconds, now)
      modifies this, repo
      ensures LogBounded(repo.T())
      ensures !evaluated ==> applied == 0 && conflicts == 0
      ensures CycleRan(start, repo.T(), rows, n + 1,
                       Sum(tally, Tally(if evaluated then 1 else 0, applied, conflicts,
                                        transitionsTotal - old(transitionsTotal), conflictsTotal - old(conflictsTotal),
                                        failuresTotal - old(failuresTotal))),
                       leaseOwner, leaseSeconds, now)
    {
      hide Visited, LogBounded, CycleRan, Reports, HoldsLease, Sum;
      ghost var before := repo.T();
      ghost var visit, report;
      evaluated, applied, conflicts, visit, report := MonitorOne(repo, rows[n], now);
      CycleGoesOn(start, before, rows, n, tally, leaseOwner, leaseSeconds, now, visit, repo.T(), report);
    }

    /** The first n rows of a cycle, one visit after the other. */
    method VisitRows(repo: Repository, rows: seq<Assignment>, n: nat, now: Instant)
      returns (evaluated: nat, transitions: nat, conflicts: nat)
      requires n <= |rows| && WellFormed(rows) && LogBounded(repo.T())
      modifies this, repo
      ensures LogBounded(repo.T())
      ensures CycleRan(old(repo.T()), repo.T(), rows, n,
                       Tally(evaluated, transitions, conflicts, transitionsTotal - old(transitionsTotal),
                             conflictsTotal - old(conflictsTotal), failuresTotal - old(failuresTotal)),
                       leaseOwner, leaseSeconds, now)
    {
      hide LogBounded, CycleRan, WellFormed;
      ghost var start := repo.T();
      if n == 0 {
        CycleStarts(start, rows, leaseOwner, leaseSeconds, now);
        return 0, 0, 0;
      }
      evaluated, transitions, conflicts := VisitRows(repo, rows, n - 1, now);
      ghost var tally := Tally(evaluated, transitions, conflicts, transitionsTotal - old(transitionsTotal),
                               conflictsTotal - old(conflictsTotal), failuresTotal - old(failuresTotal));
      RowIsWellFormed(rows, n - 1);
      var wasEvaluated, applied, conflicted := VisitNext(repo, rows, now, start, n - 1, tally);
      evaluated := evaluated + if wasEvaluated then 1 else 0;
      transitions, conflicts := transitions + applied, conflicts + conflicted;
    }

    /**
      _monitor_phase: one visit per row, whose own results the cycle reports in sum.  Evaluated are
      exactly the rows whose claim was granted and whose call did not raise.
     */
    method MonitorPhase(repo: Repository, rows: seq<Assignment>, now: Instant)
      returns (evaluated: nat, transitions: nat, conflicts: nat)
      requires WellFormed(rows) && LogBounded(repo.T())
      modifies this, repo
      ensures LogBounded(repo.T())
      ensures CycleRan(old(repo.T()), repo.T(), rows, |rows|,
                       Tally(evaluated, transitions, conflicts, transitionsTotal - old(transitionsTotal),
                             conflictsTotal - old(conflictsTotal), failuresTotal - old(failuresTotal)),
                       leaseOwner, leaseSeconds, now)
      ensures Rely(old(repo.T()), repo.T())
      ensures evaluated <= |rows| && conflicts <= evaluated
      ensures transitions <= transitionsTotal - old(transitionsTotal)
      ensures conflicts <= conflictsTotal - old(conflictsTotal)
      ensures (forall i | 0 <= i < |rows| :: rows[i].raises == Nowhere) ==>
                && transitions == transitionsTotal - old(transitionsTotal)
                && failuresTotal == old(failuresTotal)
    {
      hide LogBounded, CycleRan, Rely;
      ghost var start := repo.T();
      evaluated, transitions, conflicts := VisitRows(repo, rows, |rows|, now);
      CycleMeans(start, repo.T(), rows,
                 Tally(evaluated, transitions, conflicts, transitionsTotal - old(transitionsTotal),
                       conflictsTotal - old(conflictsTotal), failuresTotal - old(failuresTotal)),
                 leaseOwner, leaseSeconds, now);
    }
  }

  lemma ReleasedIsNotHeld(t: Table, id: SignalId, owner: Owner)
    ensures !HoldsLease(ReleaseRow(t, id, owner), id, owner)
  {
  }

  lemma RelyIsReflexive(t: Table)
    ensures Rely(t, t)
  {
  }

  lemma LeasesKeepRely(t: Table, id: SignalId, owner: Owner, now: Instant, leaseSeconds: real)
    ensures Rely(t, ClaimRow(t, id, owner, now, leaseSeconds)) && Rely(t, ReleaseRow(t, id, owner))
  {
  }

  /** Everything a loop commits, and what others commit in between, is within what others may rely on. */
  lemma {:induction false} StepsKeepRely(start: Table, loop: Loop, n: nat, id: SignalId, base: nat,
                                         steps: seq<TransitionStep>, faults: seq<Fault>, asOf: Instant)
    requires |steps| == |faults| && AllTried(start, loop, id, base, steps, faults, asOf) && n <= |loop.calls|
    ensures Rely(start, loop.LeftBy(start, n))
  {
    hide Rely, Called;
    if n == 0 {
      RelyIsReflexive(start);
    } else {
      StepsKeepRely(start, loop, n - 1, id, base, steps, faults, asOf);
      var c := loop.calls[n - 1];
      assert TriedInTurn(start, loop, n - 1, id, base, steps, faults, asOf);
      CallKeepsRely(c, id, base + n - 1, steps[n - 1], asOf, faults[n - 1], loop.OutcomeOf(n - 1));
      RelyIsTransitive(start, loop.LeftBy(start, n - 1), c.before);
      RelyIsTransitive(start, c.before, c.after);
    }
  }

  lemma CountedIsInRange(start: Table, loop: Loop, end: Table, id: SignalId, base: nat, steps: seq<TransitionStep>,
                         faults: seq<Fault>, asOf: Instant)
    requires |steps| == |faults| && LoopRan(start, loop, end, id, base, steps, faults, asOf)
    ensures 0 <= loop.Counted() <= |steps|
  {
  }

  lemma VisitMeans(start: Table, v: Visit, end: Table, row: Assignment, owner: Owner, leaseSeconds: real, now: Instant)
    requires |row.steps| == |row.faults| && Visited(start, v, end, row, owner, leaseSeconds, now)
    ensures Rely(start, end)
    ensures 0 <= v.Done() <= |row.steps| && Consistent(v, row)
  {
    hide Rely, AllTried;
    LeasesKeepRely(v.found, row.id, owner, now, leaseSeconds);
    LeasesKeepRely(v.last, row.id, owner, now, leaseSeconds);
    RelyIsReflexive(v.found);
    if v.loop.Some? {
      var took, loop := v.took.value, v.loop.value;
      var worked :| LoopRan(took, loop, worked, row.id, row.base, row.steps, row.faults, now) && Rely(worked, v.last);
      CountedIsInRange(took, loop, worked, row.id, row.base, row.steps, row.faults, now);
      StepsKeepRely(took, loop, |loop.calls|, row.id, row.base, row.steps, row.faults, now);
      RelyIsTransitive(took, worked, v.last);
    }
    if v.Claimed(row) {
      RelyIsTransitive(v.found, v.took.value, v.last);
    }
    RelyIsTransitive(start, v.found, v.last);
    RelyIsReflexive(v.last);
    RelyIsTransitive(start, v.last, end);
  }

  lemma UpdateKeepsRely(t: Table, id: SignalId, expected: nat, step: TransitionStep, asOf: Instant)
    ensures Rely(t, UpdateRow(t, id, expected, step, asOf))
  {
  }

  lemma LogStays(a: Table, b: Table)
    requires Rely(a, b)
    ensures LogBounded(a) ==> LogBounded(b)
    ensures forall e | e in a.log :: e in b.log
  {
  }

  lemma NothingTried(t: Table, id: SignalId, base: nat, steps: seq<TransitionStep>, faults: seq<Fault>, asOf: Instant)
    requires |steps| == |faults|
    ensures AllTried(t, Loop([], None), id, base, steps, faults, asOf)
  {
  }

  lemma EventKeepsRely(t: Table, id: SignalId, expected: nat, step: TransitionStep)
    requires id in t.rows && t.rows[id].version > expected
    ensures Rely(t, InsertEvent(t, TransitionEvent(id, expected, step)))
  {
  }

  lemma UpdateRaises(t: Table, seen: Table, id: SignalId, expected: nat, step: TransitionStep, asOf: Instant)
    requires UpdateMatches(t, id, expected, step.from) && Rely(UpdateRow(t, id, expected, step, asOf), seen)
    ensures id in seen.rows && seen.rows[id].version > expected
  {
  }

  /** The two commits of one call, and what others did between them, are within Rely. */
  lemma CallKeepsRely(c: Call, id: SignalId, expected: nat, step: TransitionStep, asOf: Instant, fault: Fault,
                      outcome: Outcome)
    requires Called(c, id, expected, step, asOf, fault, outcome)
    ensures Rely(c.changed, c.after) && Rely(c.before, c.after)
  {
    UpdateKeepsRely(c.before, id, expected, step, asOf);
    RelyIsReflexive(c.before);
    RelyIsReflexive(c.seen);
    if UpdateMatches(c.before, id, expected, step.from) && fault in {NoFault, AtEventCommit(true)} {
      UpdateRaises(c.before, c.seen, id, expected, step, asOf);
      EventKeepsRely(c.seen, id, expected, step);
    }
    hide Rely, UpdateRow, InsertEvent;
    RelyIsTransitive(c.changed, c.seen, c.after);
    RelyIsTransitive(c.before, c.changed, c.after);
  }

  /** A counted step has its event logged afterwards. */
  lemma AppliedIsLogged(c: Call, id: SignalId, expected: nat, step: TransitionStep, asOf: Instant, fault: Fault)
    requires Called(c, id, expected, step, asOf, fault, Applied) && LogBounded(c.before)
    requires !KeyLogged(c.before, TransitionEvent(id, expected, step).key) ==>
               !KeyLogged(c.seen, TransitionEvent(id, expected, step).key)
    ensures TransitionEvent(id, expected, step) in c.after.log
  {
    KeyIsFree(c.before, id, expected, step);
    NewEventIsLogged(c.seen, TransitionEvent(id, expected, step));
  }

  lemma EventsRecordSteps(t: Table, id: SignalId, base: nat, steps: seq<TransitionStep>, applied: nat)
    requires applied <= |steps| && forall j | 0 <= j < applied :: TransitionEvent(id, base + j, steps[j]) in t.log
    ensures forall j | 0 <= j < applied :: StepRecorded(t.log, id, base + j + 1, steps[j])
  {
  }
}
