/** The plan repository and the evaluation job's _admit_plan, updating rows and events in place. */
module PlanRepository {
  import opened Options
  import opened PlanTable
  import opened PlanProtocol

  datatype PlanEvent = PlanEvent(plan: nat, from: Option<PlanStatus>, to: PlanStatus)

  /** An exception at the n-th await of a call; effective when the awaited commit happened anyway. */
  datatype Interrupt = Never | OnAwait(n: nat, effective: bool)

  datatype AdmitResult = CreatedPlan | Suppressed | FailedPlan

  lemma OwnPlanNotCounted(t: Plans, row: PlanRow)
    ensures OtherCount(t + [row], row.instrument, row.candidate) == OtherCount(t, row.instrument, row.candidate)
  {
    assert (t + [row])[..|t|] == t;
  }

  /** The row a transition writes when its commit comes later than its read, whatever was committed in between. */
  function LateWrite(t: Plans, i: nat, read: PlanStatus, status: PlanStatus): Plans {
    if i >= |t| || read == status then t else t[i := t[i].(status := status, activeKey := None)]
  }

  /** Deactivating a plan has one effect at the commit, however stale the read was: it may as well happen there. */
  lemma LateWriteIsATransition(t: Plans, i: nat, read: PlanStatus, status: PlanStatus)
    requires PlanKeysInv(t) && status != Eligible
    ensures LateWrite(t, i, read, status) == if read == status then t else Transitioned(t, i, status)
  {
  }

  class Repository {
    var plans: Plans
    var events: seq<PlanEvent>

    constructor ()
      ensures plans == [] && events == []
    {
      plans, events := [], [];
    }

    /** The plan row and then its event, which an error keeps exactly when it comes with an effective second commit. */
    method InsertNew(row: PlanRow, interrupt: Interrupt) returns (created: bool, raised: bool)
      requires Active(row)
      modifies this
      ensures var effect := interrupt != OnAwait(0, false) && !KeyTaken(old(plans), row.dedupeKey);
              plans == if effect then Inserted(old(plans), row) else old(plans)
      ensures var logged := !KeyTaken(old(plans), row.dedupeKey)
                            && interrupt !in {OnAwait(0, false), OnAwait(0, true), OnAwait(1, false)};
              events == if logged then old(events) + [PlanEvent(|old(plans)|, None, row.status)] else old(events)
      ensures raised <==>
                && interrupt.OnAwait?
                && (interrupt.n == 0 || (interrupt.n == 1 && !KeyTaken(old(plans), row.dedupeKey)))
      ensures created <==> !raised && !KeyTaken(old(plans), row.dedupeKey)
    {
      if interrupt == OnAwait(0, false) {
        return false, true;
      }
      var taken := exists i | 0 <= i < |plans| :: plans[i].activeKey == Some(row.dedupeKey);
      if !taken {
        plans := plans + [row];
      }
      if interrupt == OnAwait(0, true) {
        return false, true;
      }
      if taken {
        return false, false;
      }
      if interrupt == OnAwait(1, false) {
        return false, true;
      }
      events := events + [PlanEvent(|plans| - 1, None, row.status)];
      return interrupt != OnAwait(1, true), interrupt == OnAwait(1, true);
    }

    method Transition(i: nat, status: PlanStatus) returns (changed: bool)
      modifies this
      ensures plans == Transitioned(old(plans), i, status)
      ensures changed <==> i < |old(plans)| && old(plans)[i].status != status
      ensures events == if changed then old(events) + [PlanEvent(i, Some(old(plans)[i].status), status)]
                        else old(events)
    {
      if i >= |plans| || plans[i].status == status {
        return false;
      }
      var from := plans[i].status;
      plans := plans[i := plans[i].(status := status,
                                    activeKey := if status == Eligible then plans[i].activeKey else None)];
      events := events + [PlanEvent(i, Some(from), status)];
      return true;
    }
  }

  /** The rows of other candidates are untouched and only appended to. */
  predicate OthersUntouched(t: Plans, t': Plans, c: CandidateId) {
    && |t| <= |t'|
    && (forall i | 0 <= i < |t| :: t'[i].candidate == t[i].candidate && t'[i].instrument == t[i].instrument)
    && (forall i | 0 <= i < |t| && t[i].candidate != c :: t'[i] == t[i])
    && forall i | |t| <= i < |t'| :: t'[i].candidate == c
  }

  /** The table with these plans superseded, which gives their dedupe slots back, and all other rows as they were. */
  predicate SupersededIn(t: Plans, t': Plans, which: seq<nat>) {
    && |t'| >= |t|
    && forall i | 0 <= i < |t| ::
         t'[i] == if i in which then PlanRow(t[i].candidate, t[i].instrument, t[i].dedupeKey, PlanSuperseded, None)
                  else t[i]
  }

  lemma NoneSuperseded(t: Plans, row: PlanRow)
    ensures SupersededIn(t, t + [row], []) && SupersedingEvents([], [])
  {
  }

  /** Superseding the next of the predecessors: a plan that was still eligible, of no other candidate. */
  lemma SupersedeNext(before: Plans, t: Plans, row: PlanRow, predecessors: seq<nat>, i: nat)
    requires i < |predecessors| && |t| == |before| + 1 && t[|before|] == row && PlanKeysInv(t)
    requires forall p | p in predecessors :: p < |before| && before[p].candidate == row.candidate && Active(before[p])
    requires forall j, k | 0 <= j < k < |predecessors| :: predecessors[j] < predecessors[k]
    requires SupersededIn(before, t, predecessors[..i])
    ensures var p, t' := predecessors[i], Transitioned(t, predecessors[i], PlanSuperseded);
            && p < |before| && t[p].status == Eligible
            && |t'| == |t| && t'[|before|] == row && PlanKeysInv(t')
            && SupersededIn(before, t', predecessors[..i + 1])
            && OtherCount(t', row.instrument, row.candidate) == OtherCount(t, row.instrument, row.candidate)
  {
    var p := predecessors[i];
    assert p in predecessors && p !in predecessors[..i];
    TransitionKeepsPlans(t, p, PlanSuperseded);
    CountAfterTransition(t, p, PlanSuperseded, row.instrument, row.candidate);
    assert predecessors[..i + 1] == predecessors[..i] + [p];
    hide PlanKeysInv, OtherCount;
  }

  lemma EventOfNext(events: seq<PlanEvent>, predecessors: seq<nat>, i: nat)
    requires i < |predecessors| && SupersedingEvents(events, predecessors[..i])
    ensures SupersedingEvents(events + [PlanEvent(predecessors[i], Some(Eligible), PlanSuperseded)],
                              predecessors[..i + 1])
  {
  }

  lemma SupersededUntouched(before: Plans, t: Plans, row: PlanRow, predecessors: seq<nat>, n: nat)
    requires n <= |predecessors| && |t| == |before| + 1 && t[|before|] == row
    requires forall p | p in predecessors :: p < |before| && before[p].candidate == row.candidate
    requires SupersededIn(before, t, predecessors[..n])
    ensures OthersUntouched(before, t, row.candidate)
  {
    assert forall p | p in predecessors[..n] :: p in predecessors;
  }

  /** One event per superseded plan, in order. */
  predicate SupersedingEvents(events: seq<PlanEvent>, which: seq<nat>) {
    && |events| == |which|
    && forall j | 0 <= j < |which| :: events[j] == PlanEvent(which[j], Some(Eligible), PlanSuperseded)
  }

  /** The candidate's active plans, oldest first. */
  ghost predicate AreActivePlans(t: Plans, c: CandidateId, which: seq<nat>) {
    && (forall i: nat :: i in which <==> i < |t| && Active(t[i]) && t[i].candidate == c)
    && forall j, k | 0 <= j < k < |which| :: which[j] < which[k]
  }

  /** How far an admission gets: its insert, the event of the insert, and how many plans it retires. */
  datatype Extent = Extent(inserted: bool, logged: bool, retired: nat)

  /** That depends on the await that raises, if it gets to it; commits that raise may have taken effect. */
  function ExtentOf(interrupt: Interrupt, predecessors: nat): Extent {
    match interrupt
    case Never => Extent(true, true, predecessors)
    case OnAwait(n, effective) =>
      if n <= 1 then Extent(false, false, 0)
      else if n == 2 then Extent(effective, false, 0)
      else if n == 3 then Extent(true, effective, 0)
      else if n - 4 < predecessors then Extent(true, true, n - 4 + if effective then 1 else 0)
      else Extent(true, true, predecessors)
  }

  class EvaluationJob {
    var degraded: bool

    constructor ()
      ensures !degraded
    {
      degraded := false;
    }

    /**
      The retiring loop of _admit_plan; it may stop before or after any single transition.  The
      plans retired are a prefix of the predecessors, each superseded with its event, in order.
     */
    method RetirePredecessors(repo: Repository, predecessors: seq<nat>, ghost before: Plans, row: PlanRow,
                              interrupt: Interrupt)
      returns (raised: bool, ghost retired: nat)
      requires Active(row) && repo.plans == before + [row] && PlanKeysInv(repo.plans)
      requires forall p | p in predecessors :: p < |before| && before[p].candidate == row.candidate && Active(before[p])
      requires forall j, k | 0 <= j < k < |predecessors| :: predecessors[j] < predecessors[k]
      modifies repo
      ensures PlanKeysInv(repo.plans) && OthersUntouched(before, repo.plans, row.candidate)
      ensures |repo.plans| == |before| + 1 && repo.plans[|before|] == row
      ensures retired <= |predecessors| && SupersededIn(before, repo.plans, predecessors[..retired])
      ensures old(repo.events) <= repo.events
      ensures SupersedingEvents(repo.events[|old(repo.events)|..], predecessors[..retired])
      ensures raised <==> interrupt.OnAwait? && 4 <= interrupt.n < 4 + |predecessors|
      ensures retired == if raised then interrupt.n - 4 + (if interrupt.effective then 1 else 0) else |predecessors|
      ensures OtherCount(repo.plans, row.instrument, row.candidate) == OtherCount(before, row.instrument, row.candidate)
    {
      OwnPlanNotCounted(before, row);
      NoneSuperseded(before, row);
      assert repo.events[|repo.events|..] == [] && predecessors[..0] == [];
      hide PlanKeysInv, OtherCount, SupersededIn, SupersedingEvents, OthersUntouched, Transitioned;
      retired := 0;
      var i := 0;
      while i < |predecessors|
        invariant 0 <= i == retired <= |predecessors|
        invariant |repo.plans| == |before| + 1 && repo.plans[|before|] == row && PlanKeysInv(repo.plans)
        invariant SupersededIn(before, repo.plans, predecessors[..i])
        invariant old(repo.events) <= repo.events
        invariant SupersedingEvents(repo.events[|old(repo.events)|..], predecessors[..i])
        invariant interrupt.OnAwait? && interrupt.n >= 4 ==> interrupt.n - 4 >= i
        invariant OtherCount(repo.plans, row.instrument, row.candidate)
               == OtherCount(before, row.instrument, row.candidate)
      {
        if interrupt.OnAwait? && interrupt.n == 4 + i && !interrupt.effective {
          SupersededUntouched(before, repo.plans, row, predecessors, retired);
          return true, retired;
        }
        ghost var table, events := repo.plans, repo.events;
        SupersedeNext(before, table, row, predecessors, i);
        var changed := repo.Transition(predecessors[i], PlanSuperseded);
        EventOfNext(events[|old(repo.events)|..], predecessors, i);
        assert repo.events[|old(repo.events)|..]
            == events[|old(repo.events)|..] + [PlanEvent(predecessors[i], Some(Eligible), PlanSuperseded)];
        retired := i + 1;
        if interrupt.OnAwait? && interrupt.n == 4 + i {
          SupersededUntouched(before, repo.plans, row, predecessors, retired);
          return true, retired;
        }
        i := i + 1;
      }
      SupersededUntouched(before, repo.plans, row, predecessors, retired);
      return false, retired;
    }

    /**
      _admit_plan: the replacement is inserted first, only then are the predecessors retired.
      Whatever await raises, a candidate with an active plan keeps one; both tables are known for
      every point at which it stops.
     */
    method AdmitPlan(repo: Repository, candidate: CandidateId, instrument: InstrumentPk, key: PlanKey,
                     cap: nat, interrupt: Interrupt)
      returns (result: AdmitResult, ghost predecessors: seq<nat>)
      requires PlanKeysInv(repo.plans)
      requires forall i | 0 <= i < |repo.plans| && repo.plans[i].candidate == candidate ::
                 repo.plans[i].instrument == instrument
      modifies this, repo
      ensures PlanKeysInv(repo.plans) && OthersUntouched(old(repo.plans), repo.plans, candidate)
      // at whatever await it stops
      ensures forall c :: HasActivePlan(old(repo.plans), c) ==> HasActivePlan(repo.plans, c)
      ensures result == Suppressed ==> repo.plans == old(repo.plans) && repo.events == old(repo.events)
      ensures degraded == (old(degraded) || result == FailedPlan)
      ensures AreActivePlans(old(repo.plans), candidate, predecessors)
      ensures result != Suppressed ==>
                var extent := ExtentOf(interrupt, |predecessors|);
                && |repo.plans| == |old(repo.plans)| + (if extent.inserted then 1 else 0)
                && (extent.inserted ==>
                      repo.plans[|old(repo.plans)|] == PlanRow(candidate, instrument, key, Eligible, Some(key)))
                && extent.retired <= |predecessors|
                && SupersededIn(old(repo.plans), repo.plans, predecessors[..extent.retired])
                && var created := old(repo.events)
                                  + if extent.logged then [PlanEvent(|old(repo.plans)|, None, Eligible)] else [];
                && created <= repo.events
                && SupersedingEvents(repo.events[|created|..], predecessors[..extent.retired])
      // when it comes to which end
      ensures result == Suppressed <==>
                && !(interrupt.OnAwait? && interrupt.n == 0)
                && (|| KeyTaken(old(repo.plans), key)
                    || (&& !(interrupt.OnAwait? && interrupt.n == 1)
                        && OtherCount(old(repo.plans), instrument, candidate) >= cap))
      ensures result == FailedPlan <==>
                result != Suppressed && interrupt.OnAwait? && interrupt.n <= 5 + |predecessors|
      // undisturbed
      ensures interrupt.Never? ==> result != FailedPlan
      ensures interrupt.Never? ==>
                (result == CreatedPlan <==>
                   !KeyTaken(old(repo.plans), key) && OtherCount(old(repo.plans), instrument, candidate) < cap)
      ensures result == CreatedPlan ==>
                && |repo.plans| == |old(repo.plans)| + 1
                && Active(repo.plans[|old(repo.plans)|]) && repo.plans[|old(repo.plans)|].dedupeKey == key
                && (forall i | 0 <= i < |repo.plans| && repo.plans[i].candidate == candidate && Active(repo.plans[i]) ::
                      i == |old(repo.plans)|)
                && ActiveCount(repo.plans, instrument) <= cap
    {
      hide PlanKeysInv, OtherCount, OwnCount, ActiveCount, HasActivePlan;
      ghost var before, log := repo.plans, repo.events;
      var row := NewPlan(candidate, instrument, key);
      PredecessorsAreAll(before, row);
      predecessors := Predecessors(before, row);
      if interrupt.OnAwait? && interrupt.n == 0 {
        degraded := true;
        return FailedPlan, predecessors;
      }
      if exists i | 0 <= i < |repo.plans| :: repo.plans[i].activeKey == Some(key) {
        return Suppressed, predecessors;
      }
      if interrupt.OnAwait? && interrupt.n == 1 {
        degraded := true;
        return FailedPlan, predecessors;
      }
      var olds := Predecessors(repo.plans, row);
      if OtherCount(repo.plans, instrument, candidate) >= cap {
        return Suppressed, predecessors;
      }
      var insertInterrupt :=
        if interrupt.OnAwait? && interrupt.n >= 2 then OnAwait(interrupt.n - 2, interrupt.effective) else Never;
      var created, raised := repo.InsertNew(row, insertInterrupt);
      InsertKeepsPlans(before, row);
      if raised {
        degraded := true;
        return FailedPlan, predecessors;
      }
      ghost var retired;
      raised, retired := RetirePredecessors(repo, olds, before, row, interrupt);
      ActivePlansRemain(before, repo.plans, candidate);
      if raised {
        degraded := true;
        return FailedPlan, predecessors;
      }
      assert olds[..|olds|] == olds;
      // the snapshot and the cost estimate are two more awaits on other tables
      if interrupt.OnAwait? && interrupt.n in {4 + |olds|, 5 + |olds|} {
        degraded := true;
        return FailedPlan, predecessors;
      }
      ActiveAreOwnAndOthers(repo.plans, instrument, candidate);
      OwnCountOfOne(repo.plans, instrument, candidate, |before|);
      return CreatedPlan, predecessors;
    }
  }

  /** Exactly the candidate's active plans on the instrument are its predecessors. */
  lemma {:induction false} SelectAscends(t: Plans, keep: PlanRow -> bool)
    ensures forall j, k | 0 <= j < k < |Select(t, keep)| :: Select(t, keep)[j] < Select(t, keep)[k]
    ensures forall p | p in Select(t, keep) :: p < |t|
  {
    if t != [] {
      var rest := Select(t[..|t| - 1], keep);
      SelectAscends(t[..|t| - 1], keep);
      assert forall j | 0 <= j < |rest| :: rest[j] in rest;
    }
  }

  lemma PredecessorsAreAll(t: Plans, row: PlanRow)
    requires forall i | 0 <= i < |t| && t[i].candidate == row.candidate :: t[i].instrument == row.instrument
    ensures AreActivePlans(t, row.candidate, Predecessors(t, row))
  {
    SelectAscends(t, Replaced(row));
    SelectFindsRows(t, Replaced(row));
  }

  lemma InsertKeepsPlans(t: Plans, row: PlanRow)
    requires PlanKeysInv(t) && row == NewPlan(row.candidate, row.instrument, row.dedupeKey)
    ensures var t' := Inserted(t, row);
            && PlanKeysInv(t') && OthersUntouched(t, t', row.candidate)
            && OtherCount(t', row.instrument, row.candidate) == OtherCount(t, row.instrument, row.candidate)
            && forall c :: HasActivePlan(t, c) ==> HasActivePlan(t', c)
  {
  }

  /** Once the replacement is in, every candidate that had an active plan has one. */
  lemma ActivePlansRemain(t: Plans, t': Plans, candidate: CandidateId)
    requires OthersUntouched(t, t', candidate) && |t'| == |t| + 1
    requires Active(t'[|t|]) && t'[|t|].candidate == candidate
    ensures forall c :: HasActivePlan(t, c) ==> HasActivePlan(t', c)
  {
  }
}
