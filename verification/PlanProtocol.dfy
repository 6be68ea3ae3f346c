/**
  Any number of concurrent plan admissions over one plan table, for the same or for different
  candidates, each of which may stop at any await.  Closing a plan (expiry, mirrored rejections)
  is the environment's move.
 */
module PlanProtocol {
  import opened Options
  import opened PlanTable

  type AdmissionId = nat

  datatype Stage = Checking | Reading | Inserting | Retiring | Stopped

  datatype Admission = Admission(
    row: PlanRow,
    stage: Stage,
    predecessors: seq<nat>,      // read before the insert
    retired: nat,
    plan: Option<nat>)           // the row this admission inserted

  datatype PlanSystem = PlanSystem(
    plans: Plans,
    admissions: map<AdmissionId, Admission>,
    closed: set<nat>)            // history: rows closed by the environment

  datatype PlanLabel =
    | Evaluate(a: AdmissionId, candidate: CandidateId, instrument: InstrumentPk, key: PlanKey)
    | CheckDuplicate(a: AdmissionId)
    | ReadActives(a: AdmissionId, cap: nat)
    | InsertPlan(a: AdmissionId)
    | Retire(a: AdmissionId)
    | Stop(a: AdmissionId)
    | Close(plan: nat, status: PlanStatus)

  const NO_PLANS := PlanSystem([], map[], {})

  /** The rows of the instrument's active plans that satisfy keep, oldest first. */
  function Select(t: Plans, keep: PlanRow -> bool): seq<nat>
  {
    if t == [] then []
    else Select(t[..|t| - 1], keep) + if keep(t[|t| - 1]) then [|t| - 1] else []
  }

  /** The active plans a plan of this candidate on this instrument replaces. */
  function Replaced(row: PlanRow): PlanRow -> bool {
    (x: PlanRow) => Active(x) && x.instrument == row.instrument && x.candidate == row.candidate
  }

  function Predecessors(t: Plans, row: PlanRow): seq<nat> {
    Select(t, Replaced(row))
  }

  predicate At(s: PlanSystem, a: AdmissionId, stage: Stage) {
    a in s.admissions && s.admissions[a].stage == stage
  }

  function PlanStep(s: PlanSystem, l: PlanLabel): PlanSystem {
    match l
    case Evaluate(a, candidate, instrument, key) =>
      if a in s.admissions then s
      else s.(admissions := s.admissions[a := Admission(NewPlan(candidate, instrument, key), Checking, [], 0, None)])
    case CheckDuplicate(a) =>
      if !At(s, a, Checking) then s
      else
        var k := s.admissions[a];
        var stage := if KeyTaken(s.plans, k.row.dedupeKey) then Stopped else Reading;
        s.(admissions := s.admissions[a := k.(stage := stage)])
    case ReadActives(a, cap) =>
      if !At(s, a, Reading) then s
      else
        var k := s.admissions[a];
        if OtherCount(s.plans, k.row.instrument, k.row.candidate) >= cap
        then s.(admissions := s.admissions[a := k.(stage := Stopped)])
        else s.(admissions := s.admissions[a := k.(stage := Inserting, predecessors := Predecessors(s.plans, k.row))])
    case InsertPlan(a) =>
      if !At(s, a, Inserting) then s
      else
        var k := s.admissions[a];
        if KeyTaken(s.plans, k.row.dedupeKey)
        then s.(admissions := s.admissions[a := k.(stage := Stopped)])
        else s.(plans := Inserted(s.plans, k.row),
                admissions := s.admissions[a := k.(stage := Retiring, plan := Some(|s.plans|))])
    case Retire(a) =>
      if !At(s, a, Retiring) || s.admissions[a].retired >= |s.admissions[a].predecessors| then s
      else
        var k := s.admissions[a];
        s.(plans := Transitioned(s.plans, k.predecessors[k.retired], PlanSuperseded),
           admissions := s.admissions[a := k.(retired := k.retired + 1)])
    case Stop(a) =>
      if a !in s.admissions then s else s.(admissions := s.admissions[a := s.admissions[a].(stage := Stopped)])
    case Close(plan, status) =>
      if plan >= |s.plans| || status == Eligible then s
      else s.(plans := Transitioned(s.plans, plan, status), closed := s.closed + {plan})
  }

  function PlanRun(s: PlanSystem, labels: seq<PlanLabel>): PlanSystem
    decreases |labels|
  {
    if labels == [] then s else PlanStep(PlanRun(s, labels[..|labels| - 1]), labels[|labels| - 1])
  }

  // ------------------------------------------------------------------ invariant

  lemma {:induction false} SelectFindsRows(t: Plans, keep: PlanRow -> bool)
    ensures forall x | x in Select(t, keep) :: x < |t| && keep(t[x])
    ensures forall i | 0 <= i < |t| && keep(t[i]) :: i in Select(t, keep)
  {
    if t != [] {
      var front := t[..|t| - 1];
      SelectFindsRows(front, keep);
      forall i | 0 <= i < |t| && keep(t[i])
        ensures i in Select(t, keep)
      {
        if i < |front| {
          assert front[i] == t[i];
        }
      }
    }
  }

  /** What an admission will retire are older plans of its own candidate. */
  predicate AdmissionInv(t: Plans, k: Admission) {
    && k.row == NewPlan(k.row.candidate, k.row.instrument, k.row.dedupeKey)
    && (forall p | p in k.predecessors :: p < |t| && t[p].candidate == k.row.candidate)
    && (k.stage in {Checking, Reading, Inserting} ==> k.plan.None? && k.retired == 0)
    && (k.stage == Retiring ==>
          && k.plan.Some? && k.plan.value < |t| && t[k.plan.value].candidate == k.row.candidate
          && forall p | p in k.predecessors :: p < k.plan.value)
  }

  /** Admission never deactivates the newest plan of a candidate. */
  predicate NewestInv(t: Plans, closed: set<nat>) {
    forall i | 0 <= i < |t| && Newest(t, i) :: Active(t[i]) || i in closed
  }

  predicate PlanInv(s: PlanSystem) {
    && PlanKeysInv(s.plans)
    && NewestInv(s.plans, s.closed)
    && forall a | a in s.admissions :: AdmissionInv(s.plans, s.admissions[a])
  }

  lemma TransitionKeepsPlans(t: Plans, i: nat, status: PlanStatus)
    requires i < |t| && status != Eligible
    ensures var t' := Transitioned(t, i, status);
            && |t'| == |t|
            && (forall j | 0 <= j < |t| :: t'[j].candidate == t[j].candidate && t'[j].instrument == t[j].instrument)
            && (forall j | 0 <= j < |t| && j != i :: t'[j] == t[j])
            && (PlanKeysInv(t) ==> PlanKeysInv(t'))
  {
  }

  lemma RetireKeepsInv(s: PlanSystem, a: AdmissionId)
    requires PlanInv(s) && At(s, a, Retiring)
    requires s.admissions[a].retired < |s.admissions[a].predecessors|
    ensures PlanInv(PlanStep(s, Retire(a)))
  {
    var k := s.admissions[a];
    var p := k.predecessors[k.retired];
    var s' := PlanStep(s, Retire(a));
    assert AdmissionInv(s.plans, k);
    assert p in k.predecessors;
    TransitionKeepsPlans(s.plans, p, PlanSuperseded);
    forall i | 0 <= i < |s'.plans| && Newest(s'.plans, i)
      ensures Active(s'.plans[i]) || i in s'.closed
    {
      assert Newest(s.plans, i);
      assert s.plans[k.plan.value].candidate == s.plans[p].candidate && i != p;
    }
    forall b | b in s'.admissions
      ensures AdmissionInv(s'.plans, s'.admissions[b])
    {
      assert AdmissionInv(s.plans, s.admissions[b]);
    }
  }

  lemma CloseKeepsInv(s: PlanSystem, plan: nat, status: PlanStatus)
    requires PlanInv(s) && plan < |s.plans| && status != Eligible
    ensures PlanInv(PlanStep(s, Close(plan, status)))
  {
    var s' := PlanStep(s, Close(plan, status));
    TransitionKeepsPlans(s.plans, plan, status);
    forall i | 0 <= i < |s'.plans| && Newest(s'.plans, i)
      ensures Active(s'.plans[i]) || i in s'.closed
    {
      assert Newest(s.plans, i);
    }
    forall b | b in s'.admissions
      ensures AdmissionInv(s'.plans, s'.admissions[b])
    {
      assert AdmissionInv(s.plans, s.admissions[b]);
    }
  }

  lemma InsertKeepsInv(s: PlanSystem, a: AdmissionId)
    requires PlanInv(s) && At(s, a, Inserting)
    ensures PlanInv(PlanStep(s, InsertPlan(a)))
  {
  }

  lemma PlanStepKeepsInv(s: PlanSystem, l: PlanLabel)
    requires PlanInv(s)
    ensures PlanInv(PlanStep(s, l))
  {
    match l
    case Retire(a) =>
      if At(s, a, Retiring) && s.admissions[a].retired < |s.admissions[a].predecessors| {
        RetireKeepsInv(s, a);
      }
    case Close(plan, status) =>
      if plan < |s.plans| && status != Eligible {
        CloseKeepsInv(s, plan, status);
      }
    case InsertPlan(a) =>
      if At(s, a, Inserting) {
        InsertKeepsInv(s, a);
      }
    case ReadActives(a, cap) =>
      if At(s, a, Reading) {
        var k := s.admissions[a];
        SelectFindsRows(s.plans, Replaced(k.row));
      }
    case _ =>
  }

  lemma {:induction false} PlanRunKeepsInv(labels: seq<PlanLabel>)
    ensures PlanInv(PlanRun(NO_PLANS, labels))
    decreases |labels|
  {
    if labels != [] {
      PlanRunKeepsInv(labels[..|labels| - 1]);
      PlanStepKeepsInv(PlanRun(NO_PLANS, labels[..|labels| - 1]), labels[|labels| - 1]);
    }
  }

  // ------------------------------------------------------------------ guarantees

  /**
    In every interleaving of admissions and crashes, the plan of a candidate that was inserted
    last is active unless the environment closed that very plan.
   */
  lemma NewestPlanStaysActive(labels: seq<PlanLabel>, i: nat)
    requires Newest(PlanRun(NO_PLANS, labels).plans, i)
    requires i !in PlanRun(NO_PLANS, labels).closed
    ensures Active(PlanRun(NO_PLANS, labels).plans[i])
  {
    PlanRunKeepsInv(labels);
  }

  /** The environment closes no plan of this candidate during the run. */
  predicate NeverCloses(s: PlanSystem, labels: seq<PlanLabel>, c: CandidateId) {
    forall n | 0 <= n < |labels| && labels[n].Close? ::
      var t := PlanRun(s, labels[..n]).plans;
      labels[n].plan < |t| ==> t[labels[n].plan].candidate != c
  }

  /** Plan j of the candidate is active, and no admission is about to retire it. */
  predicate Kept(s: PlanSystem, j: nat, c: CandidateId) {
    && j < |s.plans| && s.plans[j].candidate == c && Active(s.plans[j])
    && forall a | a in s.admissions && s.admissions[a].stage == Retiring ::
         var k := s.admissions[a];
         forall i | k.retired <= i < |k.predecessors| :: k.predecessors[i] != j
  }

  /** Every admission that is retiring the candidate's plans has its own plan active. */
  predicate ReplacementsActive(s: PlanSystem, c: CandidateId) {
    forall a | a in s.admissions && s.admissions[a].stage == Retiring && s.admissions[a].row.candidate == c ::
      var plan := s.admissions[a].plan;
      plan.Some? && plan.value < |s.plans| && Active(s.plans[plan.value])
  }

  lemma {:induction false} LastActive(t: Plans, c: CandidateId) returns (j: nat)
    requires HasActivePlan(t, c)
    ensures j < |t| && t[j].candidate == c && Active(t[j])
    ensures forall i | j < i < |t| && t[i].candidate == c :: !Active(t[i])
  {
    var front := t[..|t| - 1];
    if t[|t| - 1].candidate == c && Active(t[|t| - 1]) {
      j := |t| - 1;
    } else {
      var i :| 0 <= i < |t| && t[i].candidate == c && Active(t[i]);
      assert front[i] == t[i];
      j := LastActive(front, c);
    }
  }

  lemma SomePlanIsKept(s: PlanSystem, c: CandidateId)
    requires PlanInv(s) && HasActivePlan(s.plans, c) && ReplacementsActive(s, c)
    ensures exists j: nat :: Kept(s, j, c)
  {
    var j := LastActive(s.plans, c);
    forall a, i | && a in s.admissions && s.admissions[a].stage == Retiring
                  && s.admissions[a].retired <= i < |s.admissions[a].predecessors|
      ensures s.admissions[a].predecessors[i] != j
    {
      var k := s.admissions[a];
      assert AdmissionInv(s.plans, k);
      assert k.predecessors[i] in k.predecessors;
    }
    assert Kept(s, j, c);
  }

  lemma StepKeepsSome(s: PlanSystem, l: PlanLabel, j: nat, c: CandidateId)
    requires PlanInv(s) && Kept(s, j, c)
    requires l.Close? && l.plan < |s.plans| ==> s.plans[l.plan].candidate != c
    ensures exists j': nat :: Kept(PlanStep(s, l), j', c)
  {
    var t, s' := s.plans, PlanStep(s, l);
    if l.InsertPlan? && At(s, l.a, Inserting) && |s'.plans| > |t| && s'.plans[|t|].candidate == c {
      assert AdmissionInv(t, s.admissions[l.a]);
      forall a, i | && a in s'.admissions && s'.admissions[a].stage == Retiring
                    && s'.admissions[a].retired <= i < |s'.admissions[a].predecessors|
        ensures s'.admissions[a].predecessors[i] != |t|
      {
        assert AdmissionInv(t, s.admissions[a]);
        assert s'.admissions[a].predecessors[i] in s.admissions[a].predecessors;
      }
      assert Kept(s', |t|, c);
    } else {
      if l.Retire? && At(s, l.a, Retiring) && s.admissions[l.a].retired < |s.admissions[l.a].predecessors| {
        var k := s.admissions[l.a];
        assert AdmissionInv(t, k) && k.predecessors[k.retired] in k.predecessors;
        assert k.predecessors[k.retired] != j;
        TransitionKeepsPlans(t, k.predecessors[k.retired], PlanSuperseded);
      } else if l.Close? && l.plan < |t| && l.status != Eligible {
        TransitionKeepsPlans(t, l.plan, l.status);
      } else if l.InsertPlan? && At(s, l.a, Inserting) {
        var k := s.admissions[l.a];
        assert AdmissionInv(t, k);
        assert forall i | 0 <= i < |k.predecessors| :: k.predecessors[i] in k.predecessors;
      }
      assert Kept(s', j, c);
    }
  }

  lemma {:induction false} SomeSurvives(s: PlanSystem, more: seq<PlanLabel>, c: CandidateId)
    requires PlanInv(s) && (exists j: nat :: Kept(s, j, c)) && NeverCloses(s, more, c)
    ensures PlanInv(PlanRun(s, more)) && exists j: nat :: Kept(PlanRun(s, more), j, c)
    decreases |more|
  {
    if more != [] {
      var front := more[..|more| - 1];
      assert NeverCloses(s, front, c) by {
        forall n | 0 <= n < |front| && front[n].Close?
          ensures var t := PlanRun(s, front[..n]).plans;
                  front[n].plan < |t| ==> t[front[n].plan].candidate != c
        {
          assert front[..n] == more[..n] && more[n] == front[n];
        }
      }
      SomeSurvives(s, front, c);
      var j: nat :| Kept(PlanRun(s, front), j, c);
      assert more[..|more| - 1] == front;
      StepKeepsSome(PlanRun(s, front), more[|more| - 1], j, c);
      PlanStepKeepsInv(PlanRun(s, front), more[|more| - 1]);
    }
  }

  /**
    Replacement is crash-safe: from any reachable point at which the candidate has an active plan
    and every replacement still retiring its predecessors is itself active, the candidate has an
    active plan at every later point of every run, until the environment closes one of its plans.
   */
  lemma ReplacementIsCrashSafe(before: seq<PlanLabel>, more: seq<PlanLabel>, c: CandidateId)
    requires HasActivePlan(PlanRun(NO_PLANS, before).plans, c)
    requires ReplacementsActive(PlanRun(NO_PLANS, before), c)
    requires NeverCloses(PlanRun(NO_PLANS, before), more, c)
    ensures HasActivePlan(PlanRun(PlanRun(NO_PLANS, before), more).plans, c)
  {
    hide PlanRun, PlanStep;
    PlanRunKeepsInv(before);
    SomePlanIsKept(PlanRun(NO_PLANS, before), c);
    SomeSurvives(PlanRun(NO_PLANS, before), more, c);
  }

  /** Two admissions that race never leave two active plans with one dedupe key. */
  lemma OneActivePlanPerKey(labels: seq<PlanLabel>, i: nat, j: nat)
    requires i < |PlanRun(NO_PLANS, labels).plans| && j < |PlanRun(NO_PLANS, labels).plans|
    requires Active(PlanRun(NO_PLANS, labels).plans[i]) && Active(PlanRun(NO_PLANS, labels).plans[j])
    requires PlanRun(NO_PLANS, labels).plans[i].dedupeKey == PlanRun(NO_PLANS, labels).plans[j].dedupeKey
    ensures i == j
  {
    PlanRunKeepsInv(labels);
  }
}
