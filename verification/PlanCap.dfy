/**
  The cap on an instrument's active plans, which an admission checks before its insert: what the
  check still says at the insert and after the replaced plans are retired, and how a race or a
  crash gets past it.
 */
module PlanCap {
  import opened Options
  import opened PlanTable
  import opened PlanProtocol

  // ------------------------------------------------------------------ when the cap holds

  /** Label l inserts an active plan of another candidate on the instrument. */
  predicate OtherEnters(s: PlanSystem, l: PlanLabel, instrument: InstrumentPk, c: CandidateId) {
    && l.InsertPlan? && At(s, l.a, Inserting)
    && var row := s.admissions[l.a].row;
       && !KeyTaken(s.plans, row.dedupeKey)
       && row.instrument == instrument && row.candidate != c
  }

  /** Label l retires or closes one. */
  predicate OtherLeaves(s: PlanSystem, l: PlanLabel, instrument: InstrumentPk, c: CandidateId) {
    || (&& l.Retire? && At(s, l.a, Retiring)
        && var k := s.admissions[l.a];
           k.retired < |k.predecessors| && OtherAt(s.plans, k.predecessors[k.retired], instrument, c))
    || (l.Close? && l.status != Eligible && OtherAt(s.plans, l.plan, instrument, c))
  }

  function Entered(s: PlanSystem, labels: seq<PlanLabel>, instrument: InstrumentPk, c: CandidateId): nat
    decreases |labels|
  {
    if labels == [] then 0
    else
      var front := labels[..|labels| - 1];
      Entered(s, front, instrument, c)
      + if OtherEnters(PlanRun(s, front), labels[|labels| - 1], instrument, c) then 1 else 0
  }

  function Left(s: PlanSystem, labels: seq<PlanLabel>, instrument: InstrumentPk, c: CandidateId): nat
    decreases |labels|
  {
    if labels == [] then 0
    else
      var front := labels[..|labels| - 1];
      Left(s, front, instrument, c)
      + if OtherLeaves(PlanRun(s, front), labels[|labels| - 1], instrument, c) then 1 else 0
  }

  /** The others on an instrument change by one foreign insert, retirement or closure at a time. */
  lemma OthersStep(s: PlanSystem, l: PlanLabel, instrument: InstrumentPk, c: CandidateId)
    requires PlanInv(s)
    ensures OtherCount(PlanStep(s, l).plans, instrument, c) + (if OtherLeaves(s, l, instrument, c) then 1 else 0)
         == OtherCount(s.plans, instrument, c) + if OtherEnters(s, l, instrument, c) then 1 else 0
  {
    hide PlanKeysInv, NewestInv;
    match l
    case InsertPlan(a) =>
      if At(s, a, Inserting) {
        assert AdmissionInv(s.plans, s.admissions[a]);
        var t' := Inserted(s.plans, s.admissions[a].row);
        assert t' != s.plans ==> t'[..|t'| - 1] == s.plans;
      }
    case Retire(a) =>
      if At(s, a, Retiring) && s.admissions[a].retired < |s.admissions[a].predecessors| {
        var k := s.admissions[a];
        CountAfterTransition(s.plans, k.predecessors[k.retired], PlanSuperseded, instrument, c);
      }
    case Close(plan, status) =>
      if status != Eligible {
        CountAfterTransition(s.plans, plan, status, instrument, c);
      }
    case _ =>
  }

  lemma {:induction false} OthersBalance(s: PlanSystem, labels: seq<PlanLabel>, instrument: InstrumentPk,
                                         c: CandidateId)
    requires PlanInv(s)
    ensures PlanInv(PlanRun(s, labels))
    ensures OtherCount(PlanRun(s, labels).plans, instrument, c) + Left(s, labels, instrument, c)
         == OtherCount(s.plans, instrument, c) + Entered(s, labels, instrument, c)
    decreases |labels|
  {
    if labels != [] {
      var front := labels[..|labels| - 1];
      OthersBalance(s, front, instrument, c);
      OthersStep(PlanRun(s, front), labels[|labels| - 1], instrument, c);
      PlanStepKeepsInv(PlanRun(s, front), labels[|labels| - 1]);
      hide PlanStep, PlanInv, OtherEnters, OtherLeaves, OtherCount;
    }
  }

  /**
    The cap an admission has read, over all runs: at its insert the others are still below it
    exactly when no more of them were inserted in between than there was room for, counting those
    that left.  With no foreign insert in between they always are.
   */
  lemma CapHoldsExactlyWhen(before: seq<PlanLabel>, between: seq<PlanLabel>, a: AdmissionId, cap: nat)
    requires At(PlanRun(NO_PLANS, before), a, Reading)
    requires var s, row := PlanRun(NO_PLANS, before), PlanRun(NO_PLANS, before).admissions[a].row;
             OtherCount(s.plans, row.instrument, row.candidate) < cap
    ensures var s := PlanRun(NO_PLANS, before);
            var row := s.admissions[a].row;
            var read := PlanStep(s, ReadActives(a, cap));
            var inserting := PlanRun(read, between);
            var entered := Entered(read, between, row.instrument, row.candidate);
            var left := Left(read, between, row.instrument, row.candidate);
            && At(read, a, Inserting)
            && (OtherCount(inserting.plans, row.instrument, row.candidate) < cap <==>
                  entered < cap - OtherCount(s.plans, row.instrument, row.candidate) + left)
            && (entered == 0 ==> OtherCount(inserting.plans, row.instrument, row.candidate) < cap)
  {
    var s := PlanRun(NO_PLANS, before);
    var row := s.admissions[a].row;
    PlanRunKeepsInv(before);
    PlanStepKeepsInv(s, ReadActives(a, cap));
    OthersBalance(PlanStep(s, ReadActives(a, cap)), between, row.instrument, row.candidate);
    hide PlanRun, PlanInv, OtherCount;
  }

  /** The check itself: an admission goes on exactly when the others are below the cap, and nobody else moves. */
  lemma ReadDecides(s: PlanSystem, a: AdmissionId, cap: nat)
    requires At(s, a, Reading)
    ensures var s', row := PlanStep(s, ReadActives(a, cap)), s.admissions[a].row;
            && (At(s', a, Inserting) <==> OtherCount(s.plans, row.instrument, row.candidate) < cap)
            && (!At(s', a, Inserting) ==> At(s', a, Stopped))
            && s'.plans == s.plans && s'.admissions[a].row == row
            && forall b | b in s.admissions && b != a :: b in s'.admissions && s'.admissions[b] == s.admissions[b]
  {
  }

  // ------------------------------------------------------------------ the instrument's own count

  /** Another admission of the candidate inserts its plan on the instrument. */
  predicate RivalEnters(s: PlanSystem, l: PlanLabel, a: AdmissionId, instrument: InstrumentPk, c: CandidateId) {
    && l.InsertPlan? && l.a != a && At(s, l.a, Inserting)
    && var row := s.admissions[l.a].row;
       && !KeyTaken(s.plans, row.dedupeKey)
       && row.instrument == instrument && row.candidate == c
  }

  /** Admission a is the only one that inserts a plan of its candidate on the instrument. */
  predicate InsertsAlone(s: PlanSystem, labels: seq<PlanLabel>, a: AdmissionId, instrument: InstrumentPk,
                         c: CandidateId)
    decreases |labels|
  {
    labels != [] ==>
      var front := labels[..|labels| - 1];
      && InsertsAlone(s, front, a, instrument, c)
      && !RivalEnters(PlanRun(s, front), labels[|labels| - 1], a, instrument, c)
  }

  /** Rows keep their candidate and instrument, and an inactive plan stays inactive. */
  predicate OnlyEnds(t: Plans, t': Plans) {
    && |t| <= |t'|
    && forall i | 0 <= i < |t| ::
         && t'[i].candidate == t[i].candidate && t'[i].instrument == t[i].instrument
         && (Active(t'[i]) ==> Active(t[i]))
  }

  /** An admission that read the table t: it keeps what it read, and what it has retired is inactive. */
  predicate ReadAt(s: PlanSystem, a: AdmissionId, t: Plans, row: PlanRow) {
    && OnlyEnds(t, s.plans) && a in s.admissions
    && var k := s.admissions[a];
       && k.row == row && k.predecessors == Predecessors(t, row)
       && k.stage in {Inserting, Retiring, Stopped} && k.retired <= |k.predecessors|
       && (forall j | 0 <= j < |k.predecessors| :: k.predecessors[j] < |t|)
       && (forall j | 0 <= j < k.retired :: !Active(s.plans[k.predecessors[j]]))
       && (k.stage == Inserting ==> k.plan.None?)
       && (k.plan.Some? ==>
             && |t| <= k.plan.value < |s.plans|
             && s.plans[k.plan.value].instrument == row.instrument && s.plans[k.plan.value].candidate == row.candidate)
  }

  /** Every plan of the candidate that is newer than the table t is the one admission a inserted. */
  predicate NewerIsOwn(s: PlanSystem, a: AdmissionId, t: Plans, row: PlanRow) {
    && a in s.admissions
    && forall i | && |t| <= i < |s.plans|
                  && s.plans[i].instrument == row.instrument && s.plans[i].candidate == row.candidate ::
         s.admissions[a].plan == Some(i)
  }

  lemma StepOnlyEnds(s: PlanSystem, l: PlanLabel)
    ensures OnlyEnds(s.plans, PlanStep(s, l).plans)
  {
  }

  lemma EndsCompose(a: Plans, b: Plans, c: Plans)
    requires OnlyEnds(a, b) && OnlyEnds(b, c)
    ensures OnlyEnds(a, c)
  {
  }

  /** What an admission's own next step does to its plan and to its predecessors. */
  lemma OwnStep(s: PlanSystem, l: PlanLabel, a: AdmissionId)
    requires a in s.admissions
    requires forall j | 0 <= j < |s.admissions[a].predecessors| :: s.admissions[a].predecessors[j] < |s.plans|
    ensures var s' := PlanStep(s, l);
            var k, k' := s.admissions[a], s'.admissions[a];
            && (k.retired < k'.retired ==>
                  && k'.retired == k.retired + 1 <= |k.predecessors|
                  && |s.plans| == |s'.plans| && !Active(s'.plans[k.predecessors[k.retired]]))
            && (k'.plan != k.plan ==>
                  && k'.plan == Some(|s.plans|) && s'.plans == s.plans + [k.row])
  {
    hide KeyTaken, Predecessors;
  }

  lemma StepKeepsRead(s: PlanSystem, l: PlanLabel, a: AdmissionId, t: Plans, row: PlanRow)
    requires ReadAt(s, a, t, row)
    ensures ReadAt(PlanStep(s, l), a, t, row)
  {
    hide KeyTaken, Predecessors, Transitioned, Inserted;
    StepOnlyEnds(s, l);
    EndsCompose(t, s.plans, PlanStep(s, l).plans);
    OwnStep(s, l, a);
  }

  lemma StepKeepsNewer(s: PlanSystem, l: PlanLabel, a: AdmissionId, t: Plans, row: PlanRow)
    requires ReadAt(s, a, t, row) && NewerIsOwn(s, a, t, row)
    requires !RivalEnters(s, l, a, row.instrument, row.candidate)
    ensures NewerIsOwn(PlanStep(s, l), a, t, row)
  {
    hide Predecessors;
  }

  lemma {:induction false} RunKeepsRead(s: PlanSystem, labels: seq<PlanLabel>, a: AdmissionId, t: Plans, row: PlanRow)
    requires ReadAt(s, a, t, row)
    ensures ReadAt(PlanRun(s, labels), a, t, row)
    ensures NewerIsOwn(s, a, t, row) && InsertsAlone(s, labels, a, row.instrument, row.candidate) ==>
              NewerIsOwn(PlanRun(s, labels), a, t, row)
    decreases |labels|
  {
    hide PlanStep, ReadAt, NewerIsOwn, RivalEnters;
    if labels != [] {
      var front := labels[..|labels| - 1];
      RunKeepsRead(s, front, a, t, row);
      StepKeepsRead(PlanRun(s, front), labels[|labels| - 1], a, t, row);
      if NewerIsOwn(PlanRun(s, front), a, t, row)
         && !RivalEnters(PlanRun(s, front), labels[|labels| - 1], a, row.instrument, row.candidate) {
        StepKeepsNewer(PlanRun(s, front), labels[|labels| - 1], a, t, row);
      }
    }
  }

  predicate RetiredAllItRead(s: PlanSystem, a: AdmissionId) {
    a in s.admissions && s.admissions[a].retired == |s.admissions[a].predecessors|
  }

  /** Once all that was read is retired, the candidate's active plans on the instrument are newer than the read. */
  lemma OwnAreNewer(s: PlanSystem, a: AdmissionId, t: Plans, row: PlanRow)
    requires ReadAt(s, a, t, row) && RetiredAllItRead(s, a)
    ensures OwnCount(s.plans, row.instrument, row.candidate)
         == OwnCount(s.plans[|t|..], row.instrument, row.candidate)
  {
    var own := Replaced(row);
    SelectFindsRows(t, own);
    assert forall i | 0 <= i < |t| && own(t[i]) :: i in s.admissions[a].predecessors;
    OwnCountSplits(s.plans, |t|, row.instrument, row.candidate);
    OwnCountOfOne(s.plans[..|t|], row.instrument, row.candidate, |t|);
  }

  /** The plan that admission a inserted is active. */
  predicate OwnPlanStands(s: PlanSystem, a: AdmissionId) {
    && a in s.admissions && s.admissions[a].plan.Some?
    && s.admissions[a].plan.value < |s.plans| && Active(s.plans[s.admissions[a].plan.value])
  }

  lemma OwnIsTheReplacement(s: PlanSystem, a: AdmissionId, t: Plans, row: PlanRow)
    requires ReadAt(s, a, t, row) && NewerIsOwn(s, a, t, row)
    ensures OwnCount(s.plans[|t|..], row.instrument, row.candidate)
         == if OwnPlanStands(s, a) then 1 else 0
  {
    var plan, newer := s.admissions[a].plan, s.plans[|t|..];
    var i := if plan.Some? then plan.value - |t| else |newer|;
    forall j | 0 <= j < |newer| && OwnAt(newer, j, row.instrument, row.candidate)
      ensures j == i
    {
      assert newer[j] == s.plans[|t| + j];
    }
    OwnCountOfOne(newer, row.instrument, row.candidate, i);
  }

  /** From the read of an admission to any later point. */
  lemma ReadLasts(s: PlanSystem, between: seq<PlanLabel>, a: AdmissionId, cap: nat)
    requires PlanInv(s) && At(s, a, Reading)
    requires OtherCount(s.plans, s.admissions[a].row.instrument, s.admissions[a].row.candidate) < cap
    ensures var row := s.admissions[a].row;
            var end := PlanRun(PlanStep(s, ReadActives(a, cap)), between);
            && ReadAt(end, a, s.plans, row)
            && (InsertsAlone(PlanStep(s, ReadActives(a, cap)), between, a, row.instrument, row.candidate) ==>
                  NewerIsOwn(end, a, s.plans, row))
  {
    var row := s.admissions[a].row;
    var read := PlanStep(s, ReadActives(a, cap));
    assert AdmissionInv(s.plans, s.admissions[a]);
    SelectFindsRows(s.plans, Replaced(row));
    assert forall j | 0 <= j < |read.admissions[a].predecessors| ::
        read.admissions[a].predecessors[j] in Predecessors(s.plans, row);
    assert ReadAt(read, a, s.plans, row) && NewerIsOwn(read, a, s.plans, row);
    RunKeepsRead(read, between, a, s.plans, row);
  }

  /**
    The instrument's active plans, at any point after an admission has read that there is room:
    they are within the cap exactly when the others at the read and since, and the candidate's own
    plans, are.  Once the admission has retired all it read, its own are those inserted since the
    read; when it alone inserted any, that is its own plan or nothing, and the cap holds exactly
    when fewer of the others entered than there was room for, counting those that left.
   */
  lemma InstrumentCapHoldsExactlyWhen(before: seq<PlanLabel>, between: seq<PlanLabel>, a: AdmissionId, cap: nat)
    requires At(PlanRun(NO_PLANS, before), a, Reading)
    requires var s, row := PlanRun(NO_PLANS, before), PlanRun(NO_PLANS, before).admissions[a].row;
             OtherCount(s.plans, row.instrument, row.candidate) < cap
    ensures var s := PlanRun(NO_PLANS, before);
            var row := s.admissions[a].row;
            var read := PlanStep(s, ReadActives(a, cap));
            var end := PlanRun(read, between);
            var others := OtherCount(s.plans, row.instrument, row.candidate);
            var entered := Entered(read, between, row.instrument, row.candidate);
            var left := Left(read, between, row.instrument, row.candidate);
            var own := OwnCount(end.plans, row.instrument, row.candidate);
            var replaced := RetiredAllItRead(end, a);
            var alone := InsertsAlone(read, between, a, row.instrument, row.candidate);
            && (ActiveCount(end.plans, row.instrument) <= cap <==> others + entered + own <= cap + left)
            && |s.plans| <= |end.plans|
            && (replaced ==> own == OwnCount(end.plans[|s.plans|..], row.instrument, row.candidate))
            && (replaced && alone ==> own == if OwnPlanStands(end, a) then 1 else 0)
            && (replaced && alone && OwnPlanStands(end, a) ==>
                  (ActiveCount(end.plans, row.instrument) <= cap <==> entered < cap - others + left))
            && (replaced && alone && entered <= left ==> ActiveCount(end.plans, row.instrument) <= cap)
  {
    var s := PlanRun(NO_PLANS, before);
    var row := s.admissions[a].row;
    var read := PlanStep(s, ReadActives(a, cap));
    var end := PlanRun(read, between);
    PlanRunKeepsInv(before);
    PlanStepKeepsInv(s, ReadActives(a, cap));
    OthersBalance(read, between, row.instrument, row.candidate);
    ActiveAreOwnAndOthers(end.plans, row.instrument, row.candidate);
    ReadLasts(s, between, a, cap);
    assert read.plans == s.plans;
    hide PlanRun, PlanStep, PlanInv, OtherCount, OwnCount, ActiveCount, NewerIsOwn, Predecessors;
    if RetiredAllItRead(end, a) {
      OwnAreNewer(end, a, s.plans, row);
      if InsertsAlone(read, between, a, row.instrument, row.candidate) {
        OwnIsTheReplacement(end, a, s.plans, row);
      }
    }
  }

  // ------------------------------------------------------------------ runs past the cap

  /** Each state is the previous one after its label. */
  predicate Passes(states: seq<PlanSystem>, labels: seq<PlanLabel>) {
    && |states| == |labels| + 1 && states[0] == NO_PLANS
    && forall n | 0 <= n < |labels| :: PlanStep(states[n], labels[n]) == states[n + 1]
  }

  lemma {:induction false} RunPasses(states: seq<PlanSystem>, labels: seq<PlanLabel>)
    requires Passes(states, labels)
    ensures PlanRun(NO_PLANS, labels) == states[|labels|]
    decreases |labels|
  {
    hide PlanStep;
    if labels != [] {
      var n := |labels| - 1;
      assert PlanStep(states[n], labels[n]) == states[n + 1];
      RunPasses(states[..n + 1], labels[..n]);
    }
  }

  const FIRST_PLAN := NewPlan(1, 9, 11)
  const SECOND_PLAN := NewPlan(2, 9, 12)

  function Racing(plans: Plans, first: Stage, second: Stage): PlanSystem {
    PlanSystem(plans,
               map[1 := Admission(FIRST_PLAN, first, [], 0, if first == Retiring then Some(0) else None),
                   2 := Admission(SECOND_PLAN, second, [], 0, if second == Retiring then Some(1) else None)],
               {})
  }

  const RACE_RUN := [Evaluate(1, 1, 9, 11), Evaluate(2, 2, 9, 12), CheckDuplicate(1), CheckDuplicate(2),
                    ReadActives(1, 1), ReadActives(2, 1), InsertPlan(1), InsertPlan(2)]

  const RACE_STATES :=
    [NO_PLANS,
     PlanSystem([], map[1 := Admission(FIRST_PLAN, Checking, [], 0, None)], {}),
     Racing([], Checking, Checking), Racing([], Reading, Checking), Racing([], Reading, Reading),
     Racing([], Inserting, Reading), Racing([], Inserting, Inserting),
     Racing([FIRST_PLAN], Retiring, Inserting),
     Racing([FIRST_PLAN, SECOND_PLAN], Retiring, Retiring)]

  lemma BothAreRead()
    ensures forall n | 0 <= n < 6 :: PlanStep(RACE_STATES[n], RACE_RUN[n]) == RACE_STATES[n + 1]
  {
  }

  lemma BothAreInserted()
    ensures forall n | 6 <= n < 8 :: PlanStep(RACE_STATES[n], RACE_RUN[n]) == RACE_STATES[n + 1]
  {
  }

  lemma RaceEnds()
    ensures PlanRun(NO_PLANS, RACE_RUN) == Racing([FIRST_PLAN, SECOND_PLAN], Retiring, Retiring)
  {
    hide PlanStep, PlanRun;
    BothAreRead();
    BothAreInserted();
    RunPasses(RACE_STATES, RACE_RUN);
  }

  lemma TwoActive(first: PlanRow, second: PlanRow)
    requires first.instrument == second.instrument && Active(first) && Active(second)
    ensures ActiveCount([first, second], first.instrument) == 2
  {
    var t := [first, second];
    assert t[..1] == [first] && t[..1][..0] == [];
    assert ActiveCount([first], first.instrument) == 1;
  }

  /**
    The per-instrument cap is read before the insert, and evaluations of one cycle run
    concurrently: two candidates of instrument 9 pass a cap of one and both plans stay active.
   */
  lemma ConcurrentAdmissionsExceedTheCap()
    ensures forall n | 0 <= n < |RACE_RUN| && RACE_RUN[n].ReadActives? :: RACE_RUN[n].cap == 1
    ensures ActiveCount(PlanRun(NO_PLANS, RACE_RUN).plans, 9) == 2
  {
    RaceEnds();
    TwoActive(FIRST_PLAN, SECOND_PLAN);
  }

  const NEW_VERSION := NewPlan(1, 9, 12)

  /** The first plan is in and the admission of its replacement has come to the given stage. */
  function Replacing(plans: Plans, stage: Stage, read: seq<nat>, plan: Option<nat>): PlanSystem {
    PlanSystem(plans,
               map[1 := Admission(FIRST_PLAN, Retiring, [], 0, Some(0)),
                   2 := Admission(NEW_VERSION, stage, read, 0, plan)],
               {})
  }

  const INTERRUPTED_RUN := [Evaluate(1, 1, 9, 11), CheckDuplicate(1), ReadActives(1, 1), InsertPlan(1),
                           Evaluate(2, 1, 9, 12), CheckDuplicate(2), ReadActives(2, 1), InsertPlan(2), Stop(2)]

  function Admitting(stage: Stage): PlanSystem {
    PlanSystem(if stage == Retiring then [FIRST_PLAN] else [],
               map[1 := Admission(FIRST_PLAN, stage, [], 0, if stage == Retiring then Some(0) else None)], {})
  }

  const INTERRUPTED_STATES :=
    [NO_PLANS, Admitting(Checking), Admitting(Reading), Admitting(Inserting), Admitting(Retiring),
     Replacing([FIRST_PLAN], Checking, [], None), Replacing([FIRST_PLAN], Reading, [], None),
     Replacing([FIRST_PLAN], Inserting, [0], None),
     Replacing([FIRST_PLAN, NEW_VERSION], Retiring, [0], Some(1)),
     Replacing([FIRST_PLAN, NEW_VERSION], Stopped, [0], Some(1))]

  lemma TheFirstIsAdmitted()
    ensures forall n | 0 <= n < 4 :: PlanStep(INTERRUPTED_STATES[n], INTERRUPTED_RUN[n]) == INTERRUPTED_STATES[n + 1]
  {
  }

  lemma TheFirstIsSeen(t: Plans)
    requires t == [FIRST_PLAN]
    ensures Predecessors(t, NEW_VERSION) == [0] && OtherCount(t, 9, 1) == 0
  {
    var own := Replaced(NEW_VERSION);
    assert t[..|t| - 1] == [] && own(t[0]);
    assert Select(t, own) == Select([], own) + [0];
    assert OtherCount(t, 9, 1) == OtherCount([], 9, 1);
  }

  lemma TheReplacementIsRead()
    ensures forall n | 4 <= n < 7 :: PlanStep(INTERRUPTED_STATES[n], INTERRUPTED_RUN[n]) == INTERRUPTED_STATES[n + 1]
  {
    TheFirstIsSeen([FIRST_PLAN]);
  }

  lemma TheReplacementStops()
    ensures forall n | 7 <= n < 9 :: PlanStep(INTERRUPTED_STATES[n], INTERRUPTED_RUN[n]) == INTERRUPTED_STATES[n + 1]
  {
  }

  lemma InterruptedEnds()
    ensures PlanRun(NO_PLANS, INTERRUPTED_RUN)
         == Replacing([FIRST_PLAN, NEW_VERSION], Stopped, [0], Some(1))
  {
    hide PlanStep, PlanRun;
    TheFirstIsAdmitted();
    TheReplacementIsRead();
    TheReplacementStops();
    RunPasses(INTERRUPTED_STATES, INTERRUPTED_RUN);
  }

  /**
    A replacement that fails after its insert leaves both plans of its candidate active: no other
    candidate takes part, every read sees a cap of one, and the instrument has two.
   */
  lemma InterruptedReplacementExceedsTheCap()
    ensures forall n | 0 <= n < |INTERRUPTED_RUN| && INTERRUPTED_RUN[n].ReadActives? :: INTERRUPTED_RUN[n].cap == 1
    ensures var t := PlanRun(NO_PLANS, INTERRUPTED_RUN).plans;
            ActiveCount(t, 9) == 2 && forall i | 0 <= i < |t| :: t[i].candidate == 1
  {
    InterruptedEnds();
    TwoActive(FIRST_PLAN, NEW_VERSION);
  }
}
