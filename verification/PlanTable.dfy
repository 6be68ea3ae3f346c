/** The eligibility-plan table and the commits made on it (app/repositories/risk_plan_repository.py). */
module PlanTable {
  import opened Options

  type CandidateId = nat
  type InstrumentPk = nat
  type PlanKey = nat

  datatype PlanStatus =
    CandidateReceived | Evaluating | Eligible | Ineligible | PlanExpired | PlanSuperseded | PlanDataInvalid | PlanPaused

  datatype PlanRow = PlanRow(
    candidate: CandidateId,
    instrument: InstrumentPk,
    dedupeKey: PlanKey,
    status: PlanStatus,
    activeKey: Option<PlanKey>)

  /** Rows in the order of their inserts; the row number stands for the plan's id. */
  type Plans = seq<PlanRow>

  predicate Active(row: PlanRow) {
    row.status == Eligible
  }

  predicate KeyTaken(t: Plans, key: PlanKey) {
    exists i | 0 <= i < |t| :: t[i].activeKey == Some(key)
  }

  function NewPlan(candidate: CandidateId, instrument: InstrumentPk, key: PlanKey): PlanRow {
    PlanRow(candidate, instrument, key, Eligible, Some(key))
  }

  /** insert_new: rejected when another active plan carries the same key. */
  function Inserted(t: Plans, row: PlanRow): Plans {
    if KeyTaken(t, row.dedupeKey) then t else t + [row]
  }

  /** transition: a state outside ELIGIBLE gives the dedupe slot back. */
  function Transitioned(t: Plans, i: nat, status: PlanStatus): Plans {
    if i >= |t| || t[i].status == status then t
    else t[i := t[i].(status := status, activeKey := if status == Eligible then t[i].activeKey else None)]
  }

  predicate HasActivePlan(t: Plans, c: CandidateId) {
    exists i | 0 <= i < |t| :: t[i].candidate == c && Active(t[i])
  }

  /** Row i is the plan of its candidate that was inserted last. */
  predicate Newest(t: Plans, i: nat) {
    i < |t| && forall j | i < j < |t| :: t[j].candidate != t[i].candidate
  }

  /** active_key is set exactly while the plan is active, and no two active plans share it. */
  predicate PlanKeysInv(t: Plans) {
    && (forall i | 0 <= i < |t| :: t[i].activeKey == if Active(t[i]) then Some(t[i].dedupeKey) else None)
    && forall i, j | 0 <= i < j < |t| && Active(t[i]) && Active(t[j]) :: t[i].dedupeKey != t[j].dedupeKey
  }

  /** How many active plans an instrument has. */
  function ActiveCount(t: Plans, instrument: InstrumentPk): nat {
    if t == [] then 0
    else ActiveCount(t[..|t| - 1], instrument)
         + if t[|t| - 1].instrument == instrument && Active(t[|t| - 1]) then 1 else 0
  }

  /** How many active plans of other candidates an instrument has. */
  function OtherCount(t: Plans, instrument: InstrumentPk, c: CandidateId): nat {
    if t == [] then 0
    else OtherCount(t[..|t| - 1], instrument, c)
         + if t[|t| - 1].instrument == instrument && Active(t[|t| - 1]) && t[|t| - 1].candidate != c then 1 else 0
  }

  predicate OtherAt(t: Plans, i: nat, instrument: InstrumentPk, c: CandidateId) {
    i < |t| && Active(t[i]) && t[i].instrument == instrument && t[i].candidate != c
  }

  lemma {:induction false} CountAfterTransition(t: Plans, i: nat, status: PlanStatus, instrument: InstrumentPk,
                                                c: CandidateId)
    requires status != Eligible
    ensures OtherCount(Transitioned(t, i, status), instrument, c) + (if OtherAt(t, i, instrument, c) then 1 else 0)
         == OtherCount(t, instrument, c)
  {
    if i < |t| {
      var t' := Transitioned(t, i, status);
      var front := t[..|t| - 1];
      if i < |front| {
        CountAfterTransition(front, i, status, instrument, c);
        assert t'[..|t'| - 1] == Transitioned(front, i, status);
      } else {
        assert t'[..|t'| - 1] == front;
      }
    }
  }

  /** Row i is an active plan of the candidate on the instrument. */
  predicate OwnAt(t: Plans, i: nat, instrument: InstrumentPk, c: CandidateId) {
    i < |t| && Active(t[i]) && t[i].instrument == instrument && t[i].candidate == c
  }

  /** How many there are. */
  function OwnCount(t: Plans, instrument: InstrumentPk, c: CandidateId): nat {
    if t == [] then 0
    else OwnCount(t[..|t| - 1], instrument, c) + if OwnAt(t, |t| - 1, instrument, c) then 1 else 0
  }

  /** An instrument's active plans are the candidate's own and those of others. */
  lemma {:induction false} ActiveAreOwnAndOthers(t: Plans, instrument: InstrumentPk, c: CandidateId)
    ensures ActiveCount(t, instrument) == OtherCount(t, instrument, c) + OwnCount(t, instrument, c)
  {
    if t != [] {
      ActiveAreOwnAndOthers(t[..|t| - 1], instrument, c);
    }
  }

  lemma {:induction false} OwnCountSplits(t: Plans, n: nat, instrument: InstrumentPk, c: CandidateId)
    requires n <= |t|
    ensures OwnCount(t, instrument, c) == OwnCount(t[..n], instrument, c) + OwnCount(t[n..], instrument, c)
    decreases |t|
  {
    if n == |t| {
      assert t[..n] == t;
    } else {
      var front := t[..|t| - 1];
      OwnCountSplits(front, n, instrument, c);
      assert front[..n] == t[..n] && t[n..][..|t[n..]| - 1] == front[n..];
    }
  }

  lemma {:induction false} OwnCountOfOne(t: Plans, instrument: InstrumentPk, c: CandidateId, i: nat)
    requires forall j | 0 <= j < |t| && OwnAt(t, j, instrument, c) :: j == i
    ensures OwnCount(t, instrument, c) == if OwnAt(t, i, instrument, c) then 1 else 0
  {
    if t != [] {
      var front := t[..|t| - 1];
      assert forall j | 0 <= j < |front| && OwnAt(front, j, instrument, c) :: OwnAt(t, j, instrument, c);
      OwnCountOfOne(front, instrument, c, i);
    }
  }
}
