/** Who holds a signal's lease, over every run of the lifecycle protocol. */
module Leases {
  import opened Options
  import opened LifecycleTable
  import opened LifecycleProtocol
  import opened LifecycleSafety

  /** Label l is a successful claim of this signal. */
  predicate Takes(s: System, l: Label, id: SignalId) {
    && l.Claim? && InPhase(s, l.w, {Started})
    && s.workers[l.w].id == id
    && Claimable(s.table, id, s.workers[l.w].owner, s.workers[l.w].now)
  }

  /** Label l is a release of this signal by a worker of this owner. */
  predicate Frees(s: System, l: Label, id: SignalId, owner: Owner) {
    && l.Release? && InPhase(s, l.w, {Closing})
    && s.workers[l.w].id == id && s.workers[l.w].owner == owner
  }

  predicate Leased(t: Table, id: SignalId, owner: Owner, deadline: Instant) {
    && id in t.rows
    && t.rows[id].leaseOwner == Some(owner)
    && t.rows[id].leaseExpires.Some? && t.rows[id].leaseExpires.value >= deadline
  }

  /** The owner behind a successful claim, the time it claims with, and the deadline it sets. */
  function ClaimOwner(s: System, l: Label): Owner requires l.Claim? && l.w in s.workers { s.workers[l.w].owner }
  function ClaimTime(s: System, l: Label): Instant requires l.Claim? && l.w in s.workers { s.workers[l.w].now }
  function ClaimDeadline(s: System, l: Label): Instant
    requires l.Claim? && l.w in s.workers
  {
    s.workers[l.w].now + s.workers[l.w].leaseSeconds
  }

  function At(s: System, labels: seq<Label>, n: nat): System
    requires n <= |labels|
  {
    Run(s, labels[..n])
  }

  /** The owner neither releases the signal nor claims it again with an earlier deadline. */
  predicate OwnerHolds(s: System, labels: seq<Label>, id: SignalId, owner: Owner, deadline: Instant) {
    forall n | 0 <= n < |labels| ::
      && !Frees(At(s, labels, n), labels[n], id, owner)
      && (Takes(At(s, labels, n), labels[n], id) && ClaimOwner(At(s, labels, n), labels[n]) == owner ==>
            ClaimDeadline(At(s, labels, n), labels[n]) >= deadline)
  }

  /** Step n of the run is another owner's successful claim. */
  predicate Takeover(s: System, labels: seq<Label>, n: nat, id: SignalId, owner: Owner)
    requires n < |labels|
  {
    Takes(At(s, labels, n), labels[n], id) && ClaimOwner(At(s, labels, n), labels[n]) != owner
  }

  /** The holder keeps its lease through any step that is not its release, a re-claim or a takeover. */
  lemma StepKeepsLease(s: System, l: Label, id: SignalId, owner: Owner, deadline: Instant)
    requires Leased(s.table, id, owner, deadline)
    requires !Frees(s, l, id, owner)
    requires Takes(s, l, id) ==> ClaimOwner(s, l) == owner && ClaimDeadline(s, l) >= deadline
    ensures Leased(Step(s, l).table, id, owner, deadline)
  {
  }

  lemma {:induction false} LeaseLastsUntilTakeover(s: System, labels: seq<Label>, n: nat, id: SignalId, owner: Owner,
                                                   deadline: Instant)
    requires Leased(s.table, id, owner, deadline) && n <= |labels|
    requires OwnerHolds(s, labels, id, owner, deadline)
    requires forall m | 0 <= m < n :: !Takeover(s, labels, m, id, owner)
    ensures Leased(At(s, labels, n).table, id, owner, deadline)
  {
    if n == 0 {
      RunOfNothing(s, labels);
    } else {
      LeaseLastsUntilTakeover(s, labels, n - 1, id, owner, deadline);
      RunUnfolds(s, labels, n - 1);
      assert !Takeover(s, labels, n - 1, id, owner);
      StepKeepsLease(At(s, labels, n - 1), labels[n - 1], id, owner, deadline);
    }
  }

  lemma RunOfNothing(s: System, labels: seq<Label>)
    ensures At(s, labels, 0) == s
  {
  }

  /**
    Without any assumption on clocks: the first owner that takes the signal over claims at a time
    past the deadline, as long as the holder has not released it.
   */
  lemma FirstTakeoverIsLate(s: System, labels: seq<Label>, n: nat, id: SignalId, owner: Owner, deadline: Instant)
    requires Leased(s.table, id, owner, deadline) && n < |labels|
    requires OwnerHolds(s, labels, id, owner, deadline)
    requires Takeover(s, labels, n, id, owner)
    requires forall m | 0 <= m < n :: !Takeover(s, labels, m, id, owner)
    ensures ClaimTime(At(s, labels, n), labels[n]) > deadline
  {
    LeaseLastsUntilTakeover(s, labels, n, id, owner, deadline);
  }

  /**
    Real time along a run: it does not run backwards, and every claim is made with a time that
    was read at or before the claim.  The start time of a whole monitoring cycle is such a time.
   */
  predicate Timed(s: System, labels: seq<Label>, id: SignalId, clock: seq<Instant>) {
    && |clock| == |labels|
    && (forall m, n | 0 <= m <= n < |clock| :: clock[m] <= clock[n])
    && forall n | 0 <= n < |labels| && Takes(At(s, labels, n), labels[n], id) ::
         ClaimTime(At(s, labels, n), labels[n]) <= clock[n]
  }

  /** While its holder does not release it, a lease is not taken over before its deadline has passed. */
  lemma {:induction false} NoEarlyTakeover(s: System, labels: seq<Label>, clock: seq<Instant>, n: nat,
                                           id: SignalId, owner: Owner, deadline: Instant)
    requires Leased(s.table, id, owner, deadline) && n < |labels|
    requires OwnerHolds(s, labels, id, owner, deadline) && Timed(s, labels, id, clock)
    requires Takeover(s, labels, n, id, owner)
    ensures clock[n] > deadline
  {
    if m: nat :| m < n && Takeover(s, labels, m, id, owner) {
      NoEarlyTakeover(s, labels, clock, m, id, owner, deadline);
    } else {
      FirstTakeoverIsLate(s, labels, n, id, owner, deadline);
    }
  }

  lemma ClaimLeases(s: System, l: Label, id: SignalId)
    requires Takes(s, l, id)
    ensures Leased(Step(s, l).table, id, ClaimOwner(s, l), ClaimDeadline(s, l))
  {
  }

  lemma {:induction false} RunsCompose(s: System, labels: seq<Label>, m: nat, n: nat)
    requires m <= n <= |labels|
    ensures At(At(s, labels, m), labels[m..], n - m) == At(s, labels, n)
    decreases n
  {
    if n > m {
      RunsCompose(s, labels, m, n - 1);
      RunUnfolds(s, labels, n - 1);
      RunUnfolds(At(s, labels, m), labels[m..], n - 1 - m);
    } else {
      assert labels[m..][..0] == [];
    }
  }

  /** After step m the owner neither releases the signal nor claims it again with an earlier deadline. */
  predicate HoldsFrom(labels: seq<Label>, m: nat, id: SignalId, owner: Owner, deadline: Instant)
    requires m <= |labels|
  {
    forall n | m <= n < |labels| ::
      && !Frees(At(EMPTY_SYSTEM, labels, n), labels[n], id, owner)
      && (Takes(At(EMPTY_SYSTEM, labels, n), labels[n], id)
          && ClaimOwner(At(EMPTY_SYSTEM, labels, n), labels[n]) == owner ==>
            ClaimDeadline(At(EMPTY_SYSTEM, labels, n), labels[n]) >= deadline)
  }

  /**
    Lease exclusion in real time, over every run: after a claim that sets a deadline, and as long
    as the claiming owner does not give the lease up, no other owner's claim succeeds before the
    deadline has passed.  Claim times themselves may run backwards.
   */
  lemma LeaseExclusion(labels: seq<Label>, clock: seq<Instant>, m: nat, n: nat, id: SignalId)
    requires m < n < |labels| && Timed(EMPTY_SYSTEM, labels, id, clock)
    requires Takes(At(EMPTY_SYSTEM, labels, m), labels[m], id)
    requires var claim := At(EMPTY_SYSTEM, labels, m);
             var owner, deadline := ClaimOwner(claim, labels[m]), ClaimDeadline(claim, labels[m]);
             HoldsFrom(labels, m + 1, id, owner, deadline) && Takeover(EMPTY_SYSTEM, labels, n, id, owner)
    ensures clock[n] > ClaimDeadline(At(EMPTY_SYSTEM, labels, m), labels[m])
  {
    var claim := At(EMPTY_SYSTEM, labels, m);
    var owner, deadline := ClaimOwner(claim, labels[m]), ClaimDeadline(claim, labels[m]);
    RunUnfolds(EMPTY_SYSTEM, labels, m);
    ClaimLeases(claim, labels[m], id);
    AfterClaim(labels, clock, m + 1, n, id, owner, deadline);
    hide At, Takes, Timed, OwnerHolds, ClaimOwner, ClaimDeadline;
    NoEarlyTakeover(At(EMPTY_SYSTEM, labels, m + 1), labels[m + 1..], clock[m + 1..], n - m - 1, id, owner, deadline);
  }

  /** The rest of a run, seen from its own start. */
  lemma AfterClaim(labels: seq<Label>, clock: seq<Instant>, m: nat, n: nat, id: SignalId, owner: Owner,
                   deadline: Instant)
    requires m <= n < |labels| && Timed(EMPTY_SYSTEM, labels, id, clock)
    requires HoldsFrom(labels, m, id, owner, deadline) && Takeover(EMPTY_SYSTEM, labels, n, id, owner)
    ensures var s, rest := At(EMPTY_SYSTEM, labels, m), labels[m..];
            && Timed(s, rest, id, clock[m..]) && OwnerHolds(s, rest, id, owner, deadline)
            && Takeover(s, rest, n - m, id, owner)
  {
    RestIsTimed(labels, clock, m, id);
    RestIsHeld(labels, m, id, owner, deadline);
    RunsCompose(EMPTY_SYSTEM, labels, m, n);
    hide At, Takes, ClaimOwner, Timed, OwnerHolds, HoldsFrom;
  }

  lemma RestIsTimed(labels: seq<Label>, clock: seq<Instant>, m: nat, id: SignalId)
    requires m <= |labels| && Timed(EMPTY_SYSTEM, labels, id, clock)
    ensures Timed(At(EMPTY_SYSTEM, labels, m), labels[m..], id, clock[m..])
  {
    hide At, Claimable;
    var s, rest := At(EMPTY_SYSTEM, labels, m), labels[m..];
    forall i | 0 <= i < |rest| && Takes(At(s, rest, i), rest[i], id)
      ensures ClaimTime(At(s, rest, i), rest[i]) <= clock[m..][i]
    {
      RunsCompose(EMPTY_SYSTEM, labels, m, m + i);
      assert Takes(At(EMPTY_SYSTEM, labels, m + i), labels[m + i], id);
    }
  }

  lemma RestIsHeld(labels: seq<Label>, m: nat, id: SignalId, owner: Owner, deadline: Instant)
    requires m <= |labels| && HoldsFrom(labels, m, id, owner, deadline)
    ensures OwnerHolds(At(EMPTY_SYSTEM, labels, m), labels[m..], id, owner, deadline)
  {
    hide At, Claimable;
    var s, rest := At(EMPTY_SYSTEM, labels, m), labels[m..];
    forall i | 0 <= i < |rest|
      ensures !Frees(At(s, rest, i), rest[i], id, owner)
      ensures Takes(At(s, rest, i), rest[i], id) && ClaimOwner(At(s, rest, i), rest[i]) == owner ==>
                ClaimDeadline(At(s, rest, i), rest[i]) >= deadline
    {
      RunsCompose(EMPTY_SYSTEM, labels, m, m + i);
      assert !Frees(At(EMPTY_SYSTEM, labels, m + i), labels[m + i], id, owner);
    }
  }

  /**
    A lease changes hands only by the holder's own release or by a claim after it expired; the
    late release of a worker that lost the lease leaves the new holder's row as it is.
   */
  lemma HolderLosesLeaseOnlyBy(s: System, l: Label, id: SignalId, holder: Owner)
    requires id in s.table.rows && s.table.rows[id].leaseOwner == Some(holder)
    ensures id in Step(s, l).table.rows
    ensures Step(s, l).table.rows[id].leaseOwner != Some(holder) ==>
              || Frees(s, l, id, holder)
              || (&& Takes(s, l, id) && s.table.rows[id].leaseExpires.Some?
                  && ClaimTime(s, l) > s.table.rows[id].leaseExpires.value)
    ensures l.Release? && InPhase(s, l.w, {Closing}) && s.workers[l.w].owner != holder ==>
              Step(s, l).table.rows[id] == s.table.rows[id]
  {
  }

  /** The row's lease is this owner's or nobody's. */
  predicate FreeFor(t: Table, id: SignalId, owner: Owner) {
    id in t.rows && t.rows[id].leaseOwner in {None, Some(owner)}
  }

  lemma StepStaysFree(s: System, l: Label, id: SignalId, owner: Owner)
    requires FreeFor(s.table, id, owner)
    requires Takes(s, l, id) ==> ClaimOwner(s, l) == owner
    ensures FreeFor(Step(s, l).table, id, owner)
  {
  }

  lemma {:induction false} FreeUntilTakeover(s: System, labels: seq<Label>, n: nat, id: SignalId, owner: Owner)
    requires FreeFor(s.table, id, owner) && n <= |labels|
    requires forall m | 0 <= m < n :: !Takeover(s, labels, m, id, owner)
    ensures FreeFor(At(s, labels, n).table, id, owner)
  {
    hide Run, Step, FreeFor, Takes;
    if n == 0 {
      RunOfNothing(s, labels);
    } else {
      FreeUntilTakeover(s, labels, n - 1, id, owner);
      RunUnfolds(s, labels, n - 1);
      assert !Takeover(s, labels, n - 1, id, owner);
      StepStaysFree(At(s, labels, n - 1), labels[n - 1], id, owner);
    }
  }

  /**
    A lease that a call of its owner left behind does not shut that owner out: until someone else
    takes it over, the owner's next claim succeeds at any time, expired or not, and the release of
    that call leaves the row free.
   */
  lemma OwnersNextCallGivesItBack(s: System, labels: seq<Label>, n: nat, m: nat, w: WorkerId, id: SignalId,
                                  owner: Owner)
    requires HoldsLease(s.table, id, owner) && n < m < |labels|
    requires labels[n] == Claim(w) && InPhase(At(s, labels, n), w, {Started})
    requires At(s, labels, n).workers[w].id == id && At(s, labels, n).workers[w].owner == owner
    requires Frees(At(s, labels, m), labels[m], id, owner)
    requires forall k | 0 <= k < m :: !Takeover(s, labels, k, id, owner)
    ensures Takes(At(s, labels, n), labels[n], id) && ClaimOwner(At(s, labels, n), labels[n]) == owner
    ensures HoldsLease(At(s, labels, n + 1).table, id, owner)
    ensures var t := At(s, labels, m + 1).table;
            id in t.rows && t.rows[id].leaseOwner.None?
  {
    FreeUntilTakeover(s, labels, n, id, owner);
    FreeUntilTakeover(s, labels, m, id, owner);
    RunUnfolds(s, labels, n);
    RunUnfolds(s, labels, m);
  }
}
