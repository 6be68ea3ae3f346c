/**
  The repository as an object that updates its tables in place, and the monitor's loop over it.
  Each method performs the commits of the call it models, in order.  A `Fault` says where the
  call raises, and whether the commit it was waiting for took effect all the same; between two
  commits other workers may do whatever `Rely` allows.
 */
module LifecycleRepository {
  import opened Options
  import opened SignalStateMachine
  import opened LifecycleTable
  import opened LifecycleProtocol

  datatype Fault = NoFault | AtRowCommit(effective: bool) | AfterRowCommit | AtEventCommit(effective: bool)

  class Repository {
    var rows: map<SignalId, Row>
    var log: seq<Event>

    function T(): Table
      reads this
    {
      Table(rows, log)
    }

    constructor ()
      ensures T() == Table(map[], [])
    {
      rows, log := map[], [];
    }

    /**
      insert_new: the row decides, the three events follow in a second commit.  `changed` is the
      table right after the first commit and `seen` the one the second commit finds.
     */
    method InsertNew(signal: NewSignal, fault: Fault)
      returns (created: bool, raised: bool, ghost changed: Table, ghost seen: Table)
      modifies this
      ensures changed == if fault == AtRowCommit(false) then old(T()) else InsertRow(old(T()), signal)
      ensures Rely(changed, seen)
      ensures T() == if InsertAccepted(old(T()), signal) && fault in {NoFault, AtEventCommit(true)}
                     then InsertAdmissionEvents(seen, signal.id)
                     else seen
      ensures InsertAccepted(old(T()), signal) <==>
                && signal.id !in old(rows)
                && forall id | id in old(rows) :: old(rows)[id].activeKey != Some(signal.dedupeKey)
      ensures InsertAccepted(old(T()), signal) && fault != AtRowCommit(false) ==>
                && changed.log == old(log)
                && changed.rows == old(rows)[signal.id :=
                     Row(state := WatchingEntry, version := 2, dedupeKey := signal.dedupeKey,
                         activeKey := Some(signal.dedupeKey), leaseOwner := None, leaseExpires := None,
                         entryConfirmedAt := None, activeResearchAt := None, terminalAt := None)]
      ensures created <==> InsertAccepted(old(T()), signal) && fault == NoFault
      ensures raised <==>
                || fault.AtRowCommit?
                || (InsertAccepted(old(T()), signal) && (fault.AfterRowCommit? || fault.AtEventCommit?))
    {
      var accepted := signal.id !in rows && !exists id | id in rows :: rows[id].activeKey == Some(signal.dedupeKey);
      changed, seen := T(), T();
      if fault.AtRowCommit? && !fault.effective {
        return false, true, changed, seen;
      }
      if accepted {
        rows := rows[signal.id := FreshRow(signal)];
      }
      changed, seen := T(), T();
      if fault.AtRowCommit? || !accepted {
        return false, fault.AtRowCommit?, changed, seen;
      }
      OthersCommit(None);
      seen := T();
      if fault.AfterRowCommit? || (fault.AtEventCommit? && !fault.effective) {
        return false, true, changed, seen;
      }
      var chain := AdmissionChain(signal.id);
      if !exists e | e in chain :: exists x | x in log :: x.key == e.key {
        log := log + chain;
      }
      return !fault.AtEventCommit?, fault.AtEventCommit?, changed, seen;
    }

    /**
      Commits of other workers.  The caller knows of them what Rely says, and that nobody else
      logs under the key of a row update this caller has won and not yet logged.
     */
    method OthersCommit(own: Option<EventKey>)
      modifies this
      ensures Rely(old(T()), T())
      ensures own.Some? && !KeyLogged(old(T()), own.value) ==> !KeyLogged(T(), own.value)
    {
      var committed: Table := *;
      if Rely(T(), committed) && (own.None? || !KeyLogged(committed, own.value)) {
        rows, log := committed.rows, committed.log;
      }
    }

    /**
      apply_transition.  `changed` is the table right after the row commit and `seen` the table
      the second commit finds: others may have committed in between.
     */
    method ApplyTransition(id: SignalId, expected: nat, step: TransitionStep, asOf: Instant, fault: Fault)
      returns (outcome: Outcome, ghost changed: Table, ghost seen: Table)
      modifies this
      ensures changed == if fault == AtRowCommit(false) then old(T())
                         else UpdateRow(old(T()), id, expected, step, asOf)
      ensures UpdateMatches(old(T()), id, expected, step.from) <==>
                id in old(rows) && old(rows)[id].version == expected && old(rows)[id].state == step.from
      ensures UpdateMatches(old(T()), id, expected, step.from) && fault != AtRowCommit(false) ==>
                && id in changed.rows && changed.rows == old(rows)[id := changed.rows[id]] && changed.log == old(log)
                && var row, row' := old(rows)[id], changed.rows[id];
                && row'.state == step.to && row'.version == expected + 1
                && row'.activeKey == (if step.to in ENDS then None else row.activeKey)
                && row'.terminalAt == (if step.to in ENDS then Some(asOf) else row.terminalAt)
                && row'.entryConfirmedAt == (if step.to == EntryConfirmed then Some(asOf) else row.entryConfirmedAt)
                && row'.activeResearchAt == (if step.to == ActiveResearch then Some(asOf) else row.activeResearchAt)
                && row'.dedupeKey == row.dedupeKey
                && row'.leaseOwner == row.leaseOwner && row'.leaseExpires == row.leaseExpires
      ensures Rely(changed, seen)
      ensures UpdateMatches(old(T()), id, expected, step.from)
              && !KeyLogged(old(T()), TransitionEvent(id, expected, step).key) ==>
                !KeyLogged(seen, TransitionEvent(id, expected, step).key)
      ensures T() == if UpdateMatches(old(T()), id, expected, step.from) && fault in {NoFault, AtEventCommit(true)}
                     then InsertEvent(seen, TransitionEvent(id, expected, step))
                     else seen
      ensures UpdateMatches(old(T()), id, expected, step.from) && fault in {NoFault, AtEventCommit(true)} ==>
                var key := EventKey(id, step.eventType, step.to, expected);
                log == if KeyLogged(seen, key) then seen.log
                       else seen.log + [Event(signal := id, eventType := step.eventType, from := Some(step.from),
                                              to := step.to, version := expected + 1, key := key)]
      ensures outcome == Applied <==> UpdateMatches(old(T()), id, expected, step.from) && fault == NoFault
      ensures outcome == Failed <==>
                || fault.AtRowCommit? || fault.AfterRowCommit?
                || (UpdateMatches(old(T()), id, expected, step.from) && fault.AtEventCommit?)
      ensures outcome == Conflict ==> id in rows
      ensures outcome == NotFound ==> id !in rows
    {
      var matches := id in rows && rows[id].version == expected && rows[id].state == step.from;
      var e := TransitionEvent(id, expected, step);
      changed, seen := T(), T();
      if fault.AtRowCommit? && !fault.effective {
        return Failed, changed, seen;
      }
      if matches {
        rows := rows[id := Advanced(rows[id], expected, step, asOf)];
      }
      changed, seen := T(), T();
      if fault.AtRowCommit? || fault.AfterRowCommit? {
        return Failed, changed, seen;
      }
      OthersCommit(if matches then Some(e.key) else None);
      seen := T();
      if !matches {
        return if id in rows then Conflict else NotFound, changed, seen;
      }
      if fault.AtEventCommit? && !fault.effective {
        return Failed, changed, seen;
      }
      if !exists x | x in log :: x.key == e.key {
        log := log + [e];
      }
      return if fault.AtEventCommit? then Failed else Applied, changed, seen;
    }

    method Claim(id: SignalId, owner: Owner, now: Instant, leaseSeconds: real) returns (claimed: bool)
      modifies this
      ensures claimed <==> Claimable(old(T()), id, owner, now)
      ensures claimed <==>
                && id in old(rows)
                && (old(rows)[id].leaseOwner in {None, Some(owner)}
                    || (old(rows)[id].leaseExpires.Some? && old(rows)[id].leaseExpires.value < now))
      ensures T() == ClaimRow(old(T()), id, owner, now, leaseSeconds)
      ensures log == old(log)
      ensures rows == if !claimed then old(rows)
                      else old(rows)[id := old(rows)[id].(leaseOwner := Some(owner),
                                                          leaseExpires := Some(now + leaseSeconds))]
    {
      claimed := id in rows
              && (|| rows[id].leaseOwner.None?
                  || (rows[id].leaseExpires.Some? && rows[id].leaseExpires.value < now)
                  || rows[id].leaseOwner == Some(owner));
      if claimed {
        rows := rows[id := rows[id].(leaseOwner := Some(owner), leaseExpires := Some(now + leaseSeconds))];
      }
    }

    method Release(id: SignalId, owner: Owner)
      modifies this
      ensures T() == ReleaseRow(old(T()), id, owner)
      ensures log == old(log)
      ensures rows == if id in old(rows) && old(rows)[id].leaseOwner == Some(owner)
                      then old(rows)[id := old(rows)[id].(leaseOwner := None, leaseExpires := None)]
                      else old(rows)
    {
      if id in rows && rows[id].leaseOwner == Some(owner) {
        rows := rows[id := rows[id].(leaseOwner := None, leaseExpires := None)];
      }
    }
  }
}
