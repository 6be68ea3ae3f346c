/**
  The two tables behind the signal lifecycle, and the effect of every statement that is committed
  on them (app/repositories/signal_lifecycle_repository.py).  One function is one commit.
 */
module LifecycleTable {
  import opened Options
  import opened SignalStateMachine

  type SignalId = nat
  type Owner = nat
  type DedupeKey = nat
  type Instant = real

  /** The columns of signal_lifecycles that the statements read or write. */
  datatype Row = Row(
    state: State,
    version: nat,
    dedupeKey: DedupeKey,
    activeKey: Option<DedupeKey>,
    leaseOwner: Option<Owner>,
    leaseExpires: Option<Instant>,
    entryConfirmedAt: Option<Instant>,
    activeResearchAt: Option<Instant>,
    terminalAt: Option<Instant>)

  /** The fields hashed into the unique idempotency key; the hash is taken to be injective. */
  datatype EventKey = EventKey(signal: SignalId, eventType: EventType, to: State, expected: int)

  datatype Event = Event(
    signal: SignalId,
    eventType: EventType,
    from: Option<State>,
    to: State,
    version: int,
    key: EventKey)

  datatype NewSignal = NewSignal(id: SignalId, dedupeKey: DedupeKey, admissionAt: Instant)

  datatype Table = Table(rows: map<SignalId, Row>, log: seq<Event>)

  const ADMITTED_VERSION: nat := 2

  predicate ActiveKeyFree(t: Table, key: DedupeKey) {
    forall id | id in t.rows :: t.rows[id].activeKey != Some(key)
  }

  predicate InsertAccepted(t: Table, signal: NewSignal) {
    signal.id !in t.rows && ActiveKeyFree(t, signal.dedupeKey)
  }

  function FreshRow(signal: NewSignal): Row {
    Row(WatchingEntry, ADMITTED_VERSION, signal.dedupeKey, Some(signal.dedupeKey), None, None, None, None, None)
  }

  /** First commit of insert_new: the row, unless the primary key or active_key collides. */
  function InsertRow(t: Table, signal: NewSignal): Table {
    if InsertAccepted(t, signal) then t.(rows := t.rows[signal.id := FreshRow(signal)]) else t
  }

  function AdmissionEvent(id: SignalId, eventType: EventType, from: Option<State>, to: State, version: int): Event {
    Event(id, eventType, from, to, version, EventKey(id, eventType, to, version - 1))
  }

  function AdmissionChain(id: SignalId): seq<Event> {
    [AdmissionEvent(id, Created, None, Draft, 0),
     AdmissionEvent(id, Entering(PendingAdmission), Some(Draft), PendingAdmission, 1),
     AdmissionEvent(id, Entering(WatchingEntry), Some(PendingAdmission), WatchingEntry, 2)]
  }

  predicate KeyLogged(t: Table, key: EventKey) {
    exists e | e in t.log :: e.key == key
  }

  /** Second commit of insert_new: all three events, or none when one key already exists. */
  function InsertAdmissionEvents(t: Table, id: SignalId): Table {
    if exists e | e in AdmissionChain(id) :: KeyLogged(t, e.key) then t
    else t.(log := t.log + AdmissionChain(id))
  }

  /** The WHERE clause of the optimistic update. */
  predicate UpdateMatches(t: Table, id: SignalId, expected: nat, from: State) {
    id in t.rows && t.rows[id].version == expected && t.rows[id].state == from
  }

  function Advanced(row: Row, expected: nat, step: TransitionStep, asOf: Instant): Row {
    row.(state := step.to,
         version := expected + 1,
         activeKey := if Terminal(step.to) then None else row.activeKey,
         terminalAt := if Terminal(step.to) then Some(asOf) else row.terminalAt,
         entryConfirmedAt := if step.to == EntryConfirmed then Some(asOf) else row.entryConfirmedAt,
         activeResearchAt := if step.to == ActiveResearch then Some(asOf) else row.activeResearchAt)
  }

  /** First commit of apply_transition: the guarded row update. */
  function UpdateRow(t: Table, id: SignalId, expected: nat, step: TransitionStep, asOf: Instant): Table {
    if UpdateMatches(t, id, expected, step.from)
    then t.(rows := t.rows[id := Advanced(t.rows[id], expected, step, asOf)])
    else t
  }

  function TransitionEvent(id: SignalId, expected: nat, step: TransitionStep): Event {
    Event(id, step.eventType, Some(step.from), step.to, expected + 1,
          EventKey(id, step.eventType, step.to, expected))
  }

  /** Second commit of apply_transition: the event, unless its unique key already exists. */
  function InsertEvent(t: Table, e: Event): Table {
    if KeyLogged(t, e.key) then t else t.(log := t.log + [e])
  }

  /** The WHERE clause of claim; a NULL expiry compares as not true. */
  predicate Claimable(t: Table, id: SignalId, owner: Owner, now: Instant) {
    && id in t.rows
    && var row := t.rows[id];
       || row.leaseOwner.None?
       || (row.leaseExpires.Some? && row.leaseExpires.value < now)
       || row.leaseOwner == Some(owner)
  }

  function ClaimRow(t: Table, id: SignalId, owner: Owner, now: Instant, leaseSeconds: real): Table {
    if Claimable(t, id, owner, now)
    then t.(rows := t.rows[id := t.rows[id].(leaseOwner := Some(owner), leaseExpires := Some(now + leaseSeconds))])
    else t
  }

  predicate HoldsLease(t: Table, id: SignalId, owner: Owner) {
    id in t.rows && t.rows[id].leaseOwner == Some(owner)
  }

  function ReleaseRow(t: Table, id: SignalId, owner: Owner): Table {
    if HoldsLease(t, id, owner)
    then t.(rows := t.rows[id := t.rows[id].(leaseOwner := None, leaseExpires := None)])
    else t
  }

  /** No event is ahead of its row: an event of version v is logged after the row reached v. */
  predicate LogBounded(t: Table) {
    forall e | e in t.log ::
      && e.signal in t.rows && e.key.signal == e.signal
      && e.version == e.key.expected + 1 <= t.rows[e.signal].version
  }

  /**
    What one worker may assume of the commits of all others: rows stay, versions only rise,
    a state changes only together with its version, the log only grows and never runs ahead.
   */
  predicate Rely(t: Table, t': Table) {
    && t.log <= t'.log
    && (LogBounded(t) ==> LogBounded(t'))
    && forall id | id in t.rows ::
         && id in t'.rows
         && t.rows[id].version <= t'.rows[id].version
         && (t.rows[id].version == t'.rows[id].version ==> t.rows[id].state == t'.rows[id].state)
  }

  lemma RelyIsTransitive(a: Table, b: Table, c: Table)
    requires Rely(a, b) && Rely(b, c)
    ensures Rely(a, c)
  {
  }
}
