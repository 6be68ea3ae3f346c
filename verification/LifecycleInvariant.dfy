/** The invariant of the lifecycle protocol and the proof that every label keeps it. */
module LifecycleInvariant {
  import opened Options
  import opened SignalStateMachine
  import opened LifecycleTable
  import opened LifecycleProtocol

  // ------------------------------------------------------------------ rows

  function StateAfter(wins: seq<Win>, k: nat): State
    requires k <= |wins|
  {
    if k == 0 then WatchingEntry else wins[k - 1].step.to
  }

  /** The won updates form one chain of listed transitions that ends in the row's state. */
  predicate RowInv(row: Row, wins: seq<Win>) {
    && row.version == ADMITTED_VERSION + |wins|
    && row.state == StateAfter(wins, |wins|)
    && forall k | 0 <= k < |wins| ::
         && wins[k].step.from == StateAfter(wins, k)
         && CanTransition(wins[k].step.from, wins[k].step.to)
  }

  predicate RowsInv(rows: map<SignalId, Row>, wins: map<SignalId, seq<Win>>) {
    && wins.Keys == rows.Keys
    && forall id | id in rows :: RowInv(rows[id], wins[id])
  }

  /** active_key is the dedupe key exactly while the signal is live. */
  predicate KeyInv(row: Row) {
    && row.activeKey == (if Terminal(row.state) then None else Some(row.dedupeKey))
    && (row.terminalAt.Some? <==> Terminal(row.state))
  }

  predicate SameActiveKey(rows: map<SignalId, Row>, a: SignalId, b: SignalId)
    requires a in rows && b in rows
  {
    rows[a].activeKey.Some? && rows[a].activeKey == rows[b].activeKey
  }

  predicate KeysInv(rows: map<SignalId, Row>) {
    && (forall id | id in rows :: KeyInv(rows[id]))
    && forall a, b | a in rows && b in rows && SameActiveKey(rows, a, b) :: a == b
  }

  // ------------------------------------------------------------------ event log

  predicate EventInv(wins: map<SignalId, seq<Win>>, e: Event) {
    && e.signal in wins
    && if e.version <= ADMITTED_VERSION then e in AdmissionChain(e.signal)
       else var k := e.version - ADMITTED_VERSION - 1;
            k < |wins[e.signal]|
            && e == TransitionEvent(e.signal, ADMITTED_VERSION + k, wins[e.signal][k].step)
  }

  predicate DistinctKeys(log: seq<Event>) {
    forall i, j | 0 <= i < j < |log| :: log[i].key != log[j].key
  }

  predicate LogInv(log: seq<Event>, wins: map<SignalId, seq<Win>>) {
    && (forall e | e in log :: EventInv(wins, e))
    && DistinctKeys(log)
  }

  // ------------------------------------------------------------------ workers

  /** Step j of worker w has won the row update on version base + j. */
  predicate StepWon(wins: map<SignalId, seq<Win>>, w: WorkerId, k: Worker, j: nat) {
    && j < |k.steps| && k.id in wins && k.base >= ADMITTED_VERSION
    && k.base - ADMITTED_VERSION + j < |wins[k.id]|
    && wins[k.id][k.base - ADMITTED_VERSION + j] == Win(w, j, k.steps[j])
  }

  predicate StepLogged(log: seq<Event>, k: Worker, j: nat) {
    j < |k.steps| && TransitionEvent(k.id, k.base + j, k.steps[j]) in log
  }

  predicate LoopInv(k: Worker) {
    && k.applied <= |k.steps|
    && (k.phase in {Started, Ready, RowWon, EventLogged, RowMissed} ==> k.last in {None, Some(Applied)})
    && k.conflicts == (if k.last == Some(Conflict) then 1 else 0)
  }

  predicate WorkerInv(wins: map<SignalId, seq<Win>>, log: seq<Event>, w: WorkerId, k: Worker) {
    && k.id in wins
    && ADMITTED_VERSION <= k.base <= ADMITTED_VERSION + |wins[k.id]|
    && LoopInv(k)
    && (forall j | 0 <= j < |k.steps| :: CanTransition(k.steps[j].from, k.steps[j].to))
    && (forall j | 0 <= j < k.applied :: StepWon(wins, w, k, j) && StepLogged(log, k, j))
    && (k.phase in {RowWon, EventLogged} ==> StepWon(wins, w, k, k.applied))
    && (k.phase == EventLogged ==> StepLogged(log, k, k.applied))
  }

  predicate WorkersInv(workers: map<WorkerId, Worker>, wins: map<SignalId, seq<Win>>, log: seq<Event>) {
    forall w | w in workers :: WorkerInv(wins, log, w, workers[w])
  }

  /** The call ended early: its process died, or an error came back as FAILED. */
  predicate Interrupted(k: Worker) {
    k.phase == Dead || k.last == Some(Failed)
  }

  predicate WinInv(workers: map<WorkerId, Worker>, id: SignalId, n: nat, win: Win) {
    && win.worker in workers
    && var k := workers[win.worker];
       && k.id == id
       && n + ADMITTED_VERSION == k.base + win.index
       && win.index <= k.applied
       && win.index < |k.steps|
       && win.step == k.steps[win.index]
       && (win.index == k.applied ==> k.phase in {RowWon, EventLogged} || Interrupted(k))
  }

  predicate WinsInv(workers: map<WorkerId, Worker>, wins: map<SignalId, seq<Win>>) {
    forall id, n | id in wins && 0 <= n < |wins[id]| :: WinInv(workers, id, n, wins[id][n])
  }

  predicate Inv(s: System) {
    && RowsInv(s.table.rows, s.wins)
    && KeysInv(s.table.rows)
    && LogInv(s.table.log, s.wins)
    && WorkersInv(s.workers, s.wins, s.table.log)
    && WinsInv(s.workers, s.wins)
    && s.admitting <= s.wins.Keys
  }

  // ------------------------------------------------------------------ frames

  predicate Extends(wins: map<SignalId, seq<Win>>, wins': map<SignalId, seq<Win>>) {
    forall id | id in wins :: id in wins' && wins[id] <= wins'[id]
  }

  lemma LogFramed(log: seq<Event>, wins: map<SignalId, seq<Win>>, wins': map<SignalId, seq<Win>>)
    requires LogInv(log, wins) && Extends(wins, wins')
    ensures LogInv(log, wins')
  {
  }

  lemma WorkerFramed(w: WorkerId, k: Worker, wins: map<SignalId, seq<Win>>, wins': map<SignalId, seq<Win>>,
                     log: seq<Event>, log': seq<Event>)
    requires WorkerInv(wins, log, w, k)
    requires Extends(wins, wins') && log <= log'
    ensures WorkerInv(wins', log', w, k)
  {
    assert wins[k.id] <= wins'[k.id];
    forall j: nat
      ensures StepWon(wins, w, k, j) ==> StepWon(wins', w, k, j)
      ensures StepLogged(log, k, j) ==> StepLogged(log', k, j)
    {
    }
  }

  /** Histories grow and one worker moves: the others keep their facts. */
  lemma WorkersFramed(workers: map<WorkerId, Worker>, w: WorkerId, k': Worker,
                      wins: map<SignalId, seq<Win>>, wins': map<SignalId, seq<Win>>,
                      log: seq<Event>, log': seq<Event>)
    requires WorkersInv(workers, wins, log)
    requires Extends(wins, wins') && log <= log'
    requires WorkerInv(wins', log', w, k')
    ensures WorkersInv(workers[w := k'], wins', log')
  {
    var workers' := workers[w := k'];
    forall v | v in workers'
      ensures WorkerInv(wins', log', v, workers'[v])
    {
      if v != w {
        WorkerFramed(v, workers[v], wins, wins', log, log');
      }
    }
  }

  lemma AllWorkersFramed(workers: map<WorkerId, Worker>, wins: map<SignalId, seq<Win>>, wins': map<SignalId, seq<Win>>,
                         log: seq<Event>, log': seq<Event>)
    requires WorkersInv(workers, wins, log)
    requires Extends(wins, wins') && log <= log'
    ensures WorkersInv(workers, wins', log')
  {
    forall v | v in workers
      ensures WorkerInv(wins', log', v, workers[v])
    {
      WorkerFramed(v, workers[v], wins, wins', log, log');
    }
  }

  /** The worker goes on without losing track of a won update that is not yet counted. */
  predicate Continues(k: Worker, k': Worker) {
    && k'.id == k.id && k'.base == k.base && k'.steps == k.steps
    && k.applied <= k'.applied
    && (k'.applied == k.applied && (k.phase in {RowWon, EventLogged} || Interrupted(k)) ==>
          k'.phase in {RowWon, EventLogged} || Interrupted(k'))
  }

  lemma WinsFramed(workers: map<WorkerId, Worker>, w: WorkerId, k': Worker, wins: map<SignalId, seq<Win>>)
    requires WinsInv(workers, wins)
    requires w in workers ==> Continues(workers[w], k')
    ensures WinsInv(workers[w := k'], wins)
  {
  }

  /** Only lease columns differ. */
  predicate SameButLease(rows: map<SignalId, Row>, rows': map<SignalId, Row>) {
    && rows'.Keys == rows.Keys
    && forall id | id in rows ::
         rows'[id].(leaseOwner := rows[id].leaseOwner, leaseExpires := rows[id].leaseExpires) == rows[id]
  }

  lemma RowsFramed(rows: map<SignalId, Row>, rows': map<SignalId, Row>, wins: map<SignalId, seq<Win>>)
    requires RowsInv(rows, wins) && KeysInv(rows) && SameButLease(rows, rows')
    ensures RowsInv(rows', wins) && KeysInv(rows')
  {
    forall id | id in rows'
      ensures RowInv(rows'[id], wins[id]) && KeyInv(rows'[id])
      ensures rows'[id].activeKey == rows[id].activeKey
    {
      assert RowInv(rows[id], wins[id]) && KeyInv(rows[id]);
      assert rows'[id].(leaseOwner := rows[id].leaseOwner, leaseExpires := rows[id].leaseExpires) == rows[id];
    }
    forall a, b | a in rows' && b in rows' && SameActiveKey(rows', a, b)
      ensures a == b
    {
      assert SameActiveKey(rows, a, b);
    }
  }

  // ------------------------------------------------------------------ one label at a time

  /** Moves that commit nothing or only a lease column. */
  lemma QuietMove(s: System, w: WorkerId, k': Worker, rows': map<SignalId, Row>)
    requires Inv(s) && w in s.workers
    requires SameButLease(s.table.rows, rows')
    requires Continues(s.workers[w], k')
    requires WorkerInv(s.wins, s.table.log, w, k')
    ensures Inv(s.(table := s.table.(rows := rows'), workers := s.workers[w := k']))
  {
    RowsFramed(s.table.rows, rows', s.wins);
    WorkersFramed(s.workers, w, k', s.wins, s.wins, s.table.log, s.table.log);
    WinsFramed(s.workers, w, k', s.wins);
  }

  /** A worker that keeps its steps and its count keeps what it has won and logged. */
  lemma SameProgress(wins: map<SignalId, seq<Win>>, log: seq<Event>, w: WorkerId, k: Worker, k': Worker)
    requires WorkerInv(wins, log, w, k)
    requires k'.id == k.id && k'.base == k.base && k'.steps == k.steps && LoopInv(k')
    requires k'.applied == k.applied || (k.phase == EventLogged && k'.applied == k.applied + 1)
    requires k'.phase in {RowWon, EventLogged} ==>
               && StepWon(wins, w, k, k'.applied)
               && (k'.phase == EventLogged ==> StepLogged(log, k, k'.applied))
    ensures WorkerInv(wins, log, w, k')
  {
    forall j: nat
      ensures StepWon(wins, w, k, j) == StepWon(wins, w, k', j)
      ensures StepLogged(log, k, j) == StepLogged(log, k', j)
    {
    }
  }

  /** A move of one worker that leaves both tables and the history as they are. */
  lemma SilentMove(s: System, w: WorkerId, k': Worker)
    requires Inv(s) && w in s.workers
    requires Continues(s.workers[w], k') && LoopInv(k')
    requires var k := s.workers[w];
             || (k'.applied == k.applied && k'.phase !in {RowWon, EventLogged})
             || (k.phase == EventLogged && k'.phase == Ready && k'.applied == k.applied + 1)
    ensures Inv(Put(s, w, k'))
  {
    var k := s.workers[w];
    assert WorkerInv(s.wins, s.table.log, w, k);
    SameProgress(s.wins, s.table.log, w, k, k');
    QuietMove(s, w, k', s.table.rows);
    assert Put(s, w, k') == s.(table := s.table.(rows := s.table.rows), workers := s.workers[w := k']);
  }

  lemma ReturnKeepsInv(s: System, w: WorkerId)
    requires Inv(s) && Enabled(s, Return(w))
    ensures Inv(Step(s, Return(w)))
  {
    hide RowsInv, KeysInv, LogInv, WinsInv;
    assert WorkerInv(s.wins, s.table.log, w, s.workers[w]);
    assert s.workers[w].phase == EventLogged ==> StepWon(s.wins, w, s.workers[w], s.workers[w].applied);
    SilentMove(s, w, Step(s, Return(w)).workers[w]);
  }

  lemma EndingKeepsInv(s: System, w: WorkerId)
    requires Inv(s)
    ensures Enabled(s, Fail(w)) ==> Inv(Step(s, Fail(w)))
    ensures Enabled(s, Exhaust(w)) ==> Inv(Step(s, Exhaust(w)))
    ensures Enabled(s, Die(w)) ==> Inv(Step(s, Die(w)))
  {
    hide RowsInv, KeysInv, LogInv, WinsInv;
    if w in s.workers {
      var k := s.workers[w];
      assert WorkerInv(s.wins, s.table.log, w, k);
      if Enabled(s, Fail(w)) {
        SilentMove(s, w, k.(phase := Closing, last := Some(Failed)));
      }
      if Enabled(s, Exhaust(w)) {
        SilentMove(s, w, k.(phase := Closing));
      }
      SilentMove(s, w, k.(phase := Dead));
    }
  }

  lemma LeaseMove(s: System, w: WorkerId, rows': map<SignalId, Row>, phase: Phase)
    requires Inv(s) && w in s.workers && SameButLease(s.table.rows, rows')
    requires var k := s.workers[w];
             (k.phase == Started && phase in {Ready, Finished}) || (k.phase == Closing && phase == Finished)
    ensures Inv(Moved(s.(table := s.table.(rows := rows')), w, phase))
  {
    var k := s.workers[w];
    var k' := k.(phase := phase);
    assert WorkerInv(s.wins, s.table.log, w, k);
    SameProgress(s.wins, s.table.log, w, k, k');
    QuietMove(s, w, k', rows');
    assert Moved(s.(table := s.table.(rows := rows')), w, phase)
        == s.(table := s.table.(rows := rows'), workers := s.workers[w := k']);
  }

  lemma ClaimKeepsInv(s: System, w: WorkerId)
    requires Inv(s) && Enabled(s, Claim(w))
    ensures Inv(Step(s, Claim(w)))
  {
    hide Inv;
    var k := s.workers[w];
    var t' := ClaimRow(s.table, k.id, k.owner, k.now, k.leaseSeconds);
    assert SameButLease(s.table.rows, t'.rows);
    LeaseMove(s, w, t'.rows, Ready);
    LeaseMove(s, w, s.table.rows, Finished);
    assert s.(table := s.table.(rows := t'.rows)) == s.(table := t');
    assert s.(table := s.table.(rows := s.table.rows)) == s;
  }

  lemma ReleaseKeepsInv(s: System, w: WorkerId)
    requires Inv(s) && Enabled(s, Release(w))
    ensures Inv(Step(s, Release(w)))
  {
    hide Inv;
    var k := s.workers[w];
    var t' := ReleaseRow(s.table, k.id, k.owner);
    assert SameButLease(s.table.rows, t'.rows);
    LeaseMove(s, w, t'.rows, Finished);
    assert s.(table := s.table.(rows := t'.rows)) == s.(table := t');
  }

  lemma BeginKeepsInv(s: System, l: Label)
    requires Inv(s) && l.Begin? && Enabled(s, l)
    ensures Inv(Step(s, l))
  {
    var k' := Step(s, l).workers[l.w];
    assert RowInv(s.table.rows[l.id], s.wins[l.id]);
    assert WorkerInv(s.wins, s.table.log, l.w, k');
    WorkersFramed(s.workers, l.w, k', s.wins, s.wins, s.table.log, s.table.log);
    WinsFramed(s.workers, l.w, k', s.wins);
  }

  lemma AdmitKeepsRows(rows: map<SignalId, Row>, wins: map<SignalId, seq<Win>>, log: seq<Event>, signal: NewSignal)
    requires RowsInv(rows, wins) && KeysInv(rows) && InsertAccepted(Table(rows, log), signal)
    ensures RowsInv(rows[signal.id := FreshRow(signal)], wins[signal.id := []])
    ensures KeysInv(rows[signal.id := FreshRow(signal)])
  {
    var rows' := rows[signal.id := FreshRow(signal)];
    forall a, b | a in rows' && b in rows' && SameActiveKey(rows', a, b)
      ensures a == b
    {
      if a != signal.id && b != signal.id {
        assert SameActiveKey(rows, a, b);
      }
    }
  }

  lemma AdmitKeepsInv(s: System, l: Label)
    requires Inv(s) && l.Admit? && Enabled(s, l)
    ensures Inv(Step(s, l))
  {
    var wins' := s.wins[l.signal.id := []];
    AdmitKeepsRows(s.table.rows, s.wins, s.table.log, l.signal);
    LogFramed(s.table.log, s.wins, wins');
    AllWorkersFramed(s.workers, s.wins, wins', s.table.log, s.table.log);
    assert WinsInv(s.workers, wins');
  }

  lemma AdmissionChainKeepsLog(log: seq<Event>, wins: map<SignalId, seq<Win>>, id: SignalId)
    requires LogInv(log, wins) && id in wins
    requires forall e | e in AdmissionChain(id) :: !KeyLogged(Table(map[], log), e.key)
    ensures LogInv(log + AdmissionChain(id), wins)
  {
  }

  lemma LogAdmissionKeepsInv(s: System, l: Label)
    requires Inv(s) && l.LogAdmission? && Enabled(s, l)
    ensures Inv(Step(s, l))
  {
    if forall e | e in AdmissionChain(l.id) :: !KeyLogged(s.table, e.key) {
      forall e | e in AdmissionChain(l.id)
        ensures !KeyLogged(Table(map[], s.table.log), e.key)
      {
        assert !KeyLogged(s.table, e.key);
      }
      AdmissionChainKeepsLog(s.table.log, s.wins, l.id);
    }
    AllWorkersFramed(s.workers, s.wins, s.wins, s.table.log, Step(s, l).table.log);
  }

  lemma MissedRowKeepsInv(s: System, w: WorkerId)
    requires Inv(s) && Enabled(s, CommitRow(w)) && !WinsRow(s, w)
    ensures Inv(Step(s, CommitRow(w)))
  {
    var k := s.workers[w];
    var k' := k.(phase := RowMissed);
    assert WorkerInv(s.wins, s.table.log, w, k);
    SameProgress(s.wins, s.table.log, w, k, k');
    QuietMove(s, w, k', s.table.rows);
    assert Step(s, CommitRow(w)) == s.(table := s.table.(rows := s.table.rows), workers := s.workers[w := k']);
  }

  /** The winning update extends the chain by one, at the version the worker expected. */
  lemma WonRowExtendsChain(row: Row, wins: seq<Win>, win: Win, asOf: Instant)
    requires RowInv(row, wins)
    requires row.state == win.step.from && CanTransition(win.step.from, win.step.to)
    ensures RowInv(Advanced(row, row.version, win.step, asOf), wins + [win])
  {
    hide CanTransition, Terminal;
    assert forall n | 0 <= n <= |wins| :: StateAfter(wins + [win], n) == StateAfter(wins, n);
  }

  lemma WonRowKeepsRows(rows: map<SignalId, Row>, wins: map<SignalId, seq<Win>>, id: SignalId, win: Win, asOf: Instant)
    requires RowsInv(rows, wins) && id in rows
    requires rows[id].state == win.step.from && CanTransition(win.step.from, win.step.to)
    ensures RowsInv(rows[id := Advanced(rows[id], rows[id].version, win.step, asOf)], wins[id := wins[id] + [win]])
  {
    var row' := Advanced(rows[id], rows[id].version, win.step, asOf);
    WonRowExtendsChain(rows[id], wins[id], win, asOf);
    var rows' := rows[id := row'];
    var wins' := wins[id := wins[id] + [win]];
    forall x | x in rows'
      ensures RowInv(rows'[x], wins'[x])
    {
      assert x != id ==> RowInv(rows[x], wins[x]);
    }
  }

  lemma WonRowKeepsKeys(rows: map<SignalId, Row>, id: SignalId, step: TransitionStep, asOf: Instant)
    requires KeysInv(rows) && id in rows
    requires rows[id].state == step.from && !Terminal(step.from)
    ensures KeysInv(rows[id := Advanced(rows[id], rows[id].version, step, asOf)])
  {
  }

  lemma WonRowKeepsWins(workers: map<WorkerId, Worker>, wins: map<SignalId, seq<Win>>, w: WorkerId)
    requires w in workers && workers[w].phase == Ready && WinsInv(workers, wins)
    requires LoopInv(workers[w]) && workers[w].applied < |workers[w].steps|
    requires workers[w].id in wins && workers[w].Expected() == ADMITTED_VERSION + |wins[workers[w].id]|
    ensures var k := workers[w];
            var win := Win(w, k.applied, k.steps[k.applied]);
            WinsInv(workers[w := k.(phase := RowWon)], wins[k.id := wins[k.id] + [win]])
  {
  }

  lemma VersionCountsWins(rows: map<SignalId, Row>, wins: map<SignalId, seq<Win>>, id: SignalId)
    requires RowsInv(rows, wins) && id in rows
    ensures id in wins && rows[id].version == ADMITTED_VERSION + |wins[id]|
  {
    assert RowInv(rows[id], wins[id]);
  }

  lemma WonRowKeepsInv(s: System, w: WorkerId)
    requires Inv(s) && WinsRow(s, w)
    ensures Inv(Step(s, CommitRow(w)))
  {
    hide RowsInv, KeysInv, LogInv, WinsInv;
    var k := s.workers[w];
    var k' := k.(phase := RowWon);
    var step := k.steps[k.applied];
    var win := Win(w, k.applied, step);
    var rows, log := s.table.rows, s.table.log;
    assert WorkerInv(s.wins, log, w, k);
    VersionCountsWins(rows, s.wins, k.id);
    var rows' := rows[k.id := Advanced(rows[k.id], rows[k.id].version, step, k.now)];
    var wins' := s.wins[k.id := s.wins[k.id] + [win]];
    ListedTransitionsLeaveLiveStates(step.from, step.to);
    WonRowKeepsRows(rows, s.wins, k.id, win, k.now);
    WonRowKeepsKeys(rows, k.id, step, k.now);
    LogFramed(log, s.wins, wins');
    WonRowKeepsWins(s.workers, s.wins, w);
    WonRowKeepsWorkers(s.workers, s.wins, log, w);
    assert Step(s, CommitRow(w)) == System(Table(rows', log), s.admitting, s.workers[w := k'], wins');
  }

  lemma WonRowKeepsWorkers(workers: map<WorkerId, Worker>, wins: map<SignalId, seq<Win>>, log: seq<Event>, w: WorkerId)
    requires WorkersInv(workers, wins, log)
    requires w in workers && workers[w].phase == Ready && workers[w].applied < |workers[w].steps|
    requires workers[w].id in wins && workers[w].Expected() == ADMITTED_VERSION + |wins[workers[w].id]|
    ensures var k := workers[w];
            var win := Win(w, k.applied, k.steps[k.applied]);
            WorkersInv(workers[w := k.(phase := RowWon)], wins[k.id := wins[k.id] + [win]], log)
  {
    var k := workers[w];
    var wins' := wins[k.id := wins[k.id] + [Win(w, k.applied, k.steps[k.applied])]];
    assert WorkerInv(wins, log, w, k);
    WorkerFramed(w, k, wins, wins', log, log);
    assert StepWon(wins', w, k, k.applied);
    SameProgress(wins', log, w, k, k.(phase := RowWon));
    WorkersFramed(workers, w, k.(phase := RowWon), wins, wins', log, log);
  }

  lemma EventKeepsLog(t: Table, wins: map<SignalId, seq<Win>>, w: WorkerId, k: Worker)
    requires LogInv(t.log, wins) && StepWon(wins, w, k, k.applied)
    ensures var e := TransitionEvent(k.id, k.Expected(), k.steps[k.applied]);
            var t' := InsertEvent(t, e);
            LogInv(t'.log, wins) && t.log <= t'.log && e in t'.log
  {
  }

  lemma CommitEventKeepsInv(s: System, w: WorkerId)
    requires Inv(s) && Enabled(s, CommitEvent(w))
    ensures Inv(Step(s, CommitEvent(w)))
  {
    hide RowsInv, KeysInv, LogInv, WinsInv;
    var k := s.workers[w];
    var k' := k.(phase := EventLogged);
    assert WorkerInv(s.wins, s.table.log, w, k);
    EventKeepsLog(s.table, s.wins, w, k);
    var t' := InsertEvent(s.table, TransitionEvent(k.id, k.Expected(), k.steps[k.applied]));
    WorkerFramed(w, k, s.wins, s.wins, s.table.log, t'.log);
    SameProgress(s.wins, t'.log, w, k, k');
    WorkersFramed(s.workers, w, k', s.wins, s.wins, s.table.log, t'.log);
    WinsFramed(s.workers, w, k', s.wins);
    assert Step(s, CommitEvent(w)) == System(t', s.admitting, s.workers[w := k'], s.wins);
  }

  lemma StepKeepsInv(s: System, l: Label)
    requires Inv(s)
    ensures Inv(Step(s, l))
  {
    if Enabled(s, l) {
      match l
      case Admit(_) => AdmitKeepsInv(s, l);
      case LogAdmission(_) => LogAdmissionKeepsInv(s, l);
      case Begin(_, _, _, _, _, _) => BeginKeepsInv(s, l);
      case Claim(w) => ClaimKeepsInv(s, w);
      case Release(w) => ReleaseKeepsInv(s, w);
      case CommitRow(w) => if WinsRow(s, w) { WonRowKeepsInv(s, w); } else { MissedRowKeepsInv(s, w); }
      case CommitEvent(w) => CommitEventKeepsInv(s, w);
      case Return(w) => ReturnKeepsInv(s, w);
      case Fail(w) => EndingKeepsInv(s, w);
      case Exhaust(w) => EndingKeepsInv(s, w);
      case Die(w) => EndingKeepsInv(s, w);
    }
  }

  /** Every state of every run satisfies the invariant. */
  lemma {:induction false} RunKeepsInv(labels: seq<Label>)
    ensures Inv(Run(EMPTY_SYSTEM, labels))
    decreases |labels|
  {
    if labels != [] {
      RunKeepsInv(labels[..|labels| - 1]);
      StepKeepsInv(Run(EMPTY_SYSTEM, labels[..|labels| - 1]), labels[|labels| - 1]);
    }
  }

  // ------------------------------------------------------------------ the parts, after a run

  lemma RowAfterRun(labels: seq<Label>, id: SignalId)
    requires id in Run(EMPTY_SYSTEM, labels).table.rows
    ensures var s := Run(EMPTY_SYSTEM, labels);
            id in s.wins && RowInv(s.table.rows[id], s.wins[id]) && KeyInv(s.table.rows[id])
  {
    hide LogInv, WorkersInv, WinsInv;
    RunKeepsInv(labels);
  }

  lemma LiveKeysAfterRun(labels: seq<Label>, a: SignalId, b: SignalId)
    requires a in Run(EMPTY_SYSTEM, labels).table.rows && b in Run(EMPTY_SYSTEM, labels).table.rows
    requires SameActiveKey(Run(EMPTY_SYSTEM, labels).table.rows, a, b)
    ensures a == b
  {
    hide RowsInv, LogInv, WorkersInv, WinsInv;
    RunKeepsInv(labels);
  }

  lemma EventAfterRun(labels: seq<Label>, e: Event)
    requires e in Run(EMPTY_SYSTEM, labels).table.log
    ensures EventInv(Run(EMPTY_SYSTEM, labels).wins, e)
    ensures DistinctKeys(Run(EMPTY_SYSTEM, labels).table.log)
  {
    hide RowsInv, KeysInv, WorkersInv, WinsInv;
    RunKeepsInv(labels);
  }

  lemma WorkerAfterRun(labels: seq<Label>, w: WorkerId)
    requires w in Run(EMPTY_SYSTEM, labels).workers
    ensures var s := Run(EMPTY_SYSTEM, labels);
            WorkerInv(s.wins, s.table.log, w, s.workers[w])
  {
    hide RowsInv, KeysInv, LogInv, WinsInv;
    RunKeepsInv(labels);
  }

  lemma WinAfterRun(labels: seq<Label>, id: SignalId, n: nat)
    requires id in Run(EMPTY_SYSTEM, labels).wins && n < |Run(EMPTY_SYSTEM, labels).wins[id]|
    ensures var s := Run(EMPTY_SYSTEM, labels);
            WinInv(s.workers, id, n, s.wins[id][n])
  {
    hide RowsInv, KeysInv, LogInv, WorkersInv;
    RunKeepsInv(labels);
  }
}
