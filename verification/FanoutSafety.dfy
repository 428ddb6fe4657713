/**
 What every reachable fan-out state satisfies, and what follows for whole runs.
 */
module FanoutSafety {
  import opened Strategies
  import opened Wrappers
  import opened Fanout

  // ----- one task -----

  /** Every attempt but the last was answered with a retryable error. */
  predicate RetriedOnly<T>(answers: seq<Result<T, HostError>>) {
    forall k :: 0 <= k < |answers| - 1 ==> answers[k].Err? && answers[k].error.Retryable?
  }

  /** What the calls a task has made so far look like, whatever its phase. */
  predicate HistoryOk(t: Task, store: map<Key, ScanId>) {
    && t.cell == (if t.resolved.Some? then t.resolved.value else Probe)
    && (t.resolved.Some? ==> t.key.Some?)
    && (forall k :: 0 <= k < |t.scans| ==> t.key == Some(t.scans[k].key) && t.resolved == Some(t.scans[k].strategy))
    && |t.scans| <= MAX_ATTEMPTS
    && |t.answers| <= |t.scans| <= |t.answers| + 1
    && RetriedOnly(t.answers)
    && (|t.answers| < |t.scans| ==> t.puts == [] && forall k :: 0 <= k < |t.answers| ==> t.answers[k].Err? && t.answers[k].error.Retryable?)
    && |t.puts| <= 1
    && (t.puts != [] ==>
          && t.answers != [] && t.answers[|t.answers| - 1] == Ok(t.puts[0].snapshot)
          && t.key == Some(t.puts[0].key))
    && (t.puts == [] <==> t.write.NotIssued?)
    && (t.write.Landed? ==> t.puts != [] && t.puts[0].key in store && store[t.puts[0].key] == t.write.id)
  }

  /** When a final outcome may be reported: success only for a landed write, a scan error only as
      the scanner's last answer, and a retryable error only after every attempt was spent. */
  predicate OutcomeJustified(t: Task, o: Outcome) {
    match o
    case Succeeded(id) => t.write == Landed(id)
    case TimedOut => true
    case Failed(e) =>
      || (t.write.Rejected? && e == Store(t.write.reason))
      || (t.answers != [] && t.answers[|t.answers| - 1] == Err(e) && (e.Retryable? ==> |t.answers| == MAX_ATTEMPTS))
  }

  predicate PhaseOk(t: Task) {
    match t.phase
    case Unspawned => t.key.None? && t.scans == [] && t.resolved.None?
    case Waiting => t.key.None? && t.scans == [] && t.resolved.None?
    case Starting => t.key.None? && t.scans == [] && t.resolved.None?
    case Resolving => t.key.Some? && t.scans == [] && t.resolved.None?
    case Scanning(a) => t.resolved.Some? && |t.scans| == a + 1 && |t.answers| == a
    case BackingOff(a) =>
      && t.resolved.Some? && |t.scans| == |t.answers| == a + 1 < MAX_ATTEMPTS
      && t.answers[a].Err? && t.answers[a].error.Retryable?
    case Persisting => t.puts != []
    case Finished(o) => OutcomeJustified(t, o)
    case Returned(o) => OutcomeJustified(t, o)
    case Unwound => true
    case Joined(o, panicked) => if panicked then o.Failed? && o.error.Panicked? else OutcomeJustified(t, o)
  }

  predicate TaskOk(t: Task, store: map<Key, ScanId>) {
    HistoryOk(t, store) && PhaseOk(t)
  }

  predicate Grows(before: map<Key, ScanId>, after: map<Key, ScanId>) {
    forall k :: k in before ==> k in after && after[k] == before[k]
  }

  predicate TasksOk(s: State) {
    forall i :: 0 <= i < |s.tasks| ==> TaskOk(s.tasks[i], s.store)
  }

  lemma ScanAnswered(t: Task, answer: Result<ScanId, HostError>, store: map<Key, ScanId>)
    requires TaskOk(t, store) && t.phase.Scanning? && t.key.Some?
    ensures TaskOk(Answered(t, answer), store)
  {
    assert t.puts == [];
    assert RetriedOnly(t.answers + [answer]);
  }

  lemma ScanReissued(t: Task, store: map<Key, ScanId>)
    requires TaskOk(t, store) && t.phase.BackingOff? && t.key.Some?
    ensures TaskOk(Reissue(t, t.phase.attempt + 1, t.cell), store)
  {
    assert t.puts == [];
    assert forall k :: 0 <= k < |t.answers| ==> t.answers[k].Err? && t.answers[k].error.Retryable?;
  }

  lemma FirstScanIssued(t: Task, strategy: TargetStrategy, store: map<Key, ScanId>)
    requires TaskOk(t, store) && t.phase.Resolving? && t.key.Some?
    ensures TaskOk(Reissue(t, 0, strategy).(cell := strategy, resolved := Some(strategy)), store)
  {
  }

  lemma Rephased(t: Task, p: Phase, store: map<Key, ScanId>)
    requires TaskOk(t, store) && PhaseOk(t.(phase := p))
    ensures TaskOk(t.(phase := p), store)
  {
  }

  lemma WriteSettled(s: State, i: nat, failure: Option<string>)
    requires i < |s.tasks| && TaskOk(s.tasks[i], s.store) && s.tasks[i].write.InFlight? && s.tasks[i].puts != []
    ensures TaskOk(s.tasks[i].(write := Settled(s.tasks[i], s.store, failure)), Recorded(s, i, failure).store)
  {
  }

  lemma EndedTaskOk(c: Config, s: State, step: Step)
    requires step.PutReturns? || step.Expire? || step.Panic? || step.Release? || step.Join?
    requires Enabled(c, s, step) && TaskOk(s.tasks[step.i], s.store)
    ensures TaskOk(Moved(c, s, step), s.store)
  {
    Rephased(s.tasks[step.i], Moved(c, s, step).phase, s.store);
  }

  lemma MovedTaskOk(c: Config, s: State, step: Step)
    requires Enabled(c, s, step) && TaskOk(s.tasks[Mover(s, step)], s.store)
    ensures TaskOk(Moved(c, s, step), Shared(c, s, step).store)
  {
    var t := s.tasks[Mover(s, step)];
    match step
    case Spawn(_) =>
    case Acquire(_) =>
    case GenerateKey(_, _) =>
    case Resolve(_, strategy) => FirstScanIssued(t, strategy, s.store);
    case ScanReturns(_, answer) => ScanAnswered(t, answer, s.store);
    case Wake(_) => ScanReissued(t, s.store);
    case WriteSettles(i, failure) => WriteSettled(s, i, failure);
    case _ => EndedTaskOk(c, s, step);
  }

  lemma StoreGrows(c: Config, s: State, step: Step)
    requires Enabled(c, s, step)
    ensures Grows(s.store, Shared(c, s, step).store)
  {
  }

  lemma TasksStayOk(c: Config, s: State, step: Step)
    requires TasksOk(s) && Enabled(c, s, step)
    ensures TasksOk(Apply(c, s, step))
  {
    var s' := Apply(c, s, step);
    MovedTaskOk(c, s, step);
    StoreGrows(c, s, step);
    forall j | 0 <= j < |s'.tasks|
      ensures TaskOk(s'.tasks[j], s'.store)
    {
      if j != Mover(s, step) {
        assert TaskOk(s.tasks[j], s.store);
      }
    }
  }

  // ----- permits -----

  predicate HoldsPermit(p: Phase) {
    p.Starting? || Cancellable(p) || p.Finished?
  }

  function Held(t: Task): nat {
    if HoldsPermit(t.phase) then 1 else 0
  }

  /** Free permits plus held permits are the semaphore's size. */
  predicate PermitsOk(c: Config, s: State) {
    s.free + Total(s.tasks, Held) == Permits(c)
  }

  lemma PermitMoves(c: Config, s: State, step: Step)
    requires Enabled(c, s, step)
    ensures Shared(c, s, step).free + Held(Moved(c, s, step)) == s.free + Held(s.tasks[Mover(s, step)])
  {
  }

  lemma PermitsStayOk(c: Config, s: State, step: Step)
    requires PermitsOk(c, s) && Enabled(c, s, step)
    ensures PermitsOk(c, Apply(c, s, step))
  {
    PermitMoves(c, s, step);
    TotalUpdate(s.tasks, Mover(s, step), Moved(c, s, step), Held);
  }

  // ----- keys and the store -----

  /** No two hosts share a key, and no host reuses one the store knew before the run. */
  predicate KeysOk(c: Config, s: State) {
    && (forall i :: 0 <= i < |s.tasks| && s.tasks[i].key.Some? ==> s.tasks[i].key.value !in c.prior)
    && (forall i, j :: 0 <= i < j < |s.tasks| && s.tasks[i].key.Some? ==> s.tasks[i].key != s.tasks[j].key)
  }

  /** A record is stored under its key, and is the snapshot of some task's only `put`, which has landed. */
  predicate RecordOk(c: Config, s: State, record: (Key, ScanId)) {
    && record.0 !in c.prior
    && record.0 in s.store && s.store[record.0] == record.1
    && exists i :: 0 <= i < |s.tasks| && s.tasks[i].puts == [PutCall(record.0, record.1)] && s.tasks[i].write.Landed?
  }

  /** The store is its prior content plus this run's records, at most one record a key. */
  predicate StoreOk(c: Config, s: State) {
    && Grows(c.prior, s.store)
    && (forall k :: k in s.store ==> k in c.prior || (k, s.store[k]) in s.records)
    && (forall r :: r in s.records ==> RecordOk(c, s, r))
    && (forall r, q :: 0 <= r < q < |s.records| ==> s.records[r].0 != s.records[q].0)
  }

  lemma KeysStayOk(c: Config, s: State, step: Step)
    requires KeysOk(c, s) && Grows(c.prior, s.store) && Enabled(c, s, step)
    ensures KeysOk(c, Apply(c, s, step))
  {
    var s' := Apply(c, s, step);
    var m := Mover(s, step);
    forall i | 0 <= i < |s'.tasks| && s'.tasks[i].key.Some?
      ensures s'.tasks[i].key.value !in c.prior
      ensures step.GenerateKey? || s'.tasks[i].key == s.tasks[i].key
    {
    }
  }

  lemma PutsOnlyAppear(c: Config, s: State, step: Step)
    requires Enabled(c, s, step) && TaskOk(s.tasks[Mover(s, step)], s.store)
    ensures var t := s.tasks[Mover(s, step)]; t.puts == [] || Moved(c, s, step).puts == t.puts
    ensures var t := s.tasks[Mover(s, step)]; t.write.Landed? ==> Moved(c, s, step).write == t.write
  {
  }

  lemma RecordStays(c: Config, s: State, step: Step, record: (Key, ScanId))
    requires TasksOk(s) && Enabled(c, s, step) && RecordOk(c, s, record)
    ensures RecordOk(c, Apply(c, s, step), record)
  {
    var i :| 0 <= i < |s.tasks| && s.tasks[i].puts == [PutCall(record.0, record.1)] && s.tasks[i].write.Landed?;
    assert TaskOk(s.tasks[Mover(s, step)], s.store);
    PutsOnlyAppear(c, s, step);
    StoreGrows(c, s, step);
    var t := Apply(c, s, step).tasks[i];
    assert t.puts == [PutCall(record.0, record.1)] && t.write.Landed?;
  }

  lemma StoreOnlyWritten(c: Config, s: State, step: Step)
    requires Enabled(c, s, step) && !step.WriteSettles?
    ensures Shared(c, s, step).store == s.store && Shared(c, s, step).records == s.records
  {
  }

  lemma StoreStaysOk(c: Config, s: State, step: Step)
    requires TasksOk(s) && StoreOk(c, s) && KeysOk(c, s) && Enabled(c, s, step)
    ensures StoreOk(c, Apply(c, s, step))
  {
    forall r | r in s.records
      ensures RecordOk(c, Apply(c, s, step), r)
    {
      RecordStays(c, s, step, r);
    }
    if step.WriteSettles? {
      WriteRecorded(c, s, step.i, step.failure);
    } else {
      StoreOnlyWritten(c, s, step);
    }
  }

  /** A write that lands under a new key adds the one record of that key. */
  lemma RecordAdded(c: Config, s: State, i: nat)
    requires TasksOk(s) && StoreOk(c, s) && KeysOk(c, s) && Enabled(c, s, WriteSettles(i, None))
    requires s.tasks[i].puts[0].key !in s.store
    ensures var s' := Apply(c, s, WriteSettles(i, None)); var put := s.tasks[i].puts[0];
      && s'.store == s.store[put.key := put.snapshot]
      && s'.records == s.records + [(put.key, put.snapshot)]
      && RecordOk(c, s', (put.key, put.snapshot))
  {
    hide PhaseOk, StoreOk;
    var s' := Apply(c, s, WriteSettles(i, None));
    assert TaskOk(s.tasks[i], s.store);
    assert s'.tasks[i].puts == s.tasks[i].puts == [s.tasks[i].puts[0]] && s'.tasks[i].write.Landed?;
  }

  lemma OneMoreRecord(c: Config, s: State, s': State, key: Key, id: ScanId)
    requires StoreOk(c, s) && key !in s.store
    requires s'.store == s.store[key := id] && s'.records == s.records + [(key, id)]
    requires forall r :: r in s'.records ==> RecordOk(c, s', r)
    ensures StoreOk(c, s')
  {
    forall k | k in s'.store
      ensures k in c.prior || (k, s'.store[k]) in s'.records
    {
      if k in s.store {
        assert k in c.prior || (k, s.store[k]) in s.records;
      } else {
        assert s'.records[|s.records|] == (k, s'.store[k]);
      }
    }
    forall r | 0 <= r < |s.records|
      ensures s.records[r].0 != key
    {
      assert RecordOk(c, s, s.records[r]);
    }
  }

  lemma WriteRecorded(c: Config, s: State, i: nat, failure: Option<string>)
    requires TasksOk(s) && StoreOk(c, s) && KeysOk(c, s) && Enabled(c, s, WriteSettles(i, failure))
    requires forall r :: r in s.records ==> RecordOk(c, Apply(c, s, WriteSettles(i, failure)), r)
    ensures StoreOk(c, Apply(c, s, WriteSettles(i, failure)))
  {
    hide PhaseOk, KeysOk, RecordOk;
    var s' := Apply(c, s, WriteSettles(i, failure));
    var put := s.tasks[i].puts[0];
    if failure.None? && put.key !in s.store {
      RecordAdded(c, s, i);
      OneMoreRecord(c, s, s', put.key, put.snapshot);
    } else {
      assert s'.store == s.store && s'.records == s.records;
    }
  }

  // ----- task ids -----

  /** Every spawned task is in the join map under its own host, and only those are spawned. */
  predicate SpawnedOk(c: Config, s: State) {
    && |s.tasks| == |c.hosts| && s.spawned <= |s.tasks|
    && (forall i :: 0 <= i < |s.tasks| ==> (s.tasks[i].phase.Unspawned? <==> s.spawned <= i))
    && (forall i :: 0 <= i < s.spawned ==> s.tasks[i].tid in s.hostIds && s.hostIds[s.tasks[i].tid] == c.hosts[i])
  }

  lemma TidMoves(c: Config, s: State, step: Step)
    requires Enabled(c, s, step) && TaskOk(s.tasks[Mover(s, step)], s.store)
    ensures !Moved(c, s, step).phase.Unspawned?
    ensures var s' := Shared(c, s, step); var t := Moved(c, s, step);
            if step.Spawn? then t.tid == step.tid && s'.spawned == s.spawned + 1 && s'.hostIds == s.hostIds[t.tid := c.hosts[s.spawned]]
            else !s.tasks[step.i].phase.Unspawned? && t.tid == s.tasks[step.i].tid && s'.spawned == s.spawned && s'.hostIds == s.hostIds
  {
  }

  lemma SpawnedStaysOk(c: Config, s: State, step: Step)
    requires SpawnedOk(c, s) && TasksOk(s) && Enabled(c, s, step)
    ensures SpawnedOk(c, Apply(c, s, step))
  {
    TidMoves(c, s, step);
  }

  // ----- the progress log -----

  function EntryOf(e: Event): nat {
    e.entry
  }

  /** What the reporter was told about one entry, in order. */
  function Told(log: seq<Event>, i: nat): seq<Event> {
    if log == [] then []
    else
      var before := Told(log[..|log| - 1], i);
      if EntryOf(log[|log| - 1]) == i then before + [log[|log| - 1]] else before
  }

  function Due(i: nat, p: Phase): seq<Event> {
    match p
    case Unspawned => []
    case Waiting => []
    case Finished(o) => [HostStarted(i), HostFinished(i, o)]
    case Returned(o) => [HostStarted(i), HostFinished(i, o)]
    case Joined(o, _) => [HostStarted(i), HostFinished(i, o)]
    case _ => [HostStarted(i)]
  }

  predicate LogOk(s: State) {
    forall i :: 0 <= i < |s.tasks| ==> Told(s.log, i) == Due(i, s.tasks[i].phase)
  }

  lemma ToldAppend(log: seq<Event>, e: Event, i: nat)
    ensures Told(log + [e], i) == if EntryOf(e) == i then Told(log, i) + [e] else Told(log, i)
  {
    assert (log + [e])[..|log|] == log;
  }

  /** Each step reports at most one event, about the entry it moves, exactly when it is due. */
  lemma LogMoves(c: Config, s: State, step: Step)
    requires SpawnedOk(c, s) && Enabled(c, s, step)
    ensures var m := Mover(s, step);
            var was := Due(m, s.tasks[m].phase);
            var now := Due(m, Moved(c, s, step).phase);
            var log := Shared(c, s, step).log;
            || (log == s.log && now == was)
            || exists e :: log == s.log + [e] && EntryOf(e) == m && now == was + [e]
  {
    if step.Acquire? {
      assert Shared(c, s, step).log == s.log + [HostStarted(step.i)];
    } else if step.Join? && s.tasks[step.i].phase.Unwound? {
      assert Shared(c, s, step).log == s.log + [HostFinished(step.i, Failed(Panicked(step.reason)))];
    } else {
      FinishMoves(c, s, step);
    }
  }

  lemma FinishMoves(c: Config, s: State, step: Step)
    requires SpawnedOk(c, s) && Enabled(c, s, step)
    requires !step.Acquire? && !(step.Join? && s.tasks[step.i].phase.Unwound?)
    ensures var m := Mover(s, step);
            var was := s.tasks[m].phase;
            var now := Moved(c, s, step).phase;
            var log := Shared(c, s, step).log;
            || (log == s.log && Due(m, now) == Due(m, was))
            || (now.Finished? && log == s.log + [HostFinished(m, now.outcome)] && Due(m, was) == [HostStarted(m)])
  {
  }

  lemma LogStaysOk(c: Config, s: State, step: Step)
    requires LogOk(s) && SpawnedOk(c, s) && Enabled(c, s, step)
    ensures LogOk(Apply(c, s, step))
  {
    var m := Mover(s, step);
    var log := Shared(c, s, step).log;
    LogMoves(c, s, step);
    if log != s.log {
      var e :| log == s.log + [e] && EntryOf(e) == m && Due(m, Moved(c, s, step).phase) == Due(m, s.tasks[m].phase) + [e];
      forall i: nat ensures Told(log, i) == if EntryOf(e) == i then Told(s.log, i) + [e] else Told(s.log, i) {
        ToldAppend(s.log, e, i);
      }
    }
  }

  // ----- the results -----

  /** The result an entry's joined task is owed: its resolved strategy, or `Probe` for a panic. */
  function Owed(c: Config, i: nat, t: Task): HostResult
    requires i < |c.hosts| && t.phase.Joined?
  {
    HostResult(c.hosts[i], if t.phase.panicked then Probe else t.cell, t.phase.outcome)
  }

  predicate ResultsOk(c: Config, s: State) {
    && |s.tasks| == |c.hosts| && |s.joined| == |s.results|
    && (forall k :: 0 <= k < |s.joined| ==>
          && s.joined[k] < |s.tasks| && s.tasks[s.joined[k]].phase.Joined?
          && s.results[k] == Owed(c, s.joined[k], s.tasks[s.joined[k]]))
    && (forall k, l :: 0 <= k < l < |s.joined| ==> s.joined[k] != s.joined[l])
    && (forall i :: 0 <= i < |s.tasks| && s.tasks[i].phase.Joined? ==> i in s.joined)
  }

  /** A joined task only ever has its detached write settle. */
  lemma JoinedStays(c: Config, s: State, step: Step)
    requires Enabled(c, s, step) && s.tasks[Mover(s, step)].phase.Joined?
    ensures Moved(c, s, step).phase == s.tasks[Mover(s, step)].phase
    ensures Moved(c, s, step).cell == s.tasks[Mover(s, step)].cell
    ensures Shared(c, s, step).results == s.results && Shared(c, s, step).joined == s.joined
  {
  }

  lemma ResultsMove(c: Config, s: State, step: Step)
    requires SpawnedOk(c, s) && Enabled(c, s, step)
    requires !s.tasks[Mover(s, step)].phase.Joined?
    ensures var s' := Shared(c, s, step); var t := Moved(c, s, step); var m := Mover(s, step);
            if t.phase.Joined? then s'.results == s.results + [Owed(c, m, t)] && s'.joined == s.joined + [m]
            else s'.results == s.results && s'.joined == s.joined
  {
  }

  lemma ResultsStayOk(c: Config, s: State, step: Step)
    requires ResultsOk(c, s) && SpawnedOk(c, s) && Enabled(c, s, step)
    ensures ResultsOk(c, Apply(c, s, step))
  {
    hide Shared, Moved;
    var m := Mover(s, step);
    var s' := Apply(c, s, step);
    if s.tasks[m].phase.Joined? {
      JoinedStays(c, s, step);
    } else {
      ResultsMove(c, s, step);
      assert m !in s.joined;
      forall i | 0 <= i < |s'.tasks| && s'.tasks[i].phase.Joined? ensures i in s'.joined {
        if i == m { assert s'.joined[|s.joined|] == m; } else { assert i in s.joined; }
      }
    }
  }

  function IsJoined(t: Task): nat {
    if t.phase.Joined? then 1 else 0
  }

  predicate JoinCountOk(s: State) {
    |s.joined| == Total(s.tasks, IsJoined)
  }

  lemma JoinCountStaysOk(c: Config, s: State, step: Step)
    requires JoinCountOk(s) && SpawnedOk(c, s) && Enabled(c, s, step)
    ensures JoinCountOk(Apply(c, s, step))
  {
    TotalUpdate(s.tasks, Mover(s, step), Moved(c, s, step), IsJoined);
    if s.tasks[Mover(s, step)].phase.Joined? {
      JoinedStays(c, s, step);
    } else {
      ResultsMove(c, s, step);
    }
  }

  // ----- the whole invariant -----

  predicate Inv(c: Config, s: State) {
    && SpawnedOk(c, s) && TasksOk(s) && PermitsOk(c, s) && KeysOk(c, s) && StoreOk(c, s) && LogOk(s) && ResultsOk(c, s)
    && JoinCountOk(s)
  }

  lemma InitOk(c: Config)
    ensures Inv(c, Init(c))
  {
    TotalOfEqual(Init(c).tasks, Held, 0);
    TotalOfEqual(Init(c).tasks, IsJoined, 0);
  }

  lemma StepKeepsInv(c: Config, s: State, step: Step)
    requires Inv(c, s) && Enabled(c, s, step)
    ensures Inv(c, Apply(c, s, step))
  {
    SpawnedStaysOk(c, s, step);
    TasksStayOk(c, s, step);
    PermitsStayOk(c, s, step);
    KeysStayOk(c, s, step);
    StoreStaysOk(c, s, step);
    LogStaysOk(c, s, step);
    ResultsStayOk(c, s, step);
    JoinCountStaysOk(c, s, step);
  }

  lemma {:induction false} RunKeepsInv(c: Config, steps: seq<Step>)
    requires Runs(c, steps)
    ensures Inv(c, After(c, steps))
    decreases |steps|
  {
    if steps == [] {
      InitOk(c);
    } else {
      var before := steps[..|steps| - 1];
      RunKeepsInv(c, before);
      StepKeepsInv(c, After(c, before), steps[|steps| - 1]);
    }
  }
}
