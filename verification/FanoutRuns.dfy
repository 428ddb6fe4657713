/**
 The whole-run theorems about the fan-out: what a finished run reports, what the store holds at
 every moment, and that no run gets stuck or goes on for ever.
 */
module FanoutRuns {
  import opened Strategies
  import opened Wrappers
  import opened Fanout
  import opened FanoutSafety

  /** The k-th result is the one its entry is owed: the entry's host, the resolved strategy (`Probe`
      if resolution never finished, or after a panic), and the outcome the reporter was told right
      after, and only after, the start. */
  predicate EntryAnswered(c: Config, s: State, k: nat)
    requires k < |s.results| == |s.joined|
  {
    var i := s.joined[k];
    && i < |c.hosts| == |s.tasks|
    && s.results[k].host == c.hosts[i]
    && s.tasks[i].phase.Joined?
    && s.results[k].outcome == s.tasks[i].phase.outcome
    && s.results[k].strategyUsed ==
       (if s.tasks[i].phase.panicked || s.tasks[i].resolved.None? then Probe else s.tasks[i].resolved.value)
    && Told(s.log, i) == [HostStarted(i), HostFinished(i, s.results[k].outcome)]
  }

  lemma ResultAnswers(c: Config, s: State, k: nat)
    requires Inv(c, s) && k < |s.joined|
    ensures EntryAnswered(c, s, k)
  {
    var i := s.joined[k];
    assert s.results[k] == Owed(c, i, s.tasks[i]);
    assert TaskOk(s.tasks[i], s.store);
    assert Told(s.log, i) == Due(i, s.tasks[i].phase);
  }

  /** When every task has been joined there is exactly one result an inventory entry, each one
      answered as above, and every permit is back. */
  lemma EveryEntryAnsweredOnce(c: Config, steps: seq<Step>)
    requires Runs(c, steps) && Done(After(c, steps))
    ensures var s := After(c, steps);
            && |s.results| == |s.joined| == |c.hosts|
            && (forall k, l :: 0 <= k < l < |s.joined| ==> s.joined[k] != s.joined[l])
            && (forall i :: 0 <= i < |c.hosts| ==> i in s.joined)
            && (forall k :: 0 <= k < |s.joined| ==> EntryAnswered(c, s, k))
            && s.free == Permits(c)
  {
    RunKeepsInv(c, steps);
    DoneAnswers(c, After(c, steps));
  }

  lemma DoneAnswers(c: Config, s: State)
    requires Inv(c, s) && Done(s)
    ensures |s.results| == |s.joined| == |c.hosts| && s.free == Permits(c)
    ensures forall i :: 0 <= i < |c.hosts| ==> i in s.joined
    ensures forall k :: 0 <= k < |s.joined| ==> EntryAnswered(c, s, k)
  {
    TotalOfEqual(s.tasks, IsJoined, 1);
    TotalOfEqual(s.tasks, Held, 0);
    forall k | 0 <= k < |s.joined| ensures EntryAnswered(c, s, k) {
      ResultAnswers(c, s, k);
    }
  }

  /** At every moment of every run: permits are conserved, and no more tasks work at once than the
      semaphore has permits, also when the configured concurrency is zero. */
  lemma PermitsConserved(c: Config, steps: seq<Step>)
    requires Runs(c, steps)
    ensures var s := After(c, steps);
            && s.free + Total(s.tasks, Held) == Permits(c)
            && Permits(c) == if c.concurrency == 0 then 1 else c.concurrency
  {
    RunKeepsInv(c, steps);
  }

  /** One host, across all its retries: every scan and put carries its one key, at most
      `MAX_ATTEMPTS` scans and one put are made, only retryable answers are retried, and the put
      follows a successful last scan. */
  predicate OneKey(t: Task) {
    && (forall k :: 0 <= k < |t.scans| ==> Some(t.scans[k].key) == t.key && Some(t.scans[k].strategy) == t.resolved)
    && |t.scans| <= MAX_ATTEMPTS && |t.puts| <= 1
    && RetriedOnly(t.answers) && |t.answers| <= |t.scans|
    && (forall p :: p in t.puts ==>
          && Some(p.key) == t.key
          && |t.answers| == |t.scans| > 0 && t.answers[|t.answers| - 1] == Ok(p.snapshot))
  }

  lemma OneKeyPerHost(c: Config, steps: seq<Step>, i: nat)
    requires Runs(c, steps) && i < |After(c, steps).tasks|
    ensures var s := After(c, steps);
            && OneKey(s.tasks[i])
            && forall j :: 0 <= j < |s.tasks| && j != i && s.tasks[i].key.Some? ==> s.tasks[j].key != s.tasks[i].key
  {
    RunKeepsInv(c, steps);
    var s := After(c, steps);
    HistoryIsOneKey(s.tasks[i], s.store);
  }

  lemma HistoryIsOneKey(t: Task, store: map<Key, ScanId>)
    requires TaskOk(t, store)
    ensures OneKey(t)
  {
  }

  /** A reported outcome is earned: success only once the store maps the host's key to that id, a
      retryable error only after every attempt failed that way. */
  predicate Earned(t: Task, store: map<Key, ScanId>, o: Outcome) {
    match o
    case Succeeded(id) => t.key.Some? && t.key.value in store && store[t.key.value] == id
    case Failed(Retryable(_)) => |t.scans| == MAX_ATTEMPTS && forall k :: 0 <= k < |t.answers| ==> t.answers[k].Err? && t.answers[k].error.Retryable?
    case _ => true
  }

  lemma OutcomesEarned(c: Config, steps: seq<Step>, i: nat, o: Outcome)
    requires Runs(c, steps) && i < |After(c, steps).tasks|
    requires HostFinished(i, o) in Told(After(c, steps).log, i)
    ensures Earned(After(c, steps).tasks[i], After(c, steps).store, o)
  {
    RunKeepsInv(c, steps);
    FinalIsEarned(After(c, steps), i, o);
  }

  lemma FinalIsEarned(s: State, i: nat, o: Outcome)
    requires i < |s.tasks| && TaskOk(s.tasks[i], s.store) && Told(s.log, i) == Due(i, s.tasks[i].phase)
    requires HostFinished(i, o) in Told(s.log, i)
    ensures Earned(s.tasks[i], s.store, o)
  {
  }

  /** At every moment, also after a write has landed behind a timeout or a panic: the store is its
      prior content plus at most one record for each host's key, never two for one key. */
  lemma AtMostOneRecordPerKey(c: Config, steps: seq<Step>)
    requires Runs(c, steps)
    ensures var s := After(c, steps);
            && Grows(c.prior, s.store)
            && (forall r, q :: 0 <= r < q < |s.records| ==> s.records[r].0 != s.records[q].0)
            && (forall r :: 0 <= r < |s.records| ==>
                  s.records[r].0 !in c.prior && s.records[r].0 in s.store && s.store[s.records[r].0] == s.records[r].1)
            && (forall k :: k in s.store && k !in c.prior ==> exists r :: 0 <= r < |s.records| && s.records[r] == (k, s.store[k]))
  {
    RunKeepsInv(c, steps);
    var s := After(c, steps);
    forall r | 0 <= r < |s.records|
      ensures s.records[r].0 !in c.prior && s.records[r].0 in s.store && s.store[s.records[r].0] == s.records[r].1
    {
      assert RecordOk(c, s, s.records[r]);
    }
    forall k | k in s.store && k !in c.prior
      ensures exists r :: 0 <= r < |s.records| && s.records[r] == (k, s.store[k])
    {
      assert (k, s.store[k]) in s.records;
    }
  }

  /** What is stored stays stored: a run interrupted anywhere keeps every result obtained before. */
  lemma {:induction false} StoredForGood(c: Config, steps: seq<Step>, n: nat)
    requires Runs(c, steps) && n <= |steps|
    ensures Runs(c, steps[..n])
    ensures Grows(After(c, steps[..n]).store, After(c, steps).store)
    decreases |steps|
  {
    if n == |steps| {
      assert steps[..n] == steps;
    } else {
      var before := steps[..|steps| - 1];
      assert before[..n] == steps[..n];
      StoredForGood(c, before, n);
      StoreGrows(c, After(c, before), steps[|steps| - 1]);
    }
  }

  lemma Extend(c: Config, steps: seq<Step>, step: Step)
    requires Runs(c, steps) && Enabled(c, After(c, steps), step)
    ensures Runs(c, steps + [step]) && After(c, steps + [step]) == Apply(c, After(c, steps), step)
  {
    hide Enabled, Apply, Init;
    assert (steps + [step])[..|steps|] == steps;
  }

  /** A run of one host to the point where its only scan succeeded and its write is in flight. */
  lemma ReachPersisting(host: HostId) returns (c: Config, steps: seq<Step>)
    ensures c == Config([host], 0, map[]) && Runs(c, steps)
    ensures After(c, steps) ==
      State([Task(5, Persisting, Some(9), Execute, Some(Execute), [ScanCall(9, Execute)], [Ok(7)], [PutCall(9, 7)], InFlight)],
            0, 1, map[5 := host], map[], [], [HostStarted(0)], [], [])
  {
    c := Config([host], 0, map[]);
    steps := [];
    assert After(c, steps).tasks == [Task(0, Unspawned, None, Probe, None, [], [], [], NotIssued)];
    Extend(c, steps, Spawn(5));
    steps := steps + [Spawn(5)];
    Extend(c, steps, Acquire(0));
    steps := steps + [Acquire(0)];
    Extend(c, steps, GenerateKey(0, 9));
    steps := steps + [GenerateKey(0, 9)];
    Extend(c, steps, Resolve(0, Execute));
    steps := steps + [Resolve(0, Execute)];
    Extend(c, steps, ScanReturns(0, Ok(7)));
    steps := steps + [ScanReturns(0, Ok(7))];
    var t := After(c, steps).tasks[0];
    assert t.scans == [ScanCall(9, Execute)] && t.answers == [Ok(7)] && t.puts == [PutCall(9, 7)];
    assert After(c, steps).tasks == [t] && After(c, steps).log == [HostStarted(0)];
  }

  /** `TimedOut` is no promise that nothing was persisted: there is a run in which the host is
      reported timed out and joined with an empty store, and its record lands only then. */
  lemma WriteLandsAfterTimeout(host: HostId) returns (c: Config, steps: seq<Step>)
    ensures Runs(c, steps) && Done(After(c, steps)) && Enabled(c, After(c, steps), WriteSettles(0, None))
    ensures After(c, steps).results == [HostResult(host, Execute, TimedOut)] && After(c, steps).records == []
    ensures Apply(c, After(c, steps), WriteSettles(0, None)).records == [(9, 7)]
  {
    c, steps := ReachTimedOut(host);
    var s := After(c, steps);
    Returns(c, s);
    Extend(c, steps, Release(0));
    steps := steps + [Release(0)];
    Extend(c, steps, Join(0, ""));
    steps := steps + [Join(0, "")];
  }

  lemma Returns(c: Config, s: State)
    requires |c.hosts| == |s.tasks| == s.spawned == 1 && s.tasks[0].phase == Finished(TimedOut)
    requires s.tasks[0].write.InFlight? && s.tasks[0].puts == [PutCall(9, 7)] && 9 !in s.store && s.records == [] && s.results == []
    ensures Enabled(c, s, Release(0))
    ensures var r := Apply(c, s, Release(0));
      && Enabled(c, r, Join(0, ""))
      && var j := Apply(c, r, Join(0, ""));
         && Done(j) && Enabled(c, j, WriteSettles(0, None)) && j.records == []
         && j.results == [HostResult(c.hosts[0], s.tasks[0].cell, TimedOut)]
         && Apply(c, j, WriteSettles(0, None)).records == [(9, 7)]
  {
  }

  lemma ReachTimedOut(host: HostId) returns (c: Config, steps: seq<Step>)
    ensures c == Config([host], 0, map[]) && Runs(c, steps)
    ensures After(c, steps) ==
      State([Task(5, Finished(TimedOut), Some(9), Execute, Some(Execute), [ScanCall(9, Execute)], [Ok(7)], [PutCall(9, 7)], InFlight)],
            0, 1, map[5 := host], map[], [], [HostStarted(0), HostFinished(0, TimedOut)], [], [])
  {
    c, steps := ReachPersisting(host);
    var s := After(c, steps);
    Expires(c, s);
    hide Enabled, Apply;
    Extend(c, steps, Expire(0));
    steps := steps + [Expire(0)];
  }

  lemma Expires(c: Config, s: State)
    requires |c.hosts| == |s.tasks| == 1 && s.tasks[0].phase.Persisting?
    ensures Enabled(c, s, Expire(0))
    ensures Apply(c, s, Expire(0)) ==
      s.(tasks := [s.tasks[0].(phase := Finished(TimedOut))], log := s.log + [HostFinished(0, TimedOut)])
  {
    var t := Apply(c, s, Expire(0)).tasks;
    assert t == [t[0]];
  }

  predicate HasEnded(p: Phase) {
    p.Finished? || p.Returned? || p.Unwound? || p.Joined?
  }

  /** The store holds a record this run wrote under the task's key. */
  predicate HasRecord(s: State, t: Task) {
    exists r :: r in s.records && t.key == Some(r.0)
  }

  /** An ended task stays ended, keeps its key, issues nothing more, and only a write in flight still settles. */
  lemma EndedStays(c: Config, s: State, step: Step, i: nat)
    requires Enabled(c, s, step) && i < |s.tasks| && HasEnded(s.tasks[i].phase)
    ensures i < |Apply(c, s, step).tasks|
    ensures var t, u := s.tasks[i], Apply(c, s, step).tasks[i];
      HasEnded(u.phase) && u.key == t.key && (t.write.InFlight? || u.write == t.write)
  {
    hide Shared;
  }

  lemma {:induction false} EndedStaysLong(c: Config, steps: seq<Step>, more: seq<Step>, i: nat)
    requires Runs(c, steps) && i < |After(c, steps).tasks| && HasEnded(After(c, steps).tasks[i].phase)
    requires Runs(c, steps + more) && !After(c, steps).tasks[i].write.InFlight?
    ensures i < |After(c, steps + more).tasks|
    ensures var t, u := After(c, steps).tasks[i], After(c, steps + more).tasks[i];
      HasEnded(u.phase) && u.key == t.key && u.write == t.write
    decreases |more|
  {
    hide Enabled, Shared, Moved;
    if more == [] {
      assert steps + more == steps;
    } else {
      var n := |more| - 1;
      var all := steps + more;
      assert all[..|all| - 1] == steps + more[..n] && all[|all| - 1] == more[n];
      EndedStaysLong(c, steps, more[..n], i);
      EndedStays(c, After(c, steps + more[..n]), more[n], i);
    }
  }

  /** Keys tell tasks apart, so a task's record is its own write, landed. */
  lemma RecordMeansLanded(c: Config, s: State, i: nat)
    requires TasksOk(s) && KeysOk(c, s) && StoreOk(c, s) && i < |s.tasks| && HasRecord(s, s.tasks[i])
    ensures s.tasks[i].write.Landed?
  {
    hide PhaseOk, Grows, RetriedOnly;
    var r :| r in s.records && s.tasks[i].key == Some(r.0);
    assert RecordOk(c, s, r);
    var j :| 0 <= j < |s.tasks| && s.tasks[j].puts == [PutCall(r.0, r.1)] && s.tasks[j].write.Landed?;
    assert TaskOk(s.tasks[j], s.store);
    assert s.tasks[j].puts[0].key == r.0 && s.tasks[j].key == s.tasks[i].key;
  }

  lemma LandedMeansRecord(c: Config, s: State, i: nat)
    requires TasksOk(s) && KeysOk(c, s) && StoreOk(c, s) && i < |s.tasks| && s.tasks[i].write.Landed?
    ensures HasRecord(s, s.tasks[i])
  {
    var t := s.tasks[i];
    assert TaskOk(t, s.store);
    var k := t.puts[0].key;
    assert t.key == Some(k) && (k, s.store[k]) in s.records;
  }

  ghost predicate CanGetRecord(c: Config, steps: seq<Step>, i: nat)
    requires Runs(c, steps) && i < |After(c, steps).tasks|
  {
    exists more :: Runs(c, steps + more) && HasRecord(After(c, steps + more), After(c, steps).tasks[i])
  }

  lemma Settles(c: Config, steps: seq<Step>, i: nat)
    requires Runs(c, steps) && i < |After(c, steps).tasks| && After(c, steps).tasks[i].write.InFlight?
    ensures Runs(c, steps + [WriteSettles(i, None)])
    ensures var t := After(c, steps + [WriteSettles(i, None)]).tasks;
      i < |t| && t[i].write.Landed? && t[i].key == After(c, steps).tasks[i].key
  {
    RunKeepsInv(c, steps);
    LandsNow(c, After(c, steps), i);
    hide Inv, Enabled, Apply;
    Extend(c, steps, WriteSettles(i, None));
  }

  lemma LandsNow(c: Config, s: State, i: nat)
    requires Inv(c, s) && i < |s.tasks| && s.tasks[i].write.InFlight?
    ensures Enabled(c, s, WriteSettles(i, None))
    ensures var t := Apply(c, s, WriteSettles(i, None)).tasks; i < |t| && t[i].write.Landed? && t[i].key == s.tasks[i].key
  {
    hide StoreOk, KeysOk, PermitsOk, LogOk, PhaseOk;
    assert TaskOk(s.tasks[i], s.store);
  }

  /** Once a host is reported, as timed out or otherwise, its record is in the store or can still appear in some
      continuation exactly when its write is in flight or has landed. */
  lemma RecordCanAppearExactlyWhen(c: Config, steps: seq<Step>, i: nat)
    requires Runs(c, steps) && i < |After(c, steps).tasks| && HasEnded(After(c, steps).tasks[i].phase)
    ensures CanGetRecord(c, steps, i)
       <==> After(c, steps).tasks[i].write.InFlight? || After(c, steps).tasks[i].write.Landed?
  {
    hide Enabled, Apply, TasksOk, KeysOk, StoreOk, HasRecord;
    var t := After(c, steps).tasks[i];
    RunKeepsInv(c, steps);
    if t.write.Landed? {
      LandedMeansRecord(c, After(c, steps), i);
      assert steps + [] == steps;
    } else if t.write.InFlight? {
      Settles(c, steps, i);
      var more := [WriteSettles(i, None)];
      RunKeepsInv(c, steps + more);
      LandedMeansRecord(c, After(c, steps + more), i);
      SameKeySameRecord(After(c, steps + more), After(c, steps + more).tasks[i], t);
    } else if CanGetRecord(c, steps, i) {
      var more :| Runs(c, steps + more) && HasRecord(After(c, steps + more), t);
      EndedStaysLong(c, steps, more, i);
      RunKeepsInv(c, steps + more);
      SameKeySameRecord(After(c, steps + more), t, After(c, steps + more).tasks[i]);
      RecordMeansLanded(c, After(c, steps + more), i);
    }
  }

  lemma SameKeySameRecord(s: State, t: Task, u: Task)
    requires HasRecord(s, t) && t.key == u.key
    ensures HasRecord(s, u)
  {
  }

  // ----- progress -----

  function Rank(t: Task): nat {
    (match t.phase
     case Unspawned => 16
     case Waiting => 15
     case Starting => 14
     case Resolving => 13
     case Scanning(a) => if a < MAX_ATTEMPTS then 12 - 2 * a else 7
     case BackingOff(a) => if a < MAX_ATTEMPTS then 11 - 2 * a else 7
     case Persisting => 4
     case Finished(_) => 3
     case Returned(_) => 2
     case Unwound => 2
     case Joined(_, _) => 1)
    + (if t.write.InFlight? then 1 else 0) - 1
  }

  lemma MoverRankDrops(c: Config, s: State, step: Step)
    requires Enabled(c, s, step) && TaskOk(s.tasks[Mover(s, step)], s.store)
    ensures Rank(Moved(c, s, step)) < Rank(s.tasks[Mover(s, step)])
  {
  }

  /** No run goes on for ever: whatever the scheduler, scanners, store, timeouts and panics do, a
      run takes at most fifteen steps a host. */
  lemma {:induction false} RunsEnd(c: Config, steps: seq<Step>)
    requires Runs(c, steps)
    ensures |steps| + Total(After(c, steps).tasks, Rank) <= 15 * |c.hosts|
    decreases |steps|
  {
    if steps == [] {
      TotalOfEqual(Init(c).tasks, Rank, 15);
    } else {
      var before := steps[..|steps| - 1];
      var s := After(c, before);
      var step := steps[|steps| - 1];
      RunsEnd(c, before);
      RunKeepsInv(c, before);
      MoverRankDrops(c, s, step);
      TotalUpdate(s.tasks, Mover(s, step), Moved(c, s, step), Rank);
    }
  }

  /** The steps that need nobody's cooperation: no scanner or store has to answer, nothing has to
      panic. A timeout is one of them, for it always fires in the end. */
  predicate SelfDriven(step: Step) {
    step.Spawn? || step.Acquire? || step.GenerateKey? || step.Expire? || step.Release? || step.Join?
  }

  lemma FreshNat(s: set<nat>) returns (k: nat)
    ensures k !in s && forall x :: x in s ==> x < k
  {
    if s == {} {
      k := 0;
    } else {
      var x :| x in s;
      var l := FreshNat(s - {x});
      k := if l <= x then x + 1 else l;
      forall y | y in s ensures y < k {
        if y != x { assert y in s - {x}; }
      }
    }
  }

  lemma FreshKey(s: State) returns (k: Key)
    ensures !UsedKey(s, k)
  {
    var held := set j | 0 <= j < |s.tasks| && s.tasks[j].key.Some? :: s.tasks[j].key.value;
    k := FreshNat(s.store.Keys + held);
    assert forall j :: 0 <= j < |s.tasks| && s.tasks[j].key.Some? ==> s.tasks[j].key.value in held;
  }

  /** A permit is free as soon as nobody holds one. */
  lemma {:induction false} SomeoneHolds(ts: seq<Task>) returns (i: nat)
    requires Total(ts, Held) > 0
    ensures i < |ts| && HoldsPermit(ts[i].phase)
  {
    var n := |ts| - 1;
    if HoldsPermit(ts[n].phase) {
      i := n;
    } else {
      i := SomeoneHolds(ts[..n]);
    }
  }

  lemma HolderMoves(c: Config, s: State, i: nat) returns (step: Step)
    requires SpawnedOk(c, s) && i < |s.tasks| && HoldsPermit(s.tasks[i].phase)
    ensures SelfDriven(step) && Enabled(c, s, step)
  {
    if s.tasks[i].phase.Starting? {
      var k := FreshKey(s);
      step := GenerateKey(i, k);
    } else if s.tasks[i].phase.Finished? {
      step := Release(i);
    } else {
      step := Expire(i);
    }
  }

  lemma SelfDrivenStep(c: Config, s: State) returns (step: Step)
    requires Inv(c, s) && !Done(s)
    ensures SelfDriven(step) && Enabled(c, s, step)
  {
    if s.spawned < |s.tasks| {
      var tid := FreshNat(s.hostIds.Keys);
      step := Spawn(tid);
    } else {
      var i :| 0 <= i < |s.tasks| && !s.tasks[i].phase.Joined?;
      var p := s.tasks[i].phase;
      if p.Waiting? {
        if s.free > 0 {
          step := Acquire(i);
        } else {
          var h := SomeoneHolds(s.tasks);
          step := HolderMoves(c, s, h);
        }
      } else if p.Returned? || p.Unwound? {
        step := Join(i, "");
      } else {
        step := HolderMoves(c, s, i);
      }
    }
  }

  /** No reachable state is stuck, even when no scanner and no store ever answers: until every entry
      has its result, some self-driven step is enabled. */
  lemma NeverStuck(c: Config, steps: seq<Step>) returns (step: Step)
    requires Runs(c, steps) && !Done(After(c, steps))
    ensures SelfDriven(step) && Runs(c, steps + [step])
  {
    RunKeepsInv(c, steps);
    step := SelfDrivenStep(c, After(c, steps));
    Extend(c, steps, step);
  }

  /** The orchestrator itself: keeps taking steps until the join set is empty. `scheduler` stands for
      everything outside its control; a proposal that is not possible in the current state is passed
      over for a self-driven step. It returns for every scheduler, with a finished run. */
  method RunFanout(c: Config, scheduler: State -> Step) returns (results: seq<HostResult>, ghost steps: seq<Step>)
    ensures Runs(c, steps) && Done(After(c, steps)) && results == After(c, steps).results
    ensures |results| == |c.hosts|
  {
    var s := Init(c);
    steps := [];
    InitOk(c);
    TotalOfEqual(s.tasks, Rank, 15);
    while !Done(s)
      invariant Runs(c, steps) && s == After(c, steps) && Inv(c, s)
      decreases Total(s.tasks, Rank)
    {
      var step := scheduler(s);
      if !Enabled(c, s, step) {
        step := NextSelfDriven(c, s);
      }
      StepTaken(c, steps, step);
      steps := steps + [step];
      s := Apply(c, s, step);
    }
    EveryEntryAnsweredOnce(c, steps);
    results := s.results;
  }

  lemma StepTaken(c: Config, steps: seq<Step>, step: Step)
    requires Runs(c, steps) && Inv(c, After(c, steps)) && Enabled(c, After(c, steps), step)
    ensures var s := After(c, steps);
            && Runs(c, steps + [step]) && After(c, steps + [step]) == Apply(c, s, step)
            && Inv(c, Apply(c, s, step))
            && Total(Apply(c, s, step).tasks, Rank) < Total(s.tasks, Rank)
  {
    var s := After(c, steps);
    assert TaskOk(s.tasks[Mover(s, step)], s.store);
    MoverRankDrops(c, s, step);
    TotalUpdate(s.tasks, Mover(s, step), Moved(c, s, step), Rank);
    StepKeepsInv(c, s, step);
    Extend(c, steps, step);
  }

  method NextSelfDriven(c: Config, s: State) returns (step: Step)
    requires Inv(c, s) && !Done(s)
    ensures SelfDriven(step) && Enabled(c, s, step)
  {
    ghost var possible := SelfDrivenStep(c, s);
    step :| SelfDriven(step) && Enabled(c, s, step);
  }
}
