/**
 Which outcome a host is reported with, read off the steps of a run alone: what its scanner and the store answered,
 whether its timeout fired, whether it panicked.
 */
module FanoutOutcomes {
  import opened Strategies
  import opened Wrappers
  import opened Fanout
  import opened FanoutSafety
  import opened FanoutRuns

  /** What the steps of a run did to one entry. */
  datatype Past = Past(
    answers: seq<Result<ScanId, HostError>>,
    expired: bool,
    panicked: bool,
    putReturned: bool,
    settled: Option<Option<string>>,              // how its write settled: with no failure, or with this one
    joinReason: Option<string>)                   // what joining it said of a panic

  function Noted(p: Past, step: Step): Past {
    match step
    case ScanReturns(_, answer) => p.(answers := p.answers + [answer])
    case Expire(_) => p.(expired := true)
    case Panic(_) => p.(panicked := true)
    case PutReturns(_) => p.(putReturned := true)
    case WriteSettles(_, failure) => p.(settled := Some(failure))
    case Join(_, reason) => p.(joinReason := Some(reason))
    case _ => p
  }

  function PastOf(steps: seq<Step>, i: nat): Past {
    if steps == [] then Past([], false, false, false, None, None)
    else
      var before, last := PastOf(steps[..|steps| - 1], i), steps[|steps| - 1];
      if !last.Spawn? && last.i == i then Noted(before, last) else before
  }

  lemma {:induction false} PastMeans(steps: seq<Step>, i: nat)
    ensures PastOf(steps, i).expired <==> Expire(i) in steps
    ensures PastOf(steps, i).panicked <==> Panic(i) in steps
    ensures PastOf(steps, i).putReturned <==> PutReturns(i) in steps
  {
    if steps != [] {
      var before, last := steps[..|steps| - 1], steps[|steps| - 1];
      PastMeans(before, i);
      assert steps == before + [last];
    }
  }

  /** The last answer is an error that ends the host: any but a retryable one, or the last of all attempts. */
  predicate Decisive(answers: seq<Result<ScanId, HostError>>) {
    && answers != [] && answers[|answers| - 1].Err?
    && (answers[|answers| - 1].error.Retryable? ==> |answers| == MAX_ATTEMPTS)
  }

  predicate DecidedBy(answers: seq<Result<ScanId, HostError>>, e: HostError) {
    Decisive(answers) && answers[|answers| - 1] == Err(e)
  }

  function SettledOf(w: Write): Option<Option<string>> {
    match w
    case NotIssued => None
    case InFlight => None
    case Landed(_) => Some(None)
    case Rejected(reason) => Some(Some(reason))
  }

  /** Exactly one of three things ended the host's work without a panic. */
  predicate EndedAs(p: Past, t: Task, o: Outcome) {
    || (p.expired && !p.putReturned && !Decisive(p.answers) && o == TimedOut)
    || (p.putReturned && !p.expired && !Decisive(p.answers)
        && ((t.write.Landed? && o == Succeeded(t.write.id)) || (t.write.Rejected? && o == Failed(Store(t.write.reason)))))
    || (Decisive(p.answers) && !p.expired && !p.putReturned
        && var e := p.answers[|p.answers| - 1].error; o == if e.Timeout? then TimedOut else Failed(e))
  }

  predicate Unended(p: Past) {
    !p.expired && !p.putReturned && !Decisive(p.answers)
  }

  /** The task stands where its past has brought it. */
  predicate PastOk(p: Past, t: Task) {
    && t.answers == p.answers && p.settled == SettledOf(t.write)
    && (p.expired ==> t.key.Some?)
    && match t.phase
       case Finished(o) => !p.panicked && EndedAs(p, t, o)
       case Returned(o) => !p.panicked && EndedAs(p, t, o)
       case Unwound => p.panicked && Unended(p) && p.joinReason.None?
       case Joined(o, panicked) =>
         if panicked then p.panicked && Unended(p) && p.joinReason.Some? && o == Failed(Panicked(p.joinReason.value))
         else !p.panicked && EndedAs(p, t, o)
       case _ => !p.panicked && Unended(p) && p.joinReason.None?
  }

  lemma PastAnswered(t: Task, answer: Result<ScanId, HostError>, store: map<Key, ScanId>, p: Past)
    requires t.phase.Scanning? && t.key.Some? && TaskOk(t, store) && PastOk(p, t)
    ensures PastOk(p.(answers := p.answers + [answer]), Answered(t, answer))
  {
    hide RetriedOnly;
    assert t.puts == [];
  }

  /** Any other step of a task leaves its answers alone. */
  lemma PastGoesOn(c: Config, s: State, step: Step, p: Past)
    requires Enabled(c, s, step) && !step.ScanReturns? && TaskOk(s.tasks[Mover(s, step)], s.store)
    requires PastOk(p, s.tasks[Mover(s, step)])
    ensures PastOk(if step.Spawn? then p else Noted(p, step), Moved(c, s, step))
  {
    hide Shared, RetriedOnly, Decisive, Answered;
  }

  lemma PastMoves(c: Config, s: State, step: Step, p: Past)
    requires Enabled(c, s, step) && TaskOk(s.tasks[Mover(s, step)], s.store) && PastOk(p, s.tasks[Mover(s, step)])
    ensures PastOk(if step.Spawn? then p else Noted(p, step), Moved(c, s, step))
  {
    hide PastOk, TaskOk, Answered;
    if step.ScanReturns? {
      PastAnswered(s.tasks[step.i], step.answer, s.store, p);
    } else {
      PastGoesOn(c, s, step, p);
    }
  }

  lemma {:induction false} PastStays(c: Config, steps: seq<Step>, i: nat)
    requires Runs(c, steps) && i < |c.hosts|
    ensures i < |After(c, steps).tasks| && PastOk(PastOf(steps, i), After(c, steps).tasks[i])
    decreases |steps|
  {
    RunKeepsInv(c, steps);
    if steps != [] {
      var before, step := steps[..|steps| - 1], steps[|steps| - 1];
      PastStays(c, before, i);
      RunKeepsInv(c, before);
      var s := After(c, before);
      if Mover(s, step) == i {
        assert TaskOk(s.tasks[i], s.store);
        PastMoves(c, s, step, PastOf(before, i));
      }
    }
  }

  /** The outcome the steps call for. A timeout is reported when the host's own fired, or its scanner said so; a
      success when the put came back from a write without failure; an error when it was the last answer, or the
      store's failure once the put came back, or what joining a panicked task said. */
  predicate Calls(p: Past, t: Task, store: map<Key, ScanId>, o: Outcome) {
    match o
    case TimedOut => p.expired || DecidedBy(p.answers, Timeout)
    case Succeeded(id) => p.putReturned && p.settled == Some(None) && t.key.Some? && t.key.value in store && store[t.key.value] == id
    case Failed(e) =>
      || (e.Panicked? && p.panicked && p.joinReason == Some(e.reason))
      || (e.Store? && p.putReturned && p.settled == Some(Some(e.reason)))
      || (!e.Timeout? && DecidedBy(p.answers, e))
  }

  /** An outcome is reported exactly when the steps of the run call for it. */
  lemma OutcomeExactlyWhen(c: Config, steps: seq<Step>, i: nat, o: Outcome)
    requires Runs(c, steps) && i < |c.hosts|
    ensures var s := After(c, steps);
      i < |s.tasks| && (HostFinished(i, o) in s.log <==> Calls(PastOf(steps, i), s.tasks[i], s.store, o))
  {
    PastStays(c, steps, i);
    RunKeepsInv(c, steps);
    var s := After(c, steps);
    assert TaskOk(s.tasks[i], s.store) && Told(s.log, i) == Due(i, s.tasks[i].phase);
    ToldIs(s.log, HostFinished(i, o));
    TaskReports(PastOf(steps, i), s.tasks[i], s.store, i, o);
  }

  lemma TaskReports(p: Past, t: Task, store: map<Key, ScanId>, i: nat, o: Outcome)
    requires PastOk(p, t) && TaskOk(t, store)
    ensures HostFinished(i, o) in Due(i, t.phase) <==> Calls(p, t, store, o)
  {
    hide PhaseOk, RetriedOnly;
  }

  lemma {:induction false} ToldIs(log: seq<Event>, e: Event)
    ensures e in Told(log, EntryOf(e)) <==> e in log
  {
    if log != [] {
      var before, last := log[..|log| - 1], log[|log| - 1];
      ToldIs(before, e);
      assert log == before + [last];
    }
  }

  /** Nothing but the code's own order restrains the outside: a resolution or a scan may answer anything, a write may
      settle either way, also behind its host's back, a put returns once its write has settled, and a host at work may
      panic at any time or, from its resolution on, be timed out. */
  lemma OutsideIsFree(c: Config, steps: seq<Step>, i: nat, strategy: TargetStrategy, answer: Result<ScanId, HostError>,
                      failure: Option<string>)
    requires Runs(c, steps) && i < |After(c, steps).tasks|
    ensures var t := After(c, steps).tasks[i];
      && (t.phase.Resolving? ==> Runs(c, steps + [Resolve(i, strategy)]))
      && (t.phase.Scanning? ==> Runs(c, steps + [ScanReturns(i, answer)]))
      && (t.phase.BackingOff? ==> Runs(c, steps + [Wake(i)]))
      && (t.write.InFlight? ==> Runs(c, steps + [WriteSettles(i, failure)]))
      && (t.phase.Persisting? && !t.write.InFlight? ==> Runs(c, steps + [PutReturns(i)]))
      && (HoldsPermit(t.phase) && !t.phase.Finished? ==> Runs(c, steps + [Panic(i)]))
      && (HoldsPermit(t.phase) && !t.phase.Finished? && !t.phase.Starting? ==> Runs(c, steps + [Expire(i)]))
  {
    RunKeepsInv(c, steps);
    var s := After(c, steps);
    assert TaskOk(s.tasks[i], s.store);
    OutsideEnabled(c, s, i, strategy, answer, failure);
    hide Enabled, TaskOk, Inv, After, Runs;
    forall step | Enabled(c, s, step) ensures Runs(c, steps + [step]) {
      Extend(c, steps, step);
    }
  }

  lemma OutsideEnabled(c: Config, s: State, i: nat, strategy: TargetStrategy, answer: Result<ScanId, HostError>, failure: Option<string>)
    requires i < |s.tasks| == |c.hosts| && TaskOk(s.tasks[i], s.store)
    ensures var t := s.tasks[i];
      && (t.phase.Resolving? ==> Enabled(c, s, Resolve(i, strategy)))
      && (t.phase.Scanning? ==> Enabled(c, s, ScanReturns(i, answer)))
      && (t.phase.BackingOff? ==> Enabled(c, s, Wake(i)))
      && (t.write.InFlight? ==> Enabled(c, s, WriteSettles(i, failure)))
      && (t.phase.Persisting? && !t.write.InFlight? ==> Enabled(c, s, PutReturns(i)))
      && (HoldsPermit(t.phase) && !t.phase.Finished? ==> Enabled(c, s, Panic(i)))
      && (HoldsPermit(t.phase) && !t.phase.Finished? && !t.phase.Starting? ==> Enabled(c, s, Expire(i)))
  {
  }

  /** A timeout can only fire once the host has its key: what comes before is outside its budget. */
  lemma TimeoutsCoverTheBudget(c: Config, steps: seq<Step>, i: nat)
    requires Runs(c, steps) && i < |c.hosts| && Expire(i) in steps
    ensures i < |After(c, steps).tasks| && After(c, steps).tasks[i].key.Some?
  {
    PastStays(c, steps, i);
    PastMeans(steps, i);
  }

  /** Nothing is collected before every host has been spawned. */
  lemma {:induction false} CollectsAfterSpawning(c: Config, steps: seq<Step>)
    requires Runs(c, steps) && After(c, steps).results != []
    ensures After(c, steps).spawned == |c.hosts|
    decreases |steps|
  {
    RunKeepsInv(c, steps);
    if steps != [] {
      var before, step := steps[..|steps| - 1], steps[|steps| - 1];
      RunKeepsInv(c, before);
      if After(c, before).results != [] {
        CollectsAfterSpawning(c, before);
      }
      SpawnedOrCollected(c, After(c, before), step);
    }
  }

  lemma SpawnedOrCollected(c: Config, s: State, step: Step)
    requires Enabled(c, s, step)
    ensures Shared(c, s, step).results == s.results || s.spawned == |s.tasks|
    ensures Shared(c, s, step).spawned == s.spawned || s.spawned < |s.tasks|
    ensures Shared(c, s, step).spawned >= s.spawned
  {
  }
}
