/**
 The fan-out over an inventory as a state machine: N spawned host tasks compete for permits,
 each resolves a strategy, retries scan-then-persist under one key, may be cut off by its
 timeout or unwind from a panic, and a collector joins them in any order. Every choice the
 code does not make itself (which task moves, what a scanner or the store answers, when a
 timeout fires or a task panics) is a parameter of the step.
 */
module Fanout {
  import opened Strategies
  import opened Wrappers

  // Identifiers are opaque UUIDs in the source; only equality matters.
  type HostId = nat
  type Key = nat
  type ScanId = nat
  type TaskId = nat

  const MAX_ATTEMPTS: nat := 3

  datatype HostError =
    | Timeout
    | Retryable(reason: string)
    | Fatal(reason: string)
    | Panicked(reason: string)
    | Store(reason: string)

  datatype Outcome = Succeeded(id: ScanId) | Failed(error: HostError) | TimedOut

  datatype HostResult = HostResult(host: HostId, strategyUsed: TargetStrategy, outcome: Outcome)

  /** What the progress reporter is told. */
  datatype Event = HostStarted(entry: nat) | HostFinished(entry: nat, outcome: Outcome)

  datatype ScanCall = ScanCall(key: Key, strategy: TargetStrategy)

  /** One `put`; the snapshot is named by its scan id. */
  datatype PutCall = PutCall(key: Key, snapshot: ScanId)

  /** The blocking write behind a `put`. It lives on its own thread: the host task that issued it
      may be gone by the time it settles. */
  datatype Write = NotIssued | InFlight | Landed(id: ScanId) | Rejected(reason: string)

  datatype Phase =
    | Unspawned
    | Waiting
    | Starting
    | Resolving
    | Scanning(attempt: nat)
    | BackingOff(attempt: nat)
    | Persisting
    | Finished(outcome: Outcome)                  // reported, permit still held
    | Returned(outcome: Outcome)                  // permit dropped, waiting to be joined
    | Unwound                                     // panicked, waiting to be joined
    | Joined(outcome: Outcome, panicked: bool)

  datatype Task = Task(
    tid: TaskId,
    phase: Phase,
    key: Option<Key>,
    cell: TargetStrategy,                               // the mutex outside the cancellable future
    resolved: Option<TargetStrategy>,                   // what `resolve_strategy` answered, if it has
    scans: seq<ScanCall>,
    answers: seq<Result<ScanId, HostError>>,
    puts: seq<PutCall>,
    write: Write)

  datatype Config = Config(hosts: seq<HostId>, concurrency: nat, prior: map<Key, ScanId>)

  datatype State = State(
    tasks: seq<Task>,
    free: nat,
    spawned: nat,
    hostIds: map<TaskId, HostId>,
    store: map<Key, ScanId>,
    records: seq<(Key, ScanId)>,                  // records written by this run, in order
    log: seq<Event>,
    results: seq<HostResult>,
    joined: seq<nat>)                             // the entry each result belongs to

  datatype Step =
    | Spawn(tid: TaskId)
    | Acquire(i: nat)
    | GenerateKey(i: nat, key: Key)
    | Resolve(i: nat, strategy: TargetStrategy)
    | ScanReturns(i: nat, answer: Result<ScanId, HostError>)
    | Wake(i: nat)
    | WriteSettles(i: nat, failure: Option<string>)
    | PutReturns(i: nat)
    | Expire(i: nat)
    | Panic(i: nat)
    | Release(i: nat)
    | Join(i: nat, reason: string)

  function Permits(c: Config): nat {
    if c.concurrency < 1 then 1 else c.concurrency
  }

  function Init(c: Config): State {
    State(seq(|c.hosts|, i => Task(0, Unspawned, None, Probe, None, [], [], [], NotIssued)),
          Permits(c), 0, map[], c.prior, [], [], [], [])
  }

  // ----- the steps -----

  /** Keys handed out so far; UUID v4 generation never repeats one of these. */
  predicate UsedKey(s: State, k: Key) {
    k in s.store || exists j :: 0 <= j < |s.tasks| && s.tasks[j].key == Some(k)
  }

  predicate Cancellable(p: Phase) {
    p.Resolving? || p.Scanning? || p.BackingOff? || p.Persisting?
  }

  predicate Enabled(c: Config, s: State, step: Step) {
    if step.Spawn? then
      s.spawned < |s.tasks| && s.tasks[s.spawned].phase.Unspawned? && step.tid !in s.hostIds && s.spawned < |c.hosts|
    else
      && step.i < |s.tasks| && step.i < |c.hosts|
      && var t := s.tasks[step.i];
      match step
      case Acquire(_) => t.phase.Waiting? && s.free > 0
      case GenerateKey(_, k) => t.phase.Starting? && !UsedKey(s, k)
      case Resolve(_, _) => t.phase.Resolving? && t.key.Some?
      case ScanReturns(_, answer) => t.phase.Scanning? && t.key.Some?
      case Wake(_) => t.phase.BackingOff? && t.key.Some?
      case WriteSettles(_, _) => t.write.InFlight? && t.puts != []
      case PutReturns(_) => t.phase.Persisting? && (t.write.Landed? || t.write.Rejected?)
      case Expire(_) => Cancellable(t.phase)
      case Panic(_) => t.phase.Starting? || Cancellable(t.phase)
      case Release(_) => t.phase.Finished?
      case Join(_, _) => s.spawned == |s.tasks| && (t.phase.Returned? || t.phase.Unwound?)
  }

  /** The entry a step moves. */
  function Mover(s: State, step: Step): nat {
    if step.Spawn? then s.spawned else step.i
  }

  function OutcomeOf(r: Result<ScanId, HostError>): Outcome {
    match r
    case Ok(id) => Succeeded(id)
    case Err(Timeout) => TimedOut
    case Err(e) => Failed(e)
  }

  /** `with_retry` and `attempt_scan` on one scan answer: persist a success, back off after a
      retryable error while attempts remain, and end on anything else. */
  function Answered(t: Task, answer: Result<ScanId, HostError>): Task
    requires t.phase.Scanning? && t.key.Some?
  {
    var u := t.(answers := t.answers + [answer]);
    match answer
    case Ok(snapshot) =>
      u.(phase := Persisting, puts := t.puts + [PutCall(t.key.value, snapshot)], write := InFlight)
    case Err(e) =>
      if e.Retryable? && t.phase.attempt + 1 < MAX_ATTEMPTS then u.(phase := BackingOff(t.phase.attempt))
      else u.(phase := Finished(OutcomeOf(answer)))
  }

  /** The store's contract: a key already used returns the earlier id and writes nothing. */
  function Settled(t: Task, store: map<Key, ScanId>, failure: Option<string>): Write
    requires t.puts != []
  {
    var put := t.puts[|t.puts| - 1];
    if failure.Some? then Rejected(failure.value)
    else Landed(if put.key in store then store[put.key] else put.snapshot)
  }

  function Reissue(t: Task, attempt: nat, strategy: TargetStrategy): Task
    requires t.key.Some?
  {
    t.(phase := Scanning(attempt), scans := t.scans + [ScanCall(t.key.value, strategy)])
  }

  /** What a step makes of the task it moves. */
  function Moved(c: Config, s: State, step: Step): Task
    requires Enabled(c, s, step)
  {
    var t := s.tasks[Mover(s, step)];
    match step
    case Spawn(tid) => t.(tid := tid, phase := Waiting)
    case Acquire(_) => t.(phase := Starting)
    case GenerateKey(_, k) => t.(phase := Resolving, key := Some(k))
    case Resolve(_, strategy) => Reissue(t, 0, strategy).(cell := strategy, resolved := Some(strategy))
    case ScanReturns(_, answer) => Answered(t, answer)
    case Wake(_) => Reissue(t, t.phase.attempt + 1, t.cell)
    case WriteSettles(_, failure) => t.(write := Settled(t, s.store, failure))
    case PutReturns(_) =>
      t.(phase := Finished(OutcomeOf(if t.write.Landed? then Ok(t.write.id) else Err(Store(t.write.reason)))))
    case Expire(_) => t.(phase := Finished(TimedOut))
    case Panic(_) => t.(phase := Unwound)
    case Release(_) => t.(phase := Returned(t.phase.outcome))
    case Join(_, reason) =>
      if t.phase.Returned? then t.(phase := Joined(t.phase.outcome, false))
      else t.(phase := Joined(Failed(Panicked(reason)), true))
  }

  /** `join_next_with_id`: a returned task hands over its result; a panicked one is looked up by
      task id, and would be dropped silently if the lookup failed. */
  function Collected(c: Config, s: State, i: nat, o: Outcome): State
    requires i < |s.tasks| && i < |c.hosts|
  {
    var t := s.tasks[i];
    if t.phase.Returned? then
      s.(results := s.results + [HostResult(c.hosts[i], t.cell, o)], joined := s.joined + [i])
    else if t.tid in s.hostIds then
      s.(log := s.log + [HostFinished(i, o)],
         results := s.results + [HostResult(s.hostIds[t.tid], Probe, o)],
         joined := s.joined + [i])
    else s
  }

  /** A landed write under a new key adds one record. */
  function Recorded(s: State, i: nat, failure: Option<string>): State
    requires i < |s.tasks| && s.tasks[i].puts != []
  {
    var put := s.tasks[i].puts[|s.tasks[i].puts| - 1];
    if failure.Some? || put.key in s.store then s
    else s.(store := s.store[put.key := put.snapshot], records := s.records + [(put.key, put.snapshot)])
  }

  /** What a step makes of everything shared between the tasks. */
  function Shared(c: Config, s: State, step: Step): State
    requires Enabled(c, s, step)
  {
    match step
    case Spawn(tid) => s.(spawned := s.spawned + 1, hostIds := s.hostIds[tid := c.hosts[s.spawned]])
    case Acquire(i) => s.(free := s.free - 1, log := s.log + [HostStarted(i)])
    case WriteSettles(i, failure) => Recorded(s, i, failure)
    case Panic(_) => s.(free := s.free + 1)
    case Release(_) => s.(free := s.free + 1)
    case Join(i, _) => Collected(c, s, i, Moved(c, s, step).phase.outcome)
    case _ =>
      var p := Moved(c, s, step).phase;
      if p.Finished? then s.(log := s.log + [HostFinished(step.i, p.outcome)]) else s
  }

  function Apply(c: Config, s: State, step: Step): State
    requires Enabled(c, s, step)
  {
    Shared(c, s, step).(tasks := s.tasks[Mover(s, step) := Moved(c, s, step)])
  }

  /** A run: every step enabled where it is taken. */
  predicate Runs(c: Config, steps: seq<Step>)
    decreases |steps|, 0
  {
    steps == [] ||
    var before := steps[..|steps| - 1];
    Runs(c, before) && Enabled(c, After(c, before), steps[|steps| - 1])
  }

  /** The state a run ends in. */
  function After(c: Config, steps: seq<Step>): State
    requires Runs(c, steps)
    decreases |steps|, 1
  {
    if steps == [] then Init(c)
    else
      var before := steps[..|steps| - 1];
      Apply(c, After(c, before), steps[|steps| - 1])
  }

  predicate Done(s: State) {
    s.spawned == |s.tasks| && forall i :: 0 <= i < |s.tasks| ==> s.tasks[i].phase.Joined?
  }

  // ----- sums over tasks -----

  function Total(ts: seq<Task>, weight: Task -> nat): nat {
    if ts == [] then 0 else Total(ts[..|ts| - 1], weight) + weight(ts[|ts| - 1])
  }

  lemma {:induction false} TotalUpdate(ts: seq<Task>, i: nat, t: Task, weight: Task -> nat)
    requires i < |ts|
    ensures Total(ts[i := t], weight) + weight(ts[i]) == Total(ts, weight) + weight(t)
  {
    var n := |ts| - 1;
    if i == n {
      assert ts[i := t][..n] == ts[..n];
    } else {
      assert ts[i := t][..n] == ts[..n][i := t];
      TotalUpdate(ts[..n], i, t, weight);
    }
  }

  lemma {:induction false} TotalOfEqual(ts: seq<Task>, weight: Task -> nat, w: nat)
    requires forall i :: 0 <= i < |ts| ==> weight(ts[i]) == w
    ensures Total(ts, weight) == w * |ts|
  {
    if ts != [] {
      TotalOfEqual(ts[..|ts| - 1], weight, w);
    }
  }
}
