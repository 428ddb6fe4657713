/**
 The fan-out with a clock. Only the per-host budget consumes time: every other step is instant, so
 the clock moves only while each host is waiting for a permit nobody has free, working within its
 budget, or done. Times are in milliseconds; `budget` is the per-host timeout.
 */
module FanoutTiming {
  import opened Arithmetic
  import opened Fanout
  import opened FanoutSafety
  import opened FanoutRuns

  /** `order` lists the entries in the order they got their permit, `began` and `ended` when each
      got it and when its outcome (or panic) ended its work. */
  datatype Timed = Timed(s: State, now: nat, order: seq<nat>, began: map<nat, nat>, ended: map<nat, nat>)

  datatype TimedStep = Do(step: Step) | Tick(d: nat)

  predicate HasStarted(p: Phase) {
    !p.Unspawned? && !p.Waiting?
  }

  function Start(c: Config): Timed {
    Timed(Init(c), 0, [], map[], map[])
  }

  predicate MayPass(x: Timed, budget: nat, d: nat) {
    && x.s.spawned == |x.s.tasks|
    && forall i :: 0 <= i < |x.s.tasks| ==>
         var p := x.s.tasks[i].phase;
         && (p.Waiting? ==> x.s.free == 0)
         && !p.Starting? && !p.Finished?
         && (Cancellable(p) ==> i in x.began && x.now + d <= x.began[i] + budget)
  }

  predicate TimedEnabled(c: Config, budget: nat, x: Timed, t: TimedStep) {
    match t
    case Tick(d) => d > 0 && MayPass(x, budget, d)
    case Do(step) =>
      && Enabled(c, x.s, step)
      && (step.Expire? ==> step.i in x.began && x.began[step.i] + budget <= x.now)
  }

  function TimedApply(c: Config, budget: nat, x: Timed, t: TimedStep): Timed
    requires TimedEnabled(c, budget, x, t)
  {
    match t
    case Tick(d) => x.(now := x.now + d)
    case Do(step) =>
      var m := Mover(x.s, step);
      var p := Moved(c, x.s, step).phase;
      var x' := x.(s := Apply(c, x.s, step));
      if step.Acquire? then x'.(order := x.order + [m], began := x.began[m := x.now])
      else if HasEnded(p) && !HasEnded(x.s.tasks[m].phase) then x'.(ended := x.ended[m := x.now])
      else x'
  }

  predicate TimedRuns(c: Config, budget: nat, steps: seq<TimedStep>)
    decreases |steps|, 0
  {
    steps == [] ||
    var before := steps[..|steps| - 1];
    TimedRuns(c, budget, before) && TimedEnabled(c, budget, TimedAfter(c, budget, before), steps[|steps| - 1])
  }

  function TimedAfter(c: Config, budget: nat, steps: seq<TimedStep>): Timed
    requires TimedRuns(c, budget, steps)
    decreases |steps|, 1
  {
    if steps == [] then Start(c)
    else
      var before := steps[..|steps| - 1];
      TimedApply(c, budget, TimedAfter(c, budget, before), steps[|steps| - 1])
  }

  // ----- rounds -----

  /** The moment by which the r-th host (counting from 0) to get a permit must have it. */
  function Round(c: Config, budget: nat, r: nat): nat {
    r / Permits(c) * budget
  }

  lemma RoundMonotone(c: Config, budget: nat, r: nat, q: nat)
    requires r <= q
    ensures Round(c, budget, r) <= Round(c, budget, q)
  {
    DivMonotone(r, q, Permits(c));
    MulMonotone(r / Permits(c), q / Permits(c), budget);
  }

  lemma NextRound(c: Config, budget: nat, r: nat)
    ensures Round(c, budget, r + Permits(c)) == Round(c, budget, r) + budget
  {
    DivNext(r, Permits(c));
  }

  // ----- who holds a permit, by rank -----

  function HeldIn(ts: seq<Task>, order: seq<nat>): nat
    requires forall k :: 0 <= k < |order| ==> order[k] < |ts|
  {
    if order == [] then 0 else HeldIn(ts, order[..|order| - 1]) + Held(ts[order[|order| - 1]])
  }

  lemma {:induction false} HeldInUpdate(ts: seq<Task>, order: seq<nat>, i: nat, t: Task)
    requires (forall k :: 0 <= k < |order| ==> order[k] < |ts|) && i < |ts|
    requires forall k, l :: 0 <= k < l < |order| ==> order[k] != order[l]
    ensures HeldIn(ts[i := t], order) + (if i in order then Held(ts[i]) else 0)
         == HeldIn(ts, order) + (if i in order then Held(t) else 0)
  {
    if order != [] {
      var n := |order| - 1;
      HeldInUpdate(ts, order[..n], i, t);
      assert order == order[..n] + [order[n]];
    }
  }

  /** If at least n of the started hosts hold permits, one of them is among the first ranks. */
  lemma {:induction false} EarlyHolder(ts: seq<Task>, order: seq<nat>, n: nat) returns (r: nat)
    requires forall k :: 0 <= k < |order| ==> order[k] < |ts|
    requires HeldIn(ts, order) >= n >= 1
    ensures r + n <= |order| && HoldsPermit(ts[order[r]].phase)
  {
    var last := |order| - 1;
    if HeldIn(ts, order[..last]) >= n {
      r := EarlyHolder(ts, order[..last], n);
    } else if n == 1 {
      r := last;
    } else {
      r := EarlyHolder(ts, order[..last], n - 1);
    }
  }

  function StartedCount(t: Task): nat {
    if HasStarted(t.phase) then 1 else 0
  }

  lemma {:induction false} TotalAtMost(ts: seq<Task>)
    ensures Total(ts, StartedCount) <= |ts|
  {
    if ts != [] {
      TotalAtMost(ts[..|ts| - 1]);
    }
  }

  // ----- the timed invariant -----

  predicate OrderShape(x: Timed) {
    && (forall k :: 0 <= k < |x.order| ==> x.order[k] < |x.s.tasks|)
    && (forall k, l :: 0 <= k < l < |x.order| ==> x.order[k] != x.order[l])
    && |x.order| == Total(x.s.tasks, StartedCount)
    && HeldIn(x.s.tasks, x.order) == Total(x.s.tasks, Held)
  }

  predicate Booked(x: Timed, i: nat)
    requires i < |x.s.tasks|
  {
    && (i in x.order <==> HasStarted(x.s.tasks[i].phase))
    && (i in x.began <==> HasStarted(x.s.tasks[i].phase))
    && (i in x.ended <==> HasEnded(x.s.tasks[i].phase))
  }

  predicate OrderOk(x: Timed) {
    OrderShape(x) && forall i :: 0 <= i < |x.s.tasks| ==> Booked(x, i)
  }

  /** The clock against one entry: not yet started, working, or ended. */
  predicate InTime(c: Config, budget: nat, x: Timed, i: nat)
    requires i < |x.s.tasks| && Booked(x, i)
  {
    && (!HasStarted(x.s.tasks[i].phase) ==> x.now <= Round(c, budget, |x.order|))
    && (HasStarted(x.s.tasks[i].phase) && !HasEnded(x.s.tasks[i].phase) ==> x.now <= x.began[i] + budget)
    && (i in x.ended ==> i in x.began && x.ended[i] <= x.began[i] + budget)
  }

  predicate ClockOk(c: Config, budget: nat, x: Timed)
    requires OrderOk(x)
  {
    && (forall k :: 0 <= k < |x.order| ==> x.order[k] in x.began && x.began[x.order[k]] <= Round(c, budget, k))
    && (forall i :: 0 <= i < |x.s.tasks| ==> InTime(c, budget, x, i))
  }

  predicate TimeOk(c: Config, budget: nat, x: Timed) {
    OrderOk(x) && ClockOk(c, budget, x)
  }

  /** What a step does to the timed bookkeeping, in terms of the phases of the task it moves. */
  predicate Moves(x: Timed, x': Timed, m: nat) {
    && m < |x.s.tasks| == |x'.s.tasks| && x'.s.tasks == x.s.tasks[m := x'.s.tasks[m]] && x'.now == x.now
    && var was := x.s.tasks[m].phase;
    && var will := x'.s.tasks[m].phase;
    && if HasStarted(will) && !HasStarted(was) then
         !HasEnded(will) && x'.order == x.order + [m] && x'.began == x.began[m := x.now] && x'.ended == x.ended
       else
         && (HasStarted(will) <==> HasStarted(was)) && x'.order == x.order && x'.began == x.began
         && (HasEnded(was) ==> HasEnded(will))
         && x'.ended == if HasEnded(will) && !HasEnded(was) then x.ended[m := x.now] else x.ended
  }

  lemma StepMoves(c: Config, budget: nat, x: Timed, step: Step)
    requires TimedEnabled(c, budget, x, Do(step)) && TaskOk(x.s.tasks[Mover(x.s, step)], x.s.store)
    ensures Moves(x, TimedApply(c, budget, x, Do(step)), Mover(x.s, step))
  {
    hide HistoryOk, PhaseOk, Shared;
  }

  lemma HeldInAppend(ts: seq<Task>, order: seq<nat>, m: nat)
    requires m < |ts| && forall k :: 0 <= k < |order| ==> order[k] < |ts|
    ensures HeldIn(ts, order + [m]) == HeldIn(ts, order) + Held(ts[m])
  {
    assert (order + [m])[..|order|] == order;
  }

  lemma OrderShapeStays(x: Timed, x': Timed, m: nat)
    requires OrderShape(x) && Moves(x, x', m) && Booked(x, m)
    ensures OrderShape(x')
  {
    hide HeldIn, Total;
    var t := x'.s.tasks[m];
    TotalUpdate(x.s.tasks, m, t, StartedCount);
    TotalUpdate(x.s.tasks, m, t, Held);
    HeldInUpdate(x.s.tasks, x.order, m, t);
    if x'.order != x.order {
      HeldInAppend(x'.s.tasks, x.order, m);
    }
  }

  lemma BookedStays(x: Timed, x': Timed, m: nat, i: nat)
    requires Moves(x, x', m) && i < |x.s.tasks| && Booked(x, i)
    ensures Booked(x', i)
  {
  }

  lemma OrderStaysOk(x: Timed, x': Timed, m: nat)
    requires OrderOk(x) && Moves(x, x', m)
    ensures OrderOk(x')
  {
    OrderShapeStays(x, x', m);
    forall i | 0 <= i < |x'.s.tasks| ensures Booked(x', i) {
      BookedStays(x, x', m, i);
    }
  }

  lemma InTimeStays(c: Config, budget: nat, x: Timed, x': Timed, m: nat, i: nat)
    requires Moves(x, x', m) && i < |x.s.tasks| && Booked(x, i) && Booked(x', i) && InTime(c, budget, x, i)
    ensures InTime(c, budget, x', i)
  {
    RoundMonotone(c, budget, |x.order|, |x'.order|);
  }

  lemma ClockStaysOk(c: Config, budget: nat, x: Timed, x': Timed, m: nat)
    requires OrderOk(x) && OrderOk(x') && Moves(x, x', m) && ClockOk(c, budget, x)
    ensures ClockOk(c, budget, x')
  {
    forall i | 0 <= i < |x'.s.tasks| ensures InTime(c, budget, x', i) {
      assert Booked(x, i) && Booked(x', i);
      InTimeStays(c, budget, x, x', m, i);
    }
    assert Booked(x, m) && InTime(c, budget, x, m);
    forall k | 0 <= k < |x'.order|
      ensures x'.order[k] in x'.began && x'.began[x'.order[k]] <= Round(c, budget, k)
    {
      if k < |x.order| {
        assert x'.order[k] == x.order[k];
      }
    }
  }

  /** A tick with someone waiting: all permits are out, so one of the first |order| + 1 - C hosts
      to start still holds one, and its own budget bounds the clock. */
  lemma TickWithinRound(c: Config, budget: nat, x: Timed, d: nat)
    requires OrderOk(x) && ClockOk(c, budget, x) && MayPass(x, budget, d)
    requires PermitsOk(c, x.s) && x.s.free == 0
    ensures x.now + d <= Round(c, budget, |x.order|)
  {
    var r := EarlyHolder(x.s.tasks, x.order, Permits(c));
    var h := x.order[r];
    assert Cancellable(x.s.tasks[h].phase);
    NextRound(c, budget, r);
    RoundMonotone(c, budget, r + Permits(c), |x.order|);
  }

  lemma TickInTime(c: Config, budget: nat, x: Timed, d: nat, i: nat)
    requires OrderOk(x) && ClockOk(c, budget, x) && MayPass(x, budget, d) && PermitsOk(c, x.s)
    requires i < |x.s.tasks| && !x.s.tasks[i].phase.Unspawned?
    ensures Booked(x.(now := x.now + d), i) && InTime(c, budget, x.(now := x.now + d), i)
  {
    assert Booked(x, i) && InTime(c, budget, x, i);
    if x.s.tasks[i].phase.Waiting? {
      TickWithinRound(c, budget, x, d);
    }
  }

  lemma TickKeepsClock(c: Config, budget: nat, x: Timed, d: nat)
    requires OrderOk(x) && ClockOk(c, budget, x) && MayPass(x, budget, d) && PermitsOk(c, x.s) && SpawnedOk(c, x.s)
    ensures OrderOk(x.(now := x.now + d)) && ClockOk(c, budget, x.(now := x.now + d))
  {
    var x' := x.(now := x.now + d);
    forall i | 0 <= i < |x'.s.tasks| ensures Booked(x', i) && InTime(c, budget, x', i) {
      TickInTime(c, budget, x, d, i);
    }
  }

  lemma DoKeepsTime(c: Config, budget: nat, x: Timed, step: Step)
    requires TimeOk(c, budget, x) && TasksOk(x.s) && TimedEnabled(c, budget, x, Do(step))
    ensures TimeOk(c, budget, TimedApply(c, budget, x, Do(step)))
  {
    var x' := TimedApply(c, budget, x, Do(step));
    assert TaskOk(x.s.tasks[Mover(x.s, step)], x.s.store);
    StepMoves(c, budget, x, step);
    OrderStaysOk(x, x', Mover(x.s, step));
    ClockStaysOk(c, budget, x, x', Mover(x.s, step));
  }

  lemma StartOk(c: Config, budget: nat)
    ensures TimeOk(c, budget, Start(c))
  {
    TotalOfEqual(Init(c).tasks, StartedCount, 0);
    TotalOfEqual(Init(c).tasks, Held, 0);
  }

  /** The fan-out's own invariant holds along timed runs too: they only restrict when steps happen. */
  lemma {:induction false} TimedRunKeepsInv(c: Config, budget: nat, steps: seq<TimedStep>)
    requires TimedRuns(c, budget, steps)
    ensures Inv(c, TimedAfter(c, budget, steps).s)
    decreases |steps|
  {
    if steps == [] {
      InitOk(c);
    } else {
      var before := steps[..|steps| - 1];
      TimedRunKeepsInv(c, budget, before);
      TimedStepKeepsInv(c, budget, TimedAfter(c, budget, before), steps[|steps| - 1]);
    }
  }

  lemma TimedStepKeepsInv(c: Config, budget: nat, x: Timed, t: TimedStep)
    requires Inv(c, x.s) && TimedEnabled(c, budget, x, t)
    ensures Inv(c, TimedApply(c, budget, x, t).s)
  {
    hide Inv, Apply, Enabled;
    if t.Do? {
      StepKeepsInv(c, x.s, t.step);
      assert TimedApply(c, budget, x, t).s == Apply(c, x.s, t.step);
    } else {
      assert TimedApply(c, budget, x, t).s == x.s;
    }
  }

  lemma {:induction false} TimedRunKeepsTime(c: Config, budget: nat, steps: seq<TimedStep>)
    requires TimedRuns(c, budget, steps)
    ensures TimeOk(c, budget, TimedAfter(c, budget, steps))
    decreases |steps|
  {
    if steps == [] {
      StartOk(c, budget);
    } else {
      var before := steps[..|steps| - 1];
      TimedRunKeepsTime(c, budget, before);
      ReachedFacts(c, budget, before);
      StepKeepsTime(c, budget, TimedAfter(c, budget, before), steps[|steps| - 1]);
    }
  }

  lemma ReachedFacts(c: Config, budget: nat, steps: seq<TimedStep>)
    requires TimedRuns(c, budget, steps)
    ensures var s := TimedAfter(c, budget, steps).s; TasksOk(s) && PermitsOk(c, s) && SpawnedOk(c, s)
  {
    TimedRunKeepsInv(c, budget, steps);
  }

  lemma StepKeepsTime(c: Config, budget: nat, x: Timed, t: TimedStep)
    requires TimeOk(c, budget, x) && TasksOk(x.s) && PermitsOk(c, x.s) && SpawnedOk(c, x.s)
    requires TimedEnabled(c, budget, x, t)
    ensures TimeOk(c, budget, TimedApply(c, budget, x, t))
  {
    hide OrderOk, ClockOk, TaskOk, Apply, Enabled, Moved, MayPass, PermitsOk, SpawnedOk;
    if t.Tick? {
      TickKeepsClock(c, budget, x, t.d);
    } else {
      DoKeepsTime(c, budget, x, t.step);
    }
  }

  /** The whole fan-out's deadline: one budget for every full or partial round of hosts. */
  function Deadline(c: Config, budget: nat): nat {
    (|c.hosts| + Permits(c) - 1) / Permits(c) * budget
  }

  lemma WithinDeadline(c: Config, budget: nat, x: Timed, i: nat)
    requires OrderOk(x) && ClockOk(c, budget, x) && i < |x.s.tasks| == |c.hosts|
    ensures HasEnded(x.s.tasks[i].phase) <==> i in x.ended
    ensures i in x.ended ==> x.ended[i] <= Deadline(c, budget)
    ensures !HasEnded(x.s.tasks[i].phase) ==> x.now <= Deadline(c, budget)
  {
    var n := |c.hosts| - 1;
    NextRound(c, budget, n);
    assert Booked(x, i) && InTime(c, budget, x, i);
    if HasStarted(x.s.tasks[i].phase) {
      var k :| 0 <= k < |x.order| && x.order[k] == i;
      StartsWithin(c, budget, x, k);
    } else {
      TotalAtMost(x.s.tasks);
      RoundMonotone(c, budget, |x.order|, n + Permits(c));
    }
  }

  lemma StartsWithin(c: Config, budget: nat, x: Timed, k: nat)
    requires OrderOk(x) && ClockOk(c, budget, x) && k < |x.order| && |x.s.tasks| == |c.hosts|
    ensures x.order[k] in x.began && x.began[x.order[k]] <= Round(c, budget, |c.hosts| - 1)
  {
    TotalAtMost(x.s.tasks);
    RoundMonotone(c, budget, k, |c.hosts| - 1);
  }

  /** How often n hosts go through that many permits. */
  function Rounds(n: nat, permits: nat): nat
    requires permits > 0
  {
    if n % permits == 0 then n / permits else n / permits + 1
  }

  /** All N hosts finish by ceil(N / C) times the budget, in every timed run: no host ends later, and
      while any host has not ended the clock has not passed that moment. */
  lemma AllFinishByDeadline(c: Config, budget: nat, steps: seq<TimedStep>, i: nat)
    requires TimedRuns(c, budget, steps) && i < |c.hosts|
    ensures Deadline(c, budget) == Rounds(|c.hosts|, if c.concurrency == 0 then 1 else c.concurrency) * budget
    ensures var x := TimedAfter(c, budget, steps);
            && |x.s.tasks| == |c.hosts|
            && (HasEnded(x.s.tasks[i].phase) <==> i in x.ended)
            && (i in x.ended ==> x.ended[i] <= Deadline(c, budget))
            && (i !in x.ended ==> x.now <= Deadline(c, budget))
  {
    TimedRunKeepsInv(c, budget, steps);
    TimedRunKeepsTime(c, budget, steps);
    WithinDeadline(c, budget, TimedAfter(c, budget, steps), i);
    DeadlineIs(c, budget);
    hide Deadline;
  }

  lemma DeadlineIs(c: Config, budget: nat)
    ensures Deadline(c, budget) == Rounds(|c.hosts|, Permits(c)) * budget
  {
    DivUp(|c.hosts|, Permits(c));
  }

  lemma ExpiryStays(c: Config, budget: nat, x: Timed, t: TimedStep, i: nat)
    requires OrderOk(x) && TimedEnabled(c, budget, x, t) && i in x.ended && i in x.began && i < |x.s.tasks|
    requires TasksOk(x.s)
    ensures i < |TimedApply(c, budget, x, t).s.tasks|
    ensures var y := TimedApply(c, budget, x, t);
      i in y.ended && i in y.began && y.ended[i] == x.ended[i] && y.began[i] == x.began[i]
  {
    assert Booked(x, i);
    if t.Do? {
      assert TaskOk(x.s.tasks[Mover(x.s, t.step)], x.s.store);
      StepMoves(c, budget, x, t.step);
    }
  }

  lemma ExpiresNow(c: Config, budget: nat, x: Timed, i: nat)
    requires TimeOk(c, budget, x) && TasksOk(x.s) && TimedEnabled(c, budget, x, Do(Expire(i)))
    ensures var y := TimedApply(c, budget, x, Do(Expire(i)));
      i < |y.s.tasks| && i in y.ended && i in y.began && y.ended[i] == y.began[i] + budget
  {
    assert Booked(x, i) && InTime(c, budget, x, i);
    hide OrderShape;
  }

  /** A timeout fires exactly when its host's budget is spent: never before, and never later. */
  lemma {:induction false} TimeoutsFireOnTime(c: Config, budget: nat, steps: seq<TimedStep>, i: nat)
    requires TimedRuns(c, budget, steps) && Do(Expire(i)) in steps
    ensures var x := TimedAfter(c, budget, steps); i in x.ended && i in x.began && x.ended[i] == x.began[i] + budget
    ensures i < |TimedAfter(c, budget, steps).s.tasks|
    decreases |steps|
  {
    var before, last := steps[..|steps| - 1], steps[|steps| - 1];
    var x := TimedAfter(c, budget, before);
    assert steps == before + [last];
    TimedRunKeepsInv(c, budget, before);
    TimedRunKeepsTime(c, budget, before);
    hide TimedEnabled, TimedApply, OrderShape, Booked, ClockOk, TasksOk, SpawnedOk, PermitsOk, KeysOk, StoreOk, LogOk, ResultsOk;
    if last == Do(Expire(i)) {
      ExpiresNow(c, budget, x, i);
    } else {
      TimeoutsFireOnTime(c, budget, before, i);
      ExpiryStays(c, budget, x, last, i);
    }
  }

  // ----- every timed run can be finished -----

  /** Time can always go on: with nobody answering, until every entry has its result, either some
      instant step is possible, or some host's budget is spent and its timeout fires, or the clock
      may tick while some host has not ended. */
  lemma TimeGoesOn(c: Config, budget: nat, x: Timed) returns (t: TimedStep)
    requires SpawnedOk(c, x.s) && OrderOk(x) && !Done(x.s)
    ensures TimedEnabled(c, budget, x, t)
    ensures if t.Do? then SelfDriven(t.step)
            else t == Tick(1) && exists i :: 0 <= i < |x.s.tasks| && !HasEnded(x.s.tasks[i].phase)
  {
    t := Instant(c, budget, x);
    if t == Tick(0) {
      forall i | 0 <= i < |x.s.tasks|
        ensures var p := x.s.tasks[i].phase;
          p.Joined? || ((p.Waiting? ==> x.s.free == 0) && !p.Starting? && !HasEnded(p))
        ensures Cancellable(x.s.tasks[i].phase) ==> i in x.began
      {
        assert Quiet(x, i);
      }
      if i :| 0 <= i < |x.s.tasks| && Cancellable(x.s.tasks[i].phase) && x.began[i] + budget <= x.now {
        t := Do(Expire(i));
      } else {
        t := Tick(1);
        var i :| 0 <= i < |x.s.tasks| && !x.s.tasks[i].phase.Joined?;
        assert !HasEnded(x.s.tasks[i].phase);
      }
    }
  }

  /** The entry has nothing to do at once. */
  predicate Quiet(x: Timed, i: nat)
    requires i < |x.s.tasks|
  {
    var p := x.s.tasks[i].phase;
    && (p.Waiting? ==> x.s.free == 0) && !p.Starting? && !p.Finished? && !p.Returned? && !p.Unwound?
    && (Cancellable(p) ==> i in x.began)
  }

  /** An instant self-driven step if there is one; `Tick(0)` says there is none. */
  lemma Instant(c: Config, budget: nat, x: Timed) returns (t: TimedStep)
    requires SpawnedOk(c, x.s) && OrderOk(x)
    ensures t == Tick(0) || (t.Do? && SelfDriven(t.step) && TimedEnabled(c, budget, x, t))
    ensures t == Tick(0) ==> x.s.spawned == |x.s.tasks| && forall i :: 0 <= i < |x.s.tasks| ==> Quiet(x, i)
  {
    t := Tick(0);
    if x.s.spawned < |x.s.tasks| {
      var tid := FreshNat(x.s.hostIds.Keys);
      t := Do(Spawn(tid));
    } else if i :| 0 <= i < |x.s.tasks| && x.s.tasks[i].phase.Waiting? && x.s.free > 0 {
      t := Do(Acquire(i));
    } else if i :| 0 <= i < |x.s.tasks| && x.s.tasks[i].phase.Starting? {
      var k := FreshKey(x.s);
      t := Do(GenerateKey(i, k));
    } else if i :| 0 <= i < |x.s.tasks| && x.s.tasks[i].phase.Finished? {
      t := Do(Release(i));
    } else if i :| 0 <= i < |x.s.tasks| && (x.s.tasks[i].phase.Returned? || x.s.tasks[i].phase.Unwound?) {
      t := Do(Join(i, ""));
    } else {
      forall i | 0 <= i < |x.s.tasks| ensures Quiet(x, i) {
        assert Booked(x, i);
      }
    }
  }

  lemma TimedExtend(c: Config, budget: nat, steps: seq<TimedStep>, t: TimedStep)
    requires TimedRuns(c, budget, steps) && TimedEnabled(c, budget, TimedAfter(c, budget, steps), t)
    ensures TimedRuns(c, budget, steps + [t])
    ensures TimedAfter(c, budget, steps + [t]) == TimedApply(c, budget, TimedAfter(c, budget, steps), t)
  {
    hide TimedEnabled;
    assert (steps + [t])[..|steps|] == steps;
  }

  lemma TimedRankDrops(c: Config, budget: nat, x: Timed, step: Step)
    requires Inv(c, x.s) && TimedEnabled(c, budget, x, Do(step))
    ensures Total(TimedApply(c, budget, x, Do(step)).s.tasks, Rank) < Total(x.s.tasks, Rank)
  {
    hide Shared, PermitsOk, StoreOk, KeysOk, TaskOk;
    assert TaskOk(x.s.tasks[Mover(x.s, step)], x.s.store);
    MoverRankDrops(c, x.s, step);
    hide Rank, Moved;
    TotalUpdate(x.s.tasks, Mover(x.s, step), Moved(c, x.s, step), Rank);
  }

  function TimeLeft(c: Config, budget: nat, now: nat): nat {
    if now <= Deadline(c, budget) then Deadline(c, budget) - now else 0
  }

  lemma TickBeforeDeadline(c: Config, budget: nat, steps: seq<TimedStep>, i: nat)
    requires TimedRuns(c, budget, steps) && i < |c.hosts|
    requires |TimedAfter(c, budget, steps).s.tasks| == |c.hosts| && !HasEnded(TimedAfter(c, budget, steps).s.tasks[i].phase)
    ensures TimedAfter(c, budget, steps).now <= Deadline(c, budget)
  {
    AllFinishByDeadline(c, budget, steps, i);
  }

  /** One more step: either less is left to do, or as much and less time before the deadline. */
  lemma NextTimed(c: Config, budget: nat, steps: seq<TimedStep>) returns (t: TimedStep)
    requires TimedRuns(c, budget, steps) && !Done(TimedAfter(c, budget, steps).s)
    ensures TimedRuns(c, budget, steps + [t])
    ensures var x, y := TimedAfter(c, budget, steps), TimedAfter(c, budget, steps + [t]);
      if t.Do? then Total(y.s.tasks, Rank) < Total(x.s.tasks, Rank) && y.now == x.now
      else y.s == x.s && y.now == x.now + 1 <= Deadline(c, budget)
  {
    hide OrderOk, ClockOk, Done, Enabled, Apply, Moved, Rank, Deadline, PermitsOk, StoreOk, KeysOk, TaskOk;
    var x := TimedAfter(c, budget, steps);
    TimedRunKeepsInv(c, budget, steps);
    TimedRunKeepsTime(c, budget, steps);
    t := TimeGoesOn(c, budget, x);
    TimedExtend(c, budget, steps, t);
    if t.Do? {
      TimedRankDrops(c, budget, x, t.step);
    } else {
      var i :| 0 <= i < |x.s.tasks| && !HasEnded(x.s.tasks[i].phase);
      TickBeforeDeadline(c, budget, steps + [t], i);
    }
  }

  /** Wherever a timed run stands, it can be finished without an answer from any scanner or store, and so that the
      clock passes the deadline no further than it already has: every host ends by the deadline and has its
      result. */
  lemma {:induction false} TimedRunsFinish(c: Config, budget: nat, steps: seq<TimedStep>) returns (all: seq<TimedStep>)
    requires TimedRuns(c, budget, steps)
    ensures steps <= all && TimedRuns(c, budget, all) && Done(TimedAfter(c, budget, all).s)
    ensures var now := TimedAfter(c, budget, steps).now;
            TimedAfter(c, budget, all).now <= if now <= Deadline(c, budget) then Deadline(c, budget) else now
    decreases Total(TimedAfter(c, budget, steps).s.tasks, Rank), TimeLeft(c, budget, TimedAfter(c, budget, steps).now)
  {
    hide Done, Rank, Deadline, TimedAfter;
    if Done(TimedAfter(c, budget, steps).s) {
      all := steps;
    } else {
      var t := NextTimed(c, budget, steps);
      all := TimedRunsFinish(c, budget, steps + [t]);
    }
  }

  // ----- timed runs are runs -----

  /** The steps of a timed run without the ticks. */
  function Untimed(steps: seq<TimedStep>): seq<Step> {
    if steps == [] then []
    else
      var last := steps[|steps| - 1];
      Untimed(steps[..|steps| - 1]) + (if last.Do? then [last.step] else [])
  }

  /** Without its clock a timed run is a run of the fan-out, ending in the same state, so what holds of every run
      holds of it. */
  lemma {:induction false} TimedRunsAreRuns(c: Config, budget: nat, steps: seq<TimedStep>)
    requires TimedRuns(c, budget, steps)
    ensures Runs(c, Untimed(steps)) && After(c, Untimed(steps)) == TimedAfter(c, budget, steps).s
    decreases |steps|
  {
    hide Enabled, Apply, Moved, MayPass;
    if steps != [] {
      var before, last := steps[..|steps| - 1], steps[|steps| - 1];
      TimedRunsAreRuns(c, budget, before);
      if last.Do? {
        Extend(c, Untimed(before), last.step);
      } else {
        assert Untimed(steps) == Untimed(before);
      }
    }
  }
}
