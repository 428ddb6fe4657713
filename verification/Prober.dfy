/**
 The prober's gates as a step protocol: any number of concurrent `probe` calls, each reserving a
 slot of its host's budget, holding one of the host's permits, and passing the one rate gate before
 every request it sends. A call may be cancelled (its future dropped) wherever it is. Times are
 readings of one monotonic clock.
 */
module Prober {
  import opened Arithmetic
  import opened Wrappers

  type Ip = nat
  type Port = nat

  /** The paths tried in plain text, before the one HTTPS request. */
  const CANDIDATE_PATHS := ["/", "/status", "/health", "/metrics"]

  const REQUESTS: nat := |CANDIDATE_PATHS| + 1

  datatype ProbeError = Excluded | HostBudgetExhausted

  datatype Call = Call(ip: Ip, port: Port)

  datatype Config = Config(
    calls: seq<Call>, excluded: set<Call>, maxConcurrent: nat, maxProbes: nat, interval: nat)

  datatype HostState = HostState(free: nat, issued: nat)

  datatype Phase =
    | Idle
    | Refused(error: ProbeError)
    | Reserved                                    // counted against the budget, awaiting a permit
    | Holding(sent: nat)                          // permit held, that many requests behind it
    | Gated(sent: nat, wake: nat)                 // rate gate locked, sleeping until `wake`
    | Granted(sent: nat)
    | Requesting(sent: nat)                       // this many sent, the last still unanswered
    | Done
    | Cancelled(sent: nat)

  datatype State = State(
    probes: seq<Phase>,
    hosts: map<Ip, HostState>,
    gate: Option<nat>,                            // the earliest moment the next request is allowed
    owner: Option<nat>,                           // who has the rate gate locked
    now: nat,
    grants: seq<nat>,                             // when `throttle` let each request through
    sent: seq<nat>)                               // the call each request belongs to

  datatype Act = Begin | Acquire | Lock | Grant | Send | Respond | Cancel

  datatype Step = By(i: nat, act: Act) | Tick(d: nat)

  function Init(c: Config): State {
    State(seq(|c.calls|, i => Idle), map[], None, None, 0, [], [])
  }

  // ----- the pieces the code's own methods update -----

  function StateOf(c: Config, hosts: map<Ip, HostState>, ip: Ip): HostState {
    if ip in hosts then hosts[ip] else HostState(c.maxConcurrent, 0)
  }

  /** One slot of the host's budget; the host's entry is created even when the answer is no. */
  function Reserve(c: Config, hosts: map<Ip, HostState>, ip: Ip): (map<Ip, HostState>, bool) {
    var h := StateOf(c, hosts, ip);
    if h.issued >= c.maxProbes then (hosts[ip := h], false) else (hosts[ip := h.(issued := h.issued + 1)], true)
  }

  function WakeAt(gate: Option<nat>, now: nat): nat {
    if gate.Some? && gate.value > now then gate.value else now
  }

  /** A moment at which a call that arrived then may be let through. */
  predicate Allowed(gate: Option<nat>, arrival: nat, t: nat) {
    arrival <= t && (gate.Some? ==> gate.value <= t)
  }

  /** A call sleeps no longer than the gate makes it: it wakes at the first moment allowed. */
  lemma WakesAsSoonAsAllowed(gate: Option<nat>, arrival: nat, t: nat)
    ensures Allowed(gate, arrival, WakeAt(gate, arrival))
    ensures Allowed(gate, arrival, t) ==> WakeAt(gate, arrival) <= t
  {
  }

  // ----- the steps -----

  predicate HoldsPermit(p: Phase) {
    p.Holding? || p.Gated? || p.Granted? || p.Requesting?
  }

  predicate CanAct(c: Config, s: State, i: nat, p: Phase, act: Act)
    requires i < |c.calls|
  {
    match act
    case Begin => p.Idle?
    case Acquire => p.Reserved? && c.calls[i].ip in s.hosts && s.hosts[c.calls[i].ip].free > 0
    case Lock => p.Holding? && s.owner.None?
    case Grant => p.Gated? && s.now >= p.wake
    case Send => p.Granted?
    case Respond => p.Requesting? && c.calls[i].ip in s.hosts
    case Cancel => p.Reserved? || (HoldsPermit(p) && c.calls[i].ip in s.hosts)
  }

  predicate Enabled(c: Config, s: State, step: Step) {
    step.Tick? ||
    (step.i < |s.probes| && step.i < |c.calls| && CanAct(c, s, step.i, s.probes[step.i], step.act))
  }

  function Moved(c: Config, s: State, i: nat, p: Phase, act: Act): Phase
    requires i < |c.calls| && CanAct(c, s, i, p, act)
  {
    match act
    case Begin =>
      if c.calls[i] in c.excluded then Refused(Excluded)
      else if Reserve(c, s.hosts, c.calls[i].ip).1 then Reserved else Refused(HostBudgetExhausted)
    case Acquire => Holding(0)
    case Lock => Gated(p.sent, WakeAt(s.gate, s.now))
    case Grant => Granted(p.sent)
    case Send => Requesting(p.sent + 1)
    case Respond => if p.sent == REQUESTS then Done else Holding(p.sent)
    case Cancel => Cancelled(if p.Reserved? then 0 else p.sent)
  }

  /** Permits and budget: `issued` is never given back, a permit is when its holder ends. */
  function HostsAfter(c: Config, s: State, i: nat, p: Phase, act: Act): map<Ip, HostState>
    requires i < |c.calls| && CanAct(c, s, i, p, act)
  {
    var ip := c.calls[i].ip;
    if act.Begin? then
      if c.calls[i] in c.excluded then s.hosts else Reserve(c, s.hosts, ip).0
    else if act.Acquire? then s.hosts[ip := s.hosts[ip].(free := s.hosts[ip].free - 1)]
    else if HoldsPermit(p) && !HoldsPermit(Moved(c, s, i, p, act)) then
      s.hosts[ip := s.hosts[ip].(free := s.hosts[ip].free + 1)]
    else s.hosts
  }

  function Apply(c: Config, s: State, step: Step): State
    requires Enabled(c, s, step)
  {
    match step
    case Tick(d) => s.(now := s.now + d)
    case By(i, act) =>
      var p := s.probes[i];
      var s' := s.(probes := s.probes[i := Moved(c, s, i, p, act)], hosts := HostsAfter(c, s, i, p, act));
      if act.Lock? then s'.(owner := Some(i))
      else if act.Grant? then s'.(owner := None, gate := Some(s.now + c.interval), grants := s.grants + [s.now])
      else if act.Send? then s'.(sent := s.sent + [i])
      else if act.Cancel? && p.Gated? then s'.(owner := None)
      else s'
  }

  predicate Runs(c: Config, steps: seq<Step>)
    decreases |steps|, 0
  {
    steps == [] ||
    var before := steps[..|steps| - 1];
    Runs(c, before) && Enabled(c, After(c, before), steps[|steps| - 1])
  }

  function After(c: Config, steps: seq<Step>): State
    requires Runs(c, steps)
    decreases |steps|, 1
  {
    if steps == [] then Init(c)
    else
      var before := steps[..|steps| - 1];
      Apply(c, After(c, before), steps[|steps| - 1])
  }

  // ----- counting probes -----

  function Sum(ps: seq<Phase>, weight: (nat, Phase) -> nat): nat {
    if ps == [] then 0 else Sum(ps[..|ps| - 1], weight) + weight(|ps| - 1, ps[|ps| - 1])
  }

  lemma {:induction false} SumUpdate(ps: seq<Phase>, i: nat, p: Phase, weight: (nat, Phase) -> nat)
    requires i < |ps|
    ensures Sum(ps[i := p], weight) + weight(i, ps[i]) == Sum(ps, weight) + weight(i, p)
  {
    var n := |ps| - 1;
    if i == n {
      assert ps[i := p][..n] == ps[..n];
    } else {
      assert ps[i := p][..n] == ps[..n][i := p];
      SumUpdate(ps[..n], i, p, weight);
    }
  }

  lemma {:induction false} SumZero(ps: seq<Phase>, weight: (nat, Phase) -> nat)
    requires forall i :: 0 <= i < |ps| ==> weight(i, ps[i]) == 0
    ensures Sum(ps, weight) == 0
  {
    if ps != [] {
      SumZero(ps[..|ps| - 1], weight);
    }
  }

  predicate Admitted(p: Phase) {
    !p.Idle? && !p.Refused?
  }

  predicate At(c: Config, i: nat, ip: Ip) {
    i < |c.calls| && c.calls[i].ip == ip
  }

  function AdmittedAt(c: Config, ip: Ip): (nat, Phase) -> nat {
    (i, p) => if At(c, i, ip) && Admitted(p) then 1 else 0
  }

  function HoldingAt(c: Config, ip: Ip): (nat, Phase) -> nat {
    (i, p) => if At(c, i, ip) && HoldsPermit(p) then 1 else 0
  }

  function BeingGranted(i: nat, p: Phase): nat {
    if p.Granted? then 1 else 0
  }

  // ----- the invariant -----

  /** Budget and permits of one host, also before its first probe creates its entry. */
  predicate HostOk(c: Config, s: State, ip: Ip) {
    var h := StateOf(c, s.hosts, ip);
    && h.issued == Sum(s.probes, AdmittedAt(c, ip)) && h.issued <= c.maxProbes
    && h.free + Sum(s.probes, HoldingAt(c, ip)) == c.maxConcurrent
  }

  predicate GateOk(c: Config, s: State) {
    && (s.gate.None? <==> s.grants == [])
    && (s.grants != [] ==> s.gate == Some(s.grants[|s.grants| - 1] + c.interval) && s.grants[|s.grants| - 1] <= s.now)
    && (forall k :: 0 <= k < |s.grants| - 1 ==> s.grants[k] + c.interval <= s.grants[k + 1])
    && (forall i :: 0 <= i < |s.probes| ==> (s.probes[i].Gated? <==> s.owner == Some(i)))
    && (s.owner.Some? ==> s.owner.value < |s.probes|)
    && (forall i :: 0 <= i < |s.probes| && s.probes[i].Gated? && s.gate.Some? ==> s.gate.value <= s.probes[i].wake)
  }

  /** How often call i appears among the requests sent. */
  function SentBy(sent: seq<nat>, i: nat): nat {
    if sent == [] then 0 else SentBy(sent[..|sent| - 1], i) + if sent[|sent| - 1] == i then 1 else 0
  }

  function Behind(p: Phase): nat {
    match p
    case Idle => 0
    case Refused(_) => 0
    case Reserved => 0
    case Done => REQUESTS
    case _ => p.sent
  }

  predicate ProbeOk(c: Config, s: State, i: nat)
    requires i < |s.probes| == |c.calls|
  {
    var p := s.probes[i];
    && SentBy(s.sent, i) == Behind(p) <= REQUESTS
    && (p.Holding? || p.Gated? || p.Granted? ==> p.sent < REQUESTS)
    && (Admitted(p) ==> c.calls[i] !in c.excluded && c.calls[i].ip in s.hosts)
    && (p == Refused(Excluded) ==> c.calls[i] in c.excluded)
    && (p == Refused(HostBudgetExhausted) ==>
          && c.calls[i] !in c.excluded
          && c.calls[i].ip in s.hosts && s.hosts[c.calls[i].ip].issued >= c.maxProbes)
  }

  ghost predicate Inv(c: Config, s: State) {
    && |s.probes| == |c.calls|
    && (forall ip: Ip :: HostOk(c, s, ip))
    && GateOk(c, s)
    && (forall i :: 0 <= i < |s.probes| ==> ProbeOk(c, s, i))
    && |s.sent| + Sum(s.probes, BeingGranted) <= |s.grants|
  }

  lemma BudgetStaysOk(c: Config, s: State, i: nat, act: Act, ip: Ip)
    requires |s.probes| == |c.calls| && HostOk(c, s, ip) && Enabled(c, s, By(i, act))
    ensures var s' := Apply(c, s, By(i, act)); var h := StateOf(c, s'.hosts, ip);
            h.issued == Sum(s'.probes, AdmittedAt(c, ip)) && h.issued <= c.maxProbes
  {
    var p := s.probes[i];
    var q := Moved(c, s, i, p, act);
    SumUpdate(s.probes, i, q, AdmittedAt(c, ip));
    assert AdmittedAt(c, ip)(i, q) - AdmittedAt(c, ip)(i, p) == if At(c, i, ip) && Admitted(q) && !Admitted(p) then 1 else 0;
  }

  lemma PermitsStayOk(c: Config, s: State, i: nat, act: Act, ip: Ip)
    requires |s.probes| == |c.calls| && HostOk(c, s, ip) && Enabled(c, s, By(i, act))
    ensures var s' := Apply(c, s, By(i, act));
            StateOf(c, s'.hosts, ip).free + Sum(s'.probes, HoldingAt(c, ip)) == c.maxConcurrent
  {
    var p := s.probes[i];
    SumUpdate(s.probes, i, Moved(c, s, i, p, act), HoldingAt(c, ip));
    assert HoldingAt(c, ip)(i, p) == if At(c, i, ip) && HoldsPermit(p) then 1 else 0;
  }

  lemma HostStaysOk(c: Config, s: State, i: nat, act: Act, ip: Ip)
    requires |s.probes| == |c.calls| && HostOk(c, s, ip) && Enabled(c, s, By(i, act))
    ensures HostOk(c, Apply(c, s, By(i, act)), ip)
  {
    BudgetStaysOk(c, s, i, act, ip);
    PermitsStayOk(c, s, i, act, ip);
  }

  lemma GateStaysOk(c: Config, s: State, i: nat, act: Act)
    requires |s.probes| == |c.calls| && GateOk(c, s) && Enabled(c, s, By(i, act))
    ensures GateOk(c, Apply(c, s, By(i, act)))
  {
  }

  lemma SentAppend(sent: seq<nat>, i: nat, j: nat)
    ensures SentBy(sent + [i], j) == SentBy(sent, j) + if i == j then 1 else 0
  {
    assert (sent + [i])[..|sent|] == sent;
  }

  lemma HostsOnlyGrow(c: Config, s: State, i: nat, p: Phase, act: Act)
    requires i < |c.calls| && CanAct(c, s, i, p, act)
    ensures forall ip :: ip in s.hosts ==> ip in HostsAfter(c, s, i, p, act)
    ensures forall ip :: ip in s.hosts ==> HostsAfter(c, s, i, p, act)[ip].issued >= s.hosts[ip].issued
    ensures act.Begin? && c.calls[i] !in c.excluded ==> c.calls[i].ip in HostsAfter(c, s, i, p, act)
    ensures Moved(c, s, i, p, act) == Refused(HostBudgetExhausted) && act.Begin? ==>
              HostsAfter(c, s, i, p, act)[c.calls[i].ip].issued >= c.maxProbes
  {
  }

  lemma ProbeStaysOk(c: Config, s: State, i: nat, act: Act, j: nat)
    requires j < |s.probes| == |c.calls| && ProbeOk(c, s, j) && Enabled(c, s, By(i, act))
    ensures ProbeOk(c, Apply(c, s, By(i, act)), j)
  {
    hide SentBy, HostsAfter, Reserve;
    SentAppend(s.sent, i, j);
    HostsOnlyGrow(c, s, i, s.probes[i], act);
    if i != j {
      hide Moved;
      assert Apply(c, s, By(i, act)).probes[j] == s.probes[j];
    }
  }

  lemma GrantsStayAhead(c: Config, s: State, i: nat, act: Act)
    requires |s.probes| == |c.calls| && Enabled(c, s, By(i, act))
    requires |s.sent| + Sum(s.probes, BeingGranted) <= |s.grants|
    ensures var s' := Apply(c, s, By(i, act)); |s'.sent| + Sum(s'.probes, BeingGranted) <= |s'.grants|
  {
    hide HostsAfter, Reserve;
    SumUpdate(s.probes, i, Moved(c, s, i, s.probes[i], act), BeingGranted);
  }

  lemma TickKeepsInv(c: Config, s: State, d: nat)
    requires Inv(c, s)
    ensures Inv(c, Apply(c, s, Tick(d)))
  {
    var s' := Apply(c, s, Tick(d));
    forall ip: Ip ensures HostOk(c, s', ip) { assert HostOk(c, s, ip); }
    forall j | 0 <= j < |s'.probes| ensures ProbeOk(c, s', j) { assert ProbeOk(c, s, j); }
  }

  lemma StepKeepsInv(c: Config, s: State, step: Step)
    requires Inv(c, s) && Enabled(c, s, step)
    ensures Inv(c, Apply(c, s, step))
  {
    match step
    case Tick(d) => TickKeepsInv(c, s, d);
    case By(i, act) =>
      hide HostOk, GateOk, ProbeOk, Sum, Moved, HostsAfter, CanAct;
      var s' := Apply(c, s, step);
      forall ip: Ip ensures HostOk(c, s', ip) { HostStaysOk(c, s, i, act, ip); }
      forall j | 0 <= j < |s'.probes| ensures ProbeOk(c, s', j) { ProbeStaysOk(c, s, i, act, j); }
      GateStaysOk(c, s, i, act);
      GrantsStayAhead(c, s, i, act);
  }

  lemma InitOk(c: Config)
    ensures Inv(c, Init(c))
  {
    forall ip: Ip ensures HostOk(c, Init(c), ip) {
      SumZero(Init(c).probes, AdmittedAt(c, ip));
      SumZero(Init(c).probes, HoldingAt(c, ip));
    }
    SumZero(Init(c).probes, BeingGranted);
  }

  lemma {:induction false} RunKeepsInv(c: Config, steps: seq<Step>)
    requires Runs(c, steps)
    ensures Inv(c, After(c, steps))
    decreases |steps|
  {
    if steps == [] {
      InitOk(c);
    } else {
      var before := steps[..|steps| - 1];
      RunKeepsInv(c, before);
      StepKeepsInv(c, After(c, before), steps[|steps| - 1]);
    }
  }

  // ----- whole runs -----

  /** At every moment of every run: a host has been admitted at most `maxProbes` times, and at most
      `maxConcurrent` of its probes hold a permit. */
  lemma HostBoundsHold(c: Config, steps: seq<Step>, ip: Ip)
    requires Runs(c, steps)
    ensures Sum(After(c, steps).probes, AdmittedAt(c, ip)) <= c.maxProbes
    ensures Sum(After(c, steps).probes, HoldingAt(c, ip)) <= c.maxConcurrent
  {
    RunKeepsInv(c, steps);
    assert HostOk(c, After(c, steps), ip);
  }

  lemma {:induction false} SentByNobody(sent: seq<nat>, i: nat)
    ensures SentBy(sent, i) == 0 <==> i !in sent
  {
    if sent != [] {
      SentByNobody(sent[..|sent| - 1], i);
      assert sent == sent[..|sent| - 1] + [sent[|sent| - 1]];
    }
  }

  /** No call sends more than its five requests, and a completed one sends them all; an excluded call, one refused for
      its host's budget, and one not yet admitted send none. A call is refused for being excluded exactly when it is,
      and for its host's budget only when that is spent. */
  lemma RequestsOnlyWhenAdmitted(c: Config, steps: seq<Step>, i: nat)
    requires Runs(c, steps) && i < |c.calls|
    ensures var s := After(c, steps);
            && |s.probes| == |c.calls|
            && SentBy(s.sent, i) <= 5
            && (c.calls[i] in c.excluded || s.probes[i].Refused? || s.probes[i].Idle? ==> i !in s.sent)
            && (s.probes[i].Done? ==> SentBy(s.sent, i) == 5)
            && (!s.probes[i].Idle? ==> (s.probes[i] == Refused(Excluded) <==> c.calls[i] in c.excluded))
            && (s.probes[i] == Refused(HostBudgetExhausted) ==>
                  Sum(s.probes, AdmittedAt(c, c.calls[i].ip)) == c.maxProbes)
  {
    RunKeepsInv(c, steps);
    var s := After(c, steps);
    assert ProbeOk(c, s, i) && HostOk(c, s, c.calls[i].ip);
    SentByNobody(s.sent, i);
  }

  lemma {:induction false} SpacedFrom(grants: seq<nat>, interval: nat, i: nat, j: nat)
    requires forall k :: 0 <= k < |grants| - 1 ==> grants[k] + interval <= grants[k + 1]
    requires i <= j < |grants|
    ensures grants[i] + (j - i) * interval <= grants[j]
    decreases j - i
  {
    if i < j {
      SpacedFrom(grants, interval, i, j - 1);
      assert (j - i) * interval == (j - 1 - i) * interval + interval;
    }
  }

  /** Every request has a grant of its own, and the i-th and j-th grants are at least j - i intervals
      apart, however many calls compete for the gate. */
  lemma GrantsSpaced(c: Config, steps: seq<Step>, i: nat, j: nat)
    requires Runs(c, steps) && i <= j < |After(c, steps).grants|
    ensures var s := After(c, steps);
            |s.sent| <= |s.grants| && s.grants[i] + (j - i) * c.interval <= s.grants[j]
  {
    RunKeepsInv(c, steps);
    SpacedFrom(After(c, steps).grants, c.interval, i, j);
  }

  /** A window of length w holds at most w / interval + 1 grants. */
  lemma WindowHolds(c: Config, steps: seq<Step>, i: nat, j: nat, start: nat, w: nat)
    requires Runs(c, steps) && i <= j < |After(c, steps).grants| && c.interval > 0
    requires start <= After(c, steps).grants[i] && After(c, steps).grants[j] <= start + w
    ensures j - i + 1 <= w / c.interval + 1
  {
    GrantsSpaced(c, steps, i, j);
    FitsIn(j - i, c.interval, w);
  }

  lemma FitsIn(n: nat, interval: nat, w: nat)
    requires interval > 0 && n * interval <= w
    ensures n <= w / interval
  {
    var q := w / interval;
    assert w == q * interval + w % interval;
    MulStep(q, n, interval);
  }
}
