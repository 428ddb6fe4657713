/**
 What the prober's gates let through: an open gate delays nobody, every probe ends, and when none can go on.
 */
module ProberProgress {
  import opened Prober
  import opened Wrappers

  lemma Extend(c: Config, steps: seq<Step>, step: Step)
    requires Runs(c, steps) && Enabled(c, After(c, steps), step)
    ensures Runs(c, steps + [step]) && After(c, steps + [step]) == Apply(c, After(c, steps), step)
  {
    hide Enabled, Apply, Init;
    assert (steps + [step])[..|steps|] == steps;
  }

  predicate GateOpen(s: State) { s.gate.None? || s.gate.value <= s.now }

  /** A call that has locked the gate is granted its request exactly once the gate is open: at once if it was open
      already, however long ago it opened. */
  lemma GrantedAsSoonAsOpen(c: Config, steps: seq<Step>, i: nat, d: nat)
    requires Runs(c, steps) && i < |c.calls| && Runs(c, steps + [By(i, Lock)])
    ensures var locked := steps + [By(i, Lock)];
      && Runs(c, locked + [Tick(d)])
      && (Enabled(c, After(c, locked + [Tick(d)]), By(i, Grant)) <==> GateOpen(After(c, steps).(now := After(c, steps).now + d)))
      && (GateOpen(After(c, steps)) ==> Runs(c, locked + [By(i, Grant)]))
  {
    var locked := steps + [By(i, Lock)];
    assert locked[..|steps|] == steps && locked[|steps|] == By(i, Lock);
    var s := After(c, steps);
    Extend(c, steps, By(i, Lock));
    Extend(c, locked, Tick(d));
    WakesAsSoonAsAllowed(s.gate, s.now, s.now + d);
    WakesAsSoonAsAllowed(s.gate, s.now, s.now);
    hide WakeAt;
    if GateOpen(s) {
      Extend(c, locked, By(i, Grant));
    }
  }

  // ----- every probe ends -----

  /** How many acts are left for a call at most. */
  function Left(i: nat, p: Phase): nat {
    match p
    case Idle => 4 * REQUESTS + 2
    case Reserved => 4 * REQUESTS + 1
    case Holding(sent) => if sent <= REQUESTS then 4 * (REQUESTS - sent) else 0
    case Gated(sent, _) => if sent < REQUESTS then 4 * (REQUESTS - sent) - 1 else 0
    case Granted(sent) => if sent < REQUESTS then 4 * (REQUESTS - sent) - 2 else 0
    case Requesting(sent) => if sent <= REQUESTS then 4 * (REQUESTS - sent) + 1 else 0
    case _ => 0
  }

  /** The acts among the steps: all but the passing of time. */
  function Acts(steps: seq<Step>): nat {
    if steps == [] then 0 else Acts(steps[..|steps| - 1]) + if steps[|steps| - 1].By? then 1 else 0
  }

  lemma ActsLeft(c: Config, s: State, i: nat, act: Act)
    requires |s.probes| == |c.calls| && Enabled(c, s, By(i, act)) && ProbeOk(c, s, i)
    ensures Left(i, Moved(c, s, i, s.probes[i], act)) < Left(i, s.probes[i])
  {
    hide SentBy, Reserve;
  }

  lemma {:induction false} AllIdle(ps: seq<Phase>)
    requires forall i :: 0 <= i < |ps| ==> ps[i].Idle?
    ensures Sum(ps, Left) == 22 * |ps|
  {
    if ps != [] {
      AllIdle(ps[..|ps| - 1]);
    }
  }

  /** However calls, answers, cancellations and the clock interleave, no run holds more than 22 acts a call. */
  lemma {:induction false} ProbesEnd(c: Config, steps: seq<Step>)
    requires Runs(c, steps)
    ensures Acts(steps) + Sum(After(c, steps).probes, Left) <= 22 * |c.calls|
    decreases |steps|
  {
    if steps == [] {
      AllIdle(Init(c).probes);
    } else {
      var before, step := steps[..|steps| - 1], steps[|steps| - 1];
      ProbesEnd(c, before);
      RunKeepsInv(c, before);
      var s := After(c, before);
      if step.By? {
        assert ProbeOk(c, s, step.i);
        ActsLeft(c, s, step.i, step.act);
        SumUpdate(s.probes, step.i, Moved(c, s, step.i, s.probes[step.i], step.act), Left);
      }
    }
  }

  // ----- when none can go on -----

  predicate Ended(p: Phase) { p.Done? || p.Refused? || p.Cancelled? }

  /** After a wait the call can act, and not by being cancelled. */
  predicate CanAfter(c: Config, s: State, d: nat, i: nat, act: Act) {
    act != Cancel && i < |s.probes| && Enabled(c, s.(now := s.now + d), By(i, act))
  }

  ghost predicate CanGoOn(c: Config, s: State) {
    exists d: nat, i: nat, act :: CanAfter(c, s, d, i, act)
  }

  lemma {:induction false} SomeoneHolds(c: Config, ps: seq<Phase>, ip: Ip) returns (i: nat)
    requires |ps| <= |c.calls| && Sum(ps, HoldingAt(c, ip)) > 0
    ensures i < |ps| && HoldsPermit(ps[i])
  {
    var n := |ps| - 1;
    if HoldsPermit(ps[n]) {
      i := n;
    } else {
      i := SomeoneHolds(c, ps[..n], ip);
    }
  }

  lemma HolderGoesOn(c: Config, s: State, i: nat)
    requires Inv(c, s) && i < |s.probes| && HoldsPermit(s.probes[i])
    ensures CanGoOn(c, s)
  {
    assert ProbeOk(c, s, i);
    match s.probes[i]
    case Holding(_) =>
      if s.owner.None? {
        assert CanAfter(c, s, 0, i, Lock);
      } else {
        OwnerGoesOn(c, s);
      }
    case Gated(_, wake) =>
      assert s.owner == Some(i);
      OwnerGoesOn(c, s);
    case Granted(_) =>
      assert CanAfter(c, s, 0, i, Send);
    case Requesting(_) =>
      assert CanAfter(c, s, 0, i, Respond);
  }

  lemma OwnerGoesOn(c: Config, s: State)
    requires Inv(c, s) && s.owner.Some?
    ensures CanGoOn(c, s)
  {
    var j := s.owner.value;
    var p := s.probes[j];
    assert p.Gated?;
    var d := if p.wake > s.now then p.wake - s.now else 0;
    assert CanAfter(c, s, d, j, Grant);
  }

  /** While some call has not ended, some call can act, except when no host admits anyone: with a concurrency of zero
      every call that passed its budget waits for ever. */
  lemma StuckExactlyWhen(c: Config, steps: seq<Step>)
    requires Runs(c, steps)
    ensures var s := After(c, steps);
      !CanGoOn(c, s) <==> forall i :: 0 <= i < |s.probes| ==> Ended(s.probes[i]) || (s.probes[i].Reserved? && c.maxConcurrent == 0)
  {
    RunKeepsInv(c, steps);
    var s := After(c, steps);
    if i :| 0 <= i < |s.probes| && !Ended(s.probes[i]) && !(s.probes[i].Reserved? && c.maxConcurrent == 0) {
      UnendedGoesOn(c, s, i);
    } else {
      EndedStays(c, s);
    }
  }

  lemma UnendedGoesOn(c: Config, s: State, i: nat)
    requires Inv(c, s) && i < |s.probes| && !Ended(s.probes[i]) && !(s.probes[i].Reserved? && c.maxConcurrent == 0)
    ensures CanGoOn(c, s)
  {
    assert ProbeOk(c, s, i);
    if s.probes[i].Idle? {
      assert CanAfter(c, s, 0, i, Begin);
    } else if s.probes[i].Reserved? {
      var ip := c.calls[i].ip;
      assert HostOk(c, s, ip);
      if s.hosts[ip].free > 0 {
        assert CanAfter(c, s, 0, i, Acquire);
      } else {
        var j := SomeoneHolds(c, s.probes, ip);
        HolderGoesOn(c, s, j);
      }
    } else {
      HolderGoesOn(c, s, i);
    }
  }

  lemma EndedStays(c: Config, s: State)
    requires Inv(c, s)
    requires forall i :: 0 <= i < |s.probes| ==> Ended(s.probes[i]) || (s.probes[i].Reserved? && c.maxConcurrent == 0)
    ensures !CanGoOn(c, s)
  {
    forall d: nat, i: nat, act ensures !CanAfter(c, s, d, i, act) {
      if i < |s.probes| {
        assert ProbeOk(c, s, i) && HostOk(c, s, c.calls[i].ip);
      }
    }
  }

  /** Work in hand at a host: from a call's permit to its end. */
  predicate AtWork(p: Phase) { !p.Idle? && !p.Reserved? && !Ended(p) }

  function AtWorkAt(c: Config, ip: Ip): (nat, Phase) -> nat {
    (i, p) => if At(c, i, ip) && AtWork(p) then 1 else 0
  }

  /** Exactly the calls at work hold a permit, and those are at most `maxConcurrent` at each host. */
  lemma AtMostSoManyAtWork(c: Config, steps: seq<Step>, ip: Ip)
    requires Runs(c, steps)
    ensures Sum(After(c, steps).probes, AtWorkAt(c, ip)) <= c.maxConcurrent
  {
    HostBoundsHold(c, steps, ip);
    SameSum(c, After(c, steps).probes, ip);
  }

  lemma {:induction false} SameSum(c: Config, ps: seq<Phase>, ip: Ip)
    ensures Sum(ps, AtWorkAt(c, ip)) == Sum(ps, HoldingAt(c, ip))
  {
    if ps != [] {
      SameSum(c, ps[..|ps| - 1], ip);
      assert forall p :: AtWork(p) <==> HoldsPermit(p);
    }
  }
}
