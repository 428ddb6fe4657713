/** The entries of a drift report themselves: which there are, how urgent each is, and their order. */
module DriftEntries {
  import opened Wrappers
  import opened Domain
  import opened PortSpecs
  import opened Reachabilities
  import opened ReachabilityLaws
  import opened Drift
  import opened DriftLaws

  // ----- how urgent -----

  predicate BecomesAllowed(kind: DriftKind) {
    kind.ReachabilityChanged? && kind.after == Allowed && kind.before != Allowed
  }

  predicate StopsBeingAllowed(kind: DriftKind) {
    kind.ReachabilityChanged? && kind.before == Allowed && kind.after != Allowed
  }

  /** Something new can be reached. */
  predicate OpensUp(kind: DriftKind) { kind.EndpointAppeared? || BecomesAllowed(kind) }

  predicate OwnerChanged(kind: DriftKind) { kind.ProcessChanged? || kind.SignatureChanged? }

  /** Each severity, by when an entry has it: what opens up is as urgent as its exposure is wide, a changed owner is
      more urgent on all interfaces, and what closes is informational. */
  predicate Graded(kind: DriftKind, exposure: Exposure, severity: Severity) {
    && (severity == Critical <==> OpensUp(kind) && exposure == AllInterfaces)
    && (severity == High <==>
          (OpensUp(kind) && exposure == SpecificInterface) || (OwnerChanged(kind) && exposure == AllInterfaces))
    && (severity == Low <==>
          (OpensUp(kind) && exposure == Loopback) || kind.EndpointDisappeared? || StopsBeingAllowed(kind))
  }

  lemma SeverityIsGraded(kind: DriftKind, exposure: Exposure, severity: Severity)
    ensures Graded(kind, exposure, severity) <==> severity == SeverityFor(kind, exposure)
  {
  }

  // ----- which entries -----

  /** The baseline and the current endpoint differ in the way the kind says; each is judged by its own rules. */
  predicate Changed(kind: DriftKind, b: Endpoint, c: Endpoint, baseline: ScanSnapshot, current: ScanSnapshot) {
    match kind
    case ProcessChanged => b.processPath != c.processPath
    case SignatureChanged => b.signatureStatus != c.signatureStatus
    case ReachabilityChanged(before, after) =>
      && before == Evaluate(b, baseline.firewallRules, baseline.profiles).reachability
      && after == Evaluate(c, current.firewallRules, current.profiles).reachability
      && before != after
    case _ => false
  }

  predicate About(e: DriftEntry, x: Endpoint) { e.endpointKey == Some(KeyOf(x)) && Graded(e.kind, x.exposure, e.severity) }

  /** What makes an entry: a current endpoint the baseline lacks, a baseline one that is gone, a current one that
      differs from the last baseline endpoint of its key, or another list of rules. */
  predicate Justified(e: DriftEntry, baseline: ScanSnapshot, current: ScanSnapshot) {
    match e.kind
    case RuleSetChanged => e.endpointKey.None? && e.severity == Medium && baseline.firewallRules != current.firewallRules
    case EndpointAppeared => exists x :: x in current.endpoints && About(e, x) && !HasKey(baseline.endpoints, KeyOf(x))
    case EndpointDisappeared => exists x :: x in baseline.endpoints && About(e, x) && !HasKey(current.endpoints, KeyOf(x))
    case _ => exists b, x :: b in baseline.endpoints && x in current.endpoints && About(e, x)
                && ComparedWith(baseline.endpoints, b, KeyOf(x)) && Changed(e.kind, b, x, baseline, current)
  }

  lemma {:induction false} UnmatchedAre(endpoints: seq<Endpoint>, other: map<EndpointKey, Endpoint>, kind: DriftKind, e: DriftEntry)
    ensures e in Unmatched(endpoints, other, kind) <==> exists x :: x in endpoints && KeyOf(x) !in other && e == Entry(kind, x)
  {
    hide Entry;
    if endpoints != [] {
      var init, last := endpoints[..|endpoints| - 1], endpoints[|endpoints| - 1];
      UnmatchedAre(init, other, kind, e);
      assert endpoints == init + [last];
    }
  }

  lemma ChangesOfAre(b: Endpoint, c: Endpoint, baseline: ScanSnapshot, current: ScanSnapshot, e: DriftEntry)
    ensures e in ChangesOf(b, c, baseline, current) <==> e == Entry(e.kind, c) && Changed(e.kind, b, c, baseline, current)
  {
    hide SeverityFor, Evaluate;
  }

  lemma {:induction false} ChangesAre(endpoints: seq<Endpoint>, before: map<EndpointKey, Endpoint>, baseline: ScanSnapshot,
                                      current: ScanSnapshot, e: DriftEntry)
    ensures e in Changes(endpoints, before, baseline, current) <==>
      exists x :: x in endpoints && KeyOf(x) in before && e in ChangesOf(before[KeyOf(x)], x, baseline, current)
  {
    hide ChangesOf;
    if endpoints != [] {
      var init, last := endpoints[..|endpoints| - 1], endpoints[|endpoints| - 1];
      ChangesAre(init, before, baseline, current, e);
      assert endpoints == init + [last];
    }
  }

  lemma EntryIs(e: DriftEntry, kind: DriftKind, x: Endpoint)
    ensures e == Entry(kind, x) <==> e.kind == kind && About(e, x)
  {
    SeverityIsGraded(e.kind, x.exposure, e.severity);
    hide SeverityFor, Graded;
  }

  lemma UnmatchedJustified(endpoints: seq<Endpoint>, others: seq<Endpoint>, kind: DriftKind, e: DriftEntry)
    ensures e in Unmatched(endpoints, Index(others), kind) <==>
      e.kind == kind && exists x :: x in endpoints && About(e, x) && !HasKey(others, KeyOf(x))
  {
    UnmatchedAre(endpoints, Index(others), kind, e);
    IndexKeys(others);
    forall x ensures e == Entry(kind, x) <==> e.kind == kind && About(e, x) { EntryIs(e, kind, x); }
    hide Entry, About, HasKey, Index, Unmatched;
  }

  lemma ChangesJustified(baseline: ScanSnapshot, current: ScanSnapshot, e: DriftEntry)
    ensures e in Changes(current.endpoints, Index(baseline.endpoints), baseline, current) <==>
      exists b, x :: b in baseline.endpoints && x in current.endpoints && About(e, x)
        && ComparedWith(baseline.endpoints, b, KeyOf(x)) && Changed(e.kind, b, x, baseline, current)
  {
    var index := Index(baseline.endpoints);
    hide Entry, About, Changed, ChangesOf, Changes, Index, ComparedWith;
    ChangesAre(current.endpoints, index, baseline, current, e);
    forall b, x ensures e in ChangesOf(b, x, baseline, current) <==> About(e, x) && Changed(e.kind, b, x, baseline, current) {
      ChangesOfAre(b, x, baseline, current, e);
      EntryIs(e, e.kind, x);
    }
    forall b, x {:trigger ComparedWith(baseline.endpoints, b, KeyOf(x))}
      ensures (KeyOf(x) in index && index[KeyOf(x)] == b) <==> ComparedWith(baseline.endpoints, b, KeyOf(x))
      ensures KeyOf(x) in index ==> index[KeyOf(x)] in baseline.endpoints
    {
      IndexIs(baseline.endpoints, b, KeyOf(x));
      if KeyOf(x) in index {
        IndexKeepsLast(baseline.endpoints, KeyOf(x));
      }
    }
    if x :| x in current.endpoints && KeyOf(x) in index && e in ChangesOf(index[KeyOf(x)], x, baseline, current) {
      var b := index[KeyOf(x)];
      assert ComparedWith(baseline.endpoints, b, KeyOf(x)) && Changed(e.kind, b, x, baseline, current);
    }
  }

  /** The entries of a report are exactly the justified ones, with the severity they are graded with, apart from
      endpoints that come and go above the ephemeral threshold. */
  lemma EntriesExactly(baseline: ScanSnapshot, current: ScanSnapshot, e: DriftEntry)
    ensures e in Difference(baseline, current).entries <==> Justified(e, baseline, current) && !Churn(e.kind, e.endpointKey)
  {
    UnmatchedJustified(current.endpoints, baseline.endpoints, EndpointAppeared, e);
    UnmatchedJustified(baseline.endpoints, current.endpoints, EndpointDisappeared, e);
    ChangesJustified(baseline, current, e);
    FilterSplits(Found(baseline, current));
    hide Unmatched, Changes, Index, Sift, About, HasKey, ComparedWith, Churn;
    FoundAre(baseline, current, e);
    hide Found;
  }

  lemma FoundAre(baseline: ScanSnapshot, current: ScanSnapshot, e: DriftEntry)
    ensures e in Found(baseline, current) <==>
      || e in Unmatched(current.endpoints, Index(baseline.endpoints), EndpointAppeared)
      || e in Unmatched(baseline.endpoints, Index(current.endpoints), EndpointDisappeared)
      || e in Changes(current.endpoints, Index(baseline.endpoints), baseline, current)
      || (e == DriftEntry(RuleSetChanged, None, Medium) && baseline.firewallRules != current.firewallRules)
  {
    hide Unmatched, Changes, Index;
  }

  predicate NewlyBlocked(kind: DriftKind) {
    kind.ReachabilityChanged? && kind.after == Blocked && kind.before != Blocked
  }

  /** The documentation grades a change of reachability that allows nothing as low when it newly blocks, and as medium
      otherwise. The code does so exactly when the traffic was allowed before just if it is blocked now. */
  lemma LowExactlyWhenBlocked(kind: DriftKind, exposure: Exposure)
    requires kind.ReachabilityChanged? && kind.before != kind.after && !BecomesAllowed(kind)
    ensures (SeverityFor(kind, exposure) == if NewlyBlocked(kind) then Low else Medium)
       <==> (kind.before == Allowed <==> kind.after == Blocked)
  {
    SeverityIsGraded(kind, exposure, SeverityFor(kind, exposure));
  }

  /** An endpoint that no rule covered and that a new rule blocks is reported as medium. */
  lemma NewlyBlockedIsNotLow(baseline: ScanSnapshot, current: ScanSnapshot, e: Endpoint, block: FirewallRule)
    requires e == Endpoint(Tcp, V4(0), 443, None, None, [], Unknown, AllInterfaces, None)
    requires block == FirewallRule(1, "block", Inbound, Block, Tcp, Any, None, None, true, Local)
    requires baseline.endpoints == current.endpoints == [e] && baseline.firewallRules == [] && current.firewallRules == [block]
    ensures DriftEntry(ReachabilityChanged(DefaultAction, Blocked), Some(KeyOf(e)), Medium) in Difference(baseline, current).entries
  {
    var entry := DriftEntry(ReachabilityChanged(DefaultAction, Blocked), Some(KeyOf(e)), Medium);
    VerdictMeans(e, [], baseline.profiles);
    VerdictMeans(e, [block], current.profiles);
    assert block in [block] && RuleApplies(block, e);
    SeverityIsGraded(entry.kind, e.exposure, Medium);
    EntriesExactly(baseline, current, entry);
    hide Evaluate, Difference;
    assert LastAt(baseline.endpoints, 0) && baseline.endpoints[0] == e;
    assert ComparedWith(baseline.endpoints, e, KeyOf(e)) && About(entry, e) && Changed(entry.kind, e, e, baseline, current);
  }

  // ----- their order -----

  /** Keys in order: TCP before UDP, IPv4 before IPv6, then by address and by port. */
  predicate KeyLe(k: EndpointKey, l: EndpointKey) {
    if k.protocol != l.protocol then k.protocol == Tcp
    else if k.bindAddress.V4? != l.bindAddress.V4? then k.bindAddress.V4?
    else if k.bindAddress != l.bindAddress then k.bindAddress.bits < l.bindAddress.bits
    else k.port <= l.port
  }

  predicate KeysAscend(endpoints: seq<Endpoint>) {
    forall i, j :: 0 <= i < j < |endpoints| ==> KeyLe(KeyOf(endpoints[i]), KeyOf(endpoints[j]))
  }

  function Group(kind: DriftKind): nat {
    match kind
    case EndpointAppeared => 0
    case EndpointDisappeared => 1
    case ProcessChanged => 2
    case SignatureChanged => 2
    case ReachabilityChanged(_, _) => 2
    case RuleSetChanged => 3
  }

  /** Appearances come first, then disappearances, then changes, then the rule set; within each by key. */
  predicate EntryLe(e: DriftEntry, f: DriftEntry) {
    || Group(e.kind) < Group(f.kind)
    || (Group(e.kind) == Group(f.kind)
        && (e.endpointKey.Some? && f.endpointKey.Some? ==> KeyLe(e.endpointKey.value, f.endpointKey.value)))
  }

  predicate InOrder(entries: seq<DriftEntry>) {
    forall i, j :: 0 <= i < j < |entries| ==> EntryLe(entries[i], entries[j])
  }

  lemma OrderSum(a: seq<DriftEntry>, b: seq<DriftEntry>)
    requires InOrder(a) && InOrder(b) && forall e, f :: e in a && f in b ==> EntryLe(e, f)
    ensures InOrder(a + b)
  {
    hide EntryLe;
    forall i, j | 0 <= i < j < |a + b| ensures EntryLe((a + b)[i], (a + b)[j]) {
      if i < |a| {
        assert a[i] in a;
      }
      if j >= |a| {
        assert b[j - |a|] in b;
      }
    }
  }

  lemma {:induction false} UnmatchedInOrder(endpoints: seq<Endpoint>, other: map<EndpointKey, Endpoint>, kind: DriftKind)
    requires KeysAscend(endpoints)
    ensures InOrder(Unmatched(endpoints, other, kind))
    ensures forall e :: e in Unmatched(endpoints, other, kind) ==> e.kind == kind
  {
    hide KeyLe, SeverityFor, KeyOf;
    if endpoints != [] {
      var init, last := endpoints[..|endpoints| - 1], endpoints[|endpoints| - 1];
      UnmatchedInOrder(init, other, kind);
      var more := if KeyOf(last) in other then [] else [Entry(kind, last)];
      forall e, f | e in Unmatched(init, other, kind) && f in more ensures EntryLe(e, f) {
        UnmatchedAre(init, other, kind, e);
        var x :| x in init && KeyOf(x) !in other && e == Entry(kind, x);
        var i :| 0 <= i < |init| && init[i] == x;
        assert endpoints[i] == x;
      }
      hide EntryLe, InOrder;
      assert InOrder(more) by { OneInOrder(more); }
      OrderSum(Unmatched(init, other, kind), more);
    }
  }

  lemma OneInOrder(more: seq<DriftEntry>)
    requires |more| <= 1
    ensures InOrder(more)
  {
  }

  lemma KeyLeRefl(k: EndpointKey)
    ensures KeyLe(k, k)
  {
  }

  lemma {:induction false} ChangesInOrder(endpoints: seq<Endpoint>, before: map<EndpointKey, Endpoint>, baseline: ScanSnapshot, current: ScanSnapshot)
    requires KeysAscend(endpoints)
    ensures InOrder(Changes(endpoints, before, baseline, current))
    ensures forall e :: e in Changes(endpoints, before, baseline, current) ==> Group(e.kind) == 2
  {
    hide KeyLe, SeverityFor, ChangesOf, Changed, KeyOf;
    if endpoints != [] {
      var init, last := endpoints[..|endpoints| - 1], endpoints[|endpoints| - 1];
      ChangesInOrder(init, before, baseline, current);
      var done := Changes(init, before, baseline, current);
      var more := if KeyOf(last) in before then ChangesOf(before[KeyOf(last)], last, baseline, current) else [];
      forall f | f in more ensures Group(f.kind) == 2 && f.endpointKey == Some(KeyOf(last)) {
        ChangeIs(before[KeyOf(last)], last, baseline, current, f);
      }
      forall e, f | e in done && f in more ensures EntryLe(e, f) {
        ChangesAre(init, before, baseline, current, e);
        var x :| x in init && KeyOf(x) in before && e in ChangesOf(before[KeyOf(x)], x, baseline, current);
        var i :| 0 <= i < |init| && init[i] == x;
        assert endpoints[i] == x;
        ChangeIs(before[KeyOf(x)], x, baseline, current, e);
      }
      KeyLeRefl(KeyOf(last));
      assert InOrder(more) by {
        assert forall i :: 0 <= i < |more| ==> more[i] in more;
      }
      hide EntryLe, InOrder;
      OrderSum(done, more);
    }
  }

  lemma ChangeIs(b: Endpoint, c: Endpoint, baseline: ScanSnapshot, current: ScanSnapshot, e: DriftEntry)
    requires e in ChangesOf(b, c, baseline, current)
    ensures Group(e.kind) == 2 && e.endpointKey == Some(KeyOf(c))
  {
    ChangesOfAre(b, c, baseline, current, e);
    hide SeverityFor, Evaluate, ChangesOf;
  }

  lemma {:induction false} SiftInOrder(entries: seq<DriftEntry>, churn: bool)
    requires InOrder(entries)
    ensures InOrder(Sift(entries, churn)) && forall e :: e in Sift(entries, churn) ==> e in entries
  {
    hide EntryLe, IsEphemeralChurn;
    if entries != [] {
      var first, rest := entries[0], entries[1..];
      SiftInOrder(rest, churn);
      assert entries == [first] + rest;
      forall f | f in rest ensures EntryLe(first, f) {
        var j :| 0 <= j < |rest| && rest[j] == f;
        assert entries[j + 1] == f;
      }
      OneInOrder(Kept(first, churn));
      OrderSum(Kept(first, churn), Sift(rest, churn));
    }
  }

  /** A report on two sorted snapshots lists its entries in one fixed order. */
  lemma EntriesInOrder(baseline: ScanSnapshot, current: ScanSnapshot)
    requires KeysAscend(baseline.endpoints) && KeysAscend(current.endpoints)
    ensures InOrder(Difference(baseline, current).entries)
  {
    var appeared := Unmatched(current.endpoints, Index(baseline.endpoints), EndpointAppeared);
    var disappeared := Unmatched(baseline.endpoints, Index(current.endpoints), EndpointDisappeared);
    var changes, rules := Changes(current.endpoints, Index(baseline.endpoints), baseline, current), RuleSetEntry(baseline, current);
    UnmatchedInOrder(current.endpoints, Index(baseline.endpoints), EndpointAppeared);
    UnmatchedInOrder(baseline.endpoints, Index(current.endpoints), EndpointDisappeared);
    ChangesInOrder(current.endpoints, Index(baseline.endpoints), baseline, current);
    OneInOrder(rules);
    hide Unmatched, Changes, Index, InOrder, KeysAscend, Sift;
    OrderSum(appeared, disappeared);
    OrderSum(appeared + disappeared, changes);
    OrderSum(appeared + disappeared + changes, rules);
    SiftInOrder(Found(baseline, current), false);
  }
}
