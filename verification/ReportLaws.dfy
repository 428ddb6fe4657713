/** The rollup's counts agree with one another and with the sections of the report, in any order of the hosts. */
module ReportLaws {
  import opened Wrappers
  import opened PortSpecs
  import opened Domain
  import opened Reachabilities
  import opened ReachabilityLaws
  import opened Drift
  import opened Sorting
  import opened Snapshots
  import opened ReportModels
  import Strategies

  function TotalEndpoints(snapshots: seq<ScanSnapshot>): nat {
    if snapshots == [] then 0
    else TotalEndpoints(snapshots[..|snapshots| - 1]) + |snapshots[|snapshots| - 1].endpoints|
  }

  // ----- the sums -----

  lemma {:induction false} EndpointSums(endpoints: seq<Endpoint>, s: ScanSnapshot)
    ensures InEndpoints(endpoints, s, Exposed(Loopback)) + InEndpoints(endpoints, s, Exposed(SpecificInterface))
          + InEndpoints(endpoints, s, Exposed(AllInterfaces)) == |endpoints|
    ensures InEndpoints(endpoints, s, Reached(LocalOnly)) + InEndpoints(endpoints, s, Reached(Blocked))
          + InEndpoints(endpoints, s, Reached(Allowed)) + InEndpoints(endpoints, s, Reached(DefaultAction))
          + InEndpoints(endpoints, s, Reached(Indeterminate)) == |endpoints|
    ensures InEndpoints(endpoints, s, Reached(LocalOnly)) == InEndpoints(endpoints, s, Exposed(Loopback))
  {
    if endpoints != [] {
      EndpointSums(endpoints[..|endpoints| - 1], s);
      VerdictMeans(endpoints[|endpoints| - 1], s.firewallRules, s.profiles);
      hide Evaluate;
    }
  }

  lemma {:induction false} SnapshotSums(snapshots: seq<ScanSnapshot>)
    ensures InSnapshots(snapshots, Exposed(Loopback)) + InSnapshots(snapshots, Exposed(SpecificInterface))
          + InSnapshots(snapshots, Exposed(AllInterfaces)) == TotalEndpoints(snapshots)
    ensures InSnapshots(snapshots, Reached(LocalOnly)) + InSnapshots(snapshots, Reached(Blocked))
          + InSnapshots(snapshots, Reached(Allowed)) + InSnapshots(snapshots, Reached(DefaultAction))
          + InSnapshots(snapshots, Reached(Indeterminate)) == TotalEndpoints(snapshots)
    ensures InSnapshots(snapshots, Reached(LocalOnly)) == InSnapshots(snapshots, Exposed(Loopback))
  {
    hide InEndpoints;
    if snapshots != [] {
      SnapshotSums(snapshots[..|snapshots| - 1]);
      EndpointSums(snapshots[|snapshots| - 1].endpoints, snapshots[|snapshots| - 1]);
    }
  }

  lemma {:induction false} DriftSums(entries: seq<DriftEntry>)
    ensures InDrift(entries, Low) + InDrift(entries, Medium) + InDrift(entries, High) + InDrift(entries, Critical) == |entries|
  {
    if entries != [] {
      DriftSums(entries[..|entries| - 1]);
    }
  }

  /** Exposure counts and reachability counts each add up to every endpoint, local-only equals loopback, and
      the drift severities add up to the drift entries. */
  lemma RollupAddsUp(m: ReportModel, snapshots: seq<ScanSnapshot>, drift: Option<DriftReport>, redact: Redactor)
    requires Models(m, snapshots, drift, redact)
    ensures var e := m.rollup.byExposure; e.loopback + e.specificInterface + e.allInterfaces == TotalEndpoints(snapshots)
    ensures var r := m.rollup.byReachability;
      r.localOnly + r.blocked + r.allowed + r.defaultAction + r.indeterminate == TotalEndpoints(snapshots)
    ensures m.rollup.byReachability.localOnly == m.rollup.byExposure.loopback
    ensures var d := m.rollup.bySeverity; d.low + d.medium + d.high + d.critical == |m.drift|
  {
    hide Sort, Sections;
    SnapshotSums(snapshots);
    DriftSums(m.drift);
    CountersAre(m.rollup);
    SeveritiesAre(m.rollup.bySeverity);
    hide Counter, SeverityCounter, CountsOf, InSnapshots, InDrift, TotalEndpoints;
  }

  lemma CountersAre(r: Rollup)
    ensures var c := CountsOf(r);
      && Counter(c, Exposed(Loopback)) == r.byExposure.loopback
      && Counter(c, Exposed(SpecificInterface)) == r.byExposure.specificInterface
      && Counter(c, Exposed(AllInterfaces)) == r.byExposure.allInterfaces
      && Counter(c, Reached(LocalOnly)) == r.byReachability.localOnly
      && Counter(c, Reached(Blocked)) == r.byReachability.blocked
      && Counter(c, Reached(Allowed)) == r.byReachability.allowed
      && Counter(c, Reached(DefaultAction)) == r.byReachability.defaultAction
      && Counter(c, Reached(Indeterminate)) == r.byReachability.indeterminate
      && Counter(c, UnsignedBinary) == r.unsignedBinaries
  {
  }

  lemma SeveritiesAre(c: SeverityCounts)
    ensures SeverityCounter(c, Low) == c.low && SeverityCounter(c, Medium) == c.medium
         && SeverityCounter(c, High) == c.high && SeverityCounter(c, Critical) == c.critical
  {
  }

  // ----- the sections count the same -----

  lemma {:induction false} ViewsCount(endpoints: seq<Endpoint>, s: ScanSnapshot, redact: Redactor, t: Tally)
    ensures InViews(ViewsOf(endpoints, s, redact), t) == InEndpoints(endpoints, s, t)
    ensures |ViewsOf(endpoints, s, redact)| == |endpoints|
  {
    hide Evaluate, FallsUnder, RuleViews;
    if endpoints != [] {
      var init := endpoints[..|endpoints| - 1];
      ViewsCount(init, s, redact, t);
      var views := ViewsOf(endpoints, s, redact);
      assert views[..|views| - 1] == ViewsOf(init, s, redact);
    }
  }

  lemma {:induction false} HostsSum(a: seq<HostSection>, b: seq<HostSection>, t: Tally)
    ensures InHosts(a + b, t) == InHosts(a, t) + InHosts(b, t)
  {
    hide InViews;
    if a == [] {
      assert a + b == b;
    } else {
      HostsSum(a[1..], b, t);
      assert (a + b)[1..] == a[1..] + b;
    }
  }

  lemma {:induction false} HostsPermute(a: seq<HostSection>, b: seq<HostSection>, t: Tally)
    requires multiset(a) == multiset(b)
    ensures InHosts(a, t) == InHosts(b, t)
  {
    hide InViews;
    if a == [] {
      SameElements(a, b);
    } else {
      var i := TakeOut(a, b);
      HostsPermute(a[1..], b[..i] + b[i + 1..], t);
      assert b == b[..i] + ([b[i]] + b[i + 1..]) && ([b[i]] + b[i + 1..])[1..] == b[i + 1..];
      HostsSum(b[..i], [b[i]] + b[i + 1..], t);
      HostsSum(b[..i], b[i + 1..], t);
    }
  }

  lemma {:induction false} SnapshotsFromFront(snapshots: seq<ScanSnapshot>, t: Tally)
    requires snapshots != []
    ensures InSnapshots(snapshots, t) == InEndpoints(snapshots[0].endpoints, snapshots[0], t) + InSnapshots(snapshots[1..], t)
  {
    hide InEndpoints;
    var n := |snapshots| - 1;
    if n > 0 {
      SnapshotsFromFront(snapshots[..n], t);
      assert snapshots[..n][1..] == snapshots[1..][..n - 1];
    }
  }

  lemma {:induction false} SectionsCount(snapshots: seq<ScanSnapshot>, redact: Redactor, t: Tally)
    ensures InHosts(Sections(snapshots, redact), t) == InSnapshots(snapshots, t)
  {
    hide InEndpoints, InViews, ViewsOf;
    if snapshots != [] {
      SectionsCount(snapshots[1..], redact, t);
      ViewsCount(snapshots[0].endpoints, snapshots[0], redact, t);
      SnapshotsFromFront(snapshots, t);
      hide InSnapshots;
      assert Sections(snapshots, redact)[1..] == Sections(snapshots[1..], redact);
    }
  }

  /** Counting the endpoints the report displays gives the very numbers of its rollup. */
  lemma RollupAgreesWithSections(m: ReportModel, snapshots: seq<ScanSnapshot>, drift: Option<DriftReport>, redact: Redactor, t: Tally)
    requires Models(m, snapshots, drift, redact)
    ensures Counter(CountsOf(m.rollup), t) == InHosts(m.hosts, t)
    ensures m.rollup.hostsScanned == |m.hosts|
  {
    SectionsCount(snapshots, redact, t);
    SortKeeps(Sections(snapshots, redact), HostLe);
    SectionsLength(snapshots, redact);
    SameElements(Sections(snapshots, redact), m.hosts);
    hide Counter, InSnapshots, InHosts, Sections, Sort;
    HostsPermute(Sections(snapshots, redact), m.hosts, t);
  }

  lemma {:induction false} SectionsLength(snapshots: seq<ScanSnapshot>, redact: Redactor)
    ensures |Sections(snapshots, redact)| == |snapshots|
    ensures forall i :: 0 <= i < |snapshots| ==> Sections(snapshots, redact)[i] == SectionOf(snapshots[i], redact)
  {
    hide SectionOf;
    if snapshots != [] {
      SectionsLength(snapshots[1..], redact);
    }
  }

  // ----- the order of the hosts -----

  ghost predicate DistinctHosts(snapshots: seq<ScanSnapshot>) {
    forall i, j :: 0 <= i < j < |snapshots| ==>
      snapshots[i].hostId != snapshots[j].hostId || snapshots[i].scanId != snapshots[j].scanId
  }

  lemma {:induction false} SectionsSum(a: seq<ScanSnapshot>, b: seq<ScanSnapshot>, redact: Redactor)
    ensures Sections(a + b, redact) == Sections(a, redact) + Sections(b, redact)
  {
    hide SectionOf;
    if a == [] {
      assert a + b == b;
    } else {
      SectionsSum(a[1..], b, redact);
      assert (a + b)[1..] == a[1..] + b && (a + b)[0] == a[0];
    }
  }

  lemma SectionsOf(first: ScanSnapshot, rest: seq<ScanSnapshot>, redact: Redactor)
    ensures Sections([first] + rest, redact) == [SectionOf(first, redact)] + Sections(rest, redact)
  {
    hide SectionOf;
    assert ([first] + rest)[1..] == rest;
  }

  lemma SectionsAround(b: seq<ScanSnapshot>, i: nat, redact: Redactor)
    requires i < |b|
    ensures Sections(b, redact) == Sections(b[..i], redact) + ([SectionOf(b[i], redact)] + Sections(b[i + 1..], redact))
    ensures Sections(b[..i] + b[i + 1..], redact) == Sections(b[..i], redact) + Sections(b[i + 1..], redact)
  {
    hide SectionOf, Sections;
    var tail := [b[i]] + b[i + 1..];
    SectionsSum(b[..i], tail, redact);
    SectionsSum(b[..i], b[i + 1..], redact);
    SectionsOf(b[i], b[i + 1..], redact);
    assert b == b[..i] + tail;
  }

  lemma {:induction false} SectionsPermute(a: seq<ScanSnapshot>, b: seq<ScanSnapshot>, redact: Redactor)
    requires multiset(a) == multiset(b)
    ensures multiset(Sections(a, redact)) == multiset(Sections(b, redact))
  {
    if a == [] {
      SameElements(a, b);
    } else {
      assert Sections(a, redact) == [SectionOf(a[0], redact)] + Sections(a[1..], redact);
      hide SectionOf, Sections;
      var i := TakeOut(a, b);
      SectionsPermute(a[1..], b[..i] + b[i + 1..], redact);
      SectionsAround(b, i, redact);
      PutBack(SectionOf(a[0], redact), Sections(a[1..], redact), Sections(b[..i], redact), Sections(b[i + 1..], redact));
    }
  }

  lemma HostsDistinct(snapshots: seq<ScanSnapshot>, redact: Redactor)
    requires DistinctHosts(snapshots)
    ensures DistinctKeys(Sections(snapshots, redact), HostLe)
  {
    SectionsLength(snapshots, redact);
    hide Sections, ViewsOf;
  }

  lemma HostsOrder()
    ensures Ordering(HostLe)
  {
  }

  lemma CountersDetermine(c: Counts, d: Counts)
    requires forall t :: Counter(c, t) == Counter(d, t)
    ensures c == d
  {
    var r := Rollup(0, c.exposure, c.reachability, c.unsignedBinaries, 0, 0, SeverityCounts(0, 0, 0, 0));
    var q := Rollup(0, d.exposure, d.reachability, d.unsignedBinaries, 0, 0, SeverityCounts(0, 0, 0, 0));
    CountersAre(r);
    CountersAre(q);
    assert CountsOf(r) == c && CountsOf(q) == d;
    hide Counter;
  }

  /** The counters of two rollups over the same data are the same. */
  lemma RecountUnique(r: Rollup, q: Rollup, a: seq<ScanSnapshot>, b: seq<ScanSnapshot>, drift: Option<DriftReport>)
    requires Recounts(r, a, drift) && Recounts(q, b, drift) && |a| == |b|
    requires forall t :: InSnapshots(a, t) == InSnapshots(b, t)
    ensures r == q
  {
    SeveritiesAre(r.bySeverity);
    SeveritiesAre(q.bySeverity);
    hide Counter, SeverityCounter, InSnapshots, InDrift;
    CountersDetermine(CountsOf(r), CountsOf(q));
  }

  /** With distinct host keys the built model does not depend on the order of the hosts. */
  lemma HostOrderForgotten(m: ReportModel, n: ReportModel, a: seq<ScanSnapshot>, b: seq<ScanSnapshot>,
                           drift: Option<DriftReport>, redact: Redactor)
    requires Models(m, a, drift, redact) && Models(n, b, drift, redact)
    requires multiset(a) == multiset(b) && DistinctHosts(a) && DistinctHosts(b)
    ensures m == n
  {
    hide Sections, Sort, DistinctHosts, Recounts, InSnapshots, InHosts;
    SameElements(a, b);
    SectionsPermute(a, b, redact);
    HostsDistinct(a, redact);
    HostsDistinct(b, redact);
    HostsOrder();
    DistinctSortAlike(Sections(a, redact), Sections(b, redact), HostLe);
    forall t ensures InSnapshots(a, t) == InSnapshots(b, t) {
      SectionsCount(a, redact, t);
      SectionsCount(b, redact, t);
      HostsPermute(Sections(a, redact), Sections(b, redact), t);
    }
    RecountUnique(m.rollup, n.rollup, a, b, drift);
  }

  // ----- the order of everything -----

  function AllCanonical(snapshots: seq<ScanSnapshot>): seq<ScanSnapshot> {
    seq(|snapshots|, i requires 0 <= i < |snapshots| => Canonical(snapshots[i]))
  }

  /** `b` lists the snapshots of `a` in some order, `p`, each with its collections in some order. */
  ghost predicate Shuffled(a: seq<ScanSnapshot>, p: seq<ScanSnapshot>, b: seq<ScanSnapshot>) {
    multiset(p) == multiset(a) && |b| == |p| && forall i :: 0 <= i < |b| ==> Permuted(p[i], b[i])
  }

  lemma ShuffledCanonical(a: seq<ScanSnapshot>, p: seq<ScanSnapshot>, b: seq<ScanSnapshot>)
    requires Shuffled(a, p, b) && forall s :: s in a ==> NoTiedKeys(s)
    ensures AllCanonical(p) == AllCanonical(b)
  {
    hide Permuted, NoTiedKeys, Canonical;
    SameElements(a, p);
    forall i | 0 <= i < |b| ensures Canonical(p[i]) == Canonical(b[i]) {
      assert p[i] in p;
      PermutedNoTies(p[i], b[i]);
      DistinctOrderForgotten(p[i], b[i]);
    }
  }

  lemma PermutedNoTies(s: ScanSnapshot, t: ScanSnapshot)
    requires Permuted(s, t) && NoTiedKeys(s)
    ensures NoTiedKeys(t)
  {
    KeysOrder();
    DistinctPermutes(s.endpoints, t.endpoints, EndpointLe);
    DistinctPermutes(s.firewallRules, t.firewallRules, RuleLe);
    DistinctPermutes(s.profiles, t.profiles, ProfileLe);
    hide DistinctKeys;
  }

  lemma {:induction false} CanonicalPermute(a: seq<ScanSnapshot>, b: seq<ScanSnapshot>)
    requires multiset(a) == multiset(b)
    ensures multiset(AllCanonical(a)) == multiset(AllCanonical(b))
  {
    hide Canonical;
    if a == [] {
      SameElements(a, b);
      assert b == [];
    } else {
      var i := TakeOut(a, b);
      var rest := b[..i] + b[i + 1..];
      CanonicalPermute(a[1..], rest);
      var c, d := AllCanonical(a), AllCanonical(b);
      assert c[1..] == AllCanonical(a[1..]) && d[..i] + d[i + 1..] == AllCanonical(rest);
      PutBack(c[0], c[1..], d[..i], d[i + 1..]);
      assert c == [c[0]] + c[1..] && d == d[..i] + ([d[i]] + d[i + 1..]);
    }
  }

  lemma HostsPermuted(a: seq<ScanSnapshot>, p: seq<ScanSnapshot>)
    requires multiset(a) == multiset(p) && DistinctHosts(a)
    ensures DistinctHosts(p)
  {
    forall i, j | 0 <= i < j < |p| ensures p[i].hostId != p[j].hostId || p[i].scanId != p[j].scanId {
      var k, l := PairIn(a, p, i, j);
      assert k < l || l < k;
    }
  }

  /** The built report does not depend on the order in which hosts, endpoints, rules or profiles were supplied, as
      long as hosts, endpoint keys, rule ids and profile kinds are distinct. */
  lemma SupplyOrderForgotten(m: ReportModel, n: ReportModel, a: seq<ScanSnapshot>, p: seq<ScanSnapshot>, b: seq<ScanSnapshot>,
                             drift: Option<DriftReport>, redact: Redactor)
    requires Models(m, AllCanonical(a), drift, redact) && Models(n, AllCanonical(b), drift, redact)
    requires Shuffled(a, p, b) && DistinctHosts(a) && forall s :: s in a ==> NoTiedKeys(s)
    ensures m == n
  {
    hide Models, DistinctHosts, NoTiedKeys, Permuted;
    ShuffledCanonical(a, p, b);
    CanonicalPermute(a, p);
    HostsPermuted(a, p);
    CanonicalHosts(a);
    CanonicalHosts(p);
    HostOrderForgotten(m, n, AllCanonical(a), AllCanonical(p), drift, redact);
  }

  lemma CanonicalHosts(a: seq<ScanSnapshot>)
    requires DistinctHosts(a)
    ensures DistinctHosts(AllCanonical(a))
  {
    hide Sort;
  }

  // ----- what a report displays -----

  /** The view shows this endpoint: the same socket and owner, the reachability its own host's rules give, and
      its command line only as redacted, with the markers of what was taken out. */
  predicate Shows(v: EndpointView, e: Endpoint, s: ScanSnapshot, redact: Redactor) {
    && v.protocol == e.protocol && v.bindAddress == e.bindAddress && v.port == e.port
    && v.processPath == e.processPath && v.hostedServices == e.hostedServices
    && v.signatureStatus == e.signatureStatus && v.exposure == e.exposure
    && v.reachability == Evaluate(e, s.firewallRules, s.profiles).reachability
    && (v.commandLine.Some? <==> e.commandLine.Some?)
    && (v.commandLine.Some? ==> (v.commandLine.value, v.commandLineRedactions) == redact(e.commandLine.value))
    && (v.commandLine.None? ==> v.commandLineRedactions == [])
  }

  lemma {:induction false} ViewsShow(endpoints: seq<Endpoint>, s: ScanSnapshot, redact: Redactor)
    ensures var views := ViewsOf(endpoints, s, redact);
      |views| == |endpoints| && forall i :: 0 <= i < |endpoints| ==> Shows(views[i], endpoints[i], s, redact)
  {
    hide Evaluate, RuleViews;
    if endpoints != [] {
      ViewsShow(endpoints[..|endpoints| - 1], s, redact);
    }
  }

  /** A view of a rule shows its name, scope and state, and its ports by their label. */
  predicate ShowsRule(v: RuleView, r: FirewallRule) {
    && v.displayName == r.displayName && v.direction == r.direction && v.action == r.action && v.protocol == r.protocol
    && v.portLabel == Label(r.portSpec) && v.programFilter == r.programFilter && v.serviceFilter == r.serviceFilter
    && v.enabled == r.enabled
  }

  lemma {:induction false} RulesShown(rules: seq<FirewallRule>)
    ensures |RuleViews(rules)| == |rules| && forall i :: 0 <= i < |rules| ==> ShowsRule(RuleViews(rules)[i], rules[i])
  {
    hide Label;
    if rules != [] {
      RulesShown(rules[1..]);
    }
  }

  /** A section's own data: whose it is, when and by what it was collected, and, since a probe only infers what a scan
      on the host itself knows, how far it can be trusted. */
  predicate Heads(h: HostSection, s: ScanSnapshot) {
    && h.hostId == s.hostId && h.scanId == s.scanId && h.collectedAt == s.collectedAt && h.collectorVersion == s.collectorVersion
    && h.strategy == s.strategy && (h.fidelity == Inferred <==> s.strategy == Strategies.Probe)
  }

  predicate ShowsVerdict(v: EndpointView, e: Endpoint, s: ScanSnapshot) {
    var matched := Evaluate(e, s.firewallRules, s.profiles).matchedRules;
    |v.matchedRules| == |matched| && forall i :: 0 <= i < |matched| ==> ShowsRule(v.matchedRules[i], matched[i])
  }

  lemma {:induction false} VerdictsShown(endpoints: seq<Endpoint>, s: ScanSnapshot, redact: Redactor)
    ensures var views := ViewsOf(endpoints, s, redact);
      |views| == |endpoints| && forall i :: 0 <= i < |endpoints| ==> ShowsVerdict(views[i], endpoints[i], s)
  {
    hide Evaluate, RuleViews, ShowsRule;
    if endpoints != [] {
      var last := endpoints[|endpoints| - 1];
      VerdictsShown(endpoints[..|endpoints| - 1], s, redact);
      RulesShown(Evaluate(last, s.firewallRules, s.profiles).matchedRules);
    }
  }

  /** Every section of a built report is one of the supplied snapshots, with its data, endpoint by endpoint, the rules
      that decided each verdict beside it, and no command line reaches it but through redaction. */
  lemma SectionsShowSnapshots(m: ReportModel, snapshots: seq<ScanSnapshot>, drift: Option<DriftReport>, redact: Redactor, h: HostSection)
    returns (s: ScanSnapshot)
    requires Models(m, snapshots, drift, redact) && h in m.hosts
    ensures s in snapshots && Heads(h, s) && |h.endpoints| == |s.endpoints|
    ensures forall i :: 0 <= i < |h.endpoints| ==>
              Shows(h.endpoints[i], s.endpoints[i], s, redact) && ShowsVerdict(h.endpoints[i], s.endpoints[i], s)
  {
    hide Sort, Sections, Recounts, ViewsOf, Shows, ShowsVerdict;
    SortKeeps(Sections(snapshots, redact), HostLe);
    SameElements(Sections(snapshots, redact), m.hosts);
    SectionsLength(snapshots, redact);
    var i :| 0 <= i < |snapshots| && Sections(snapshots, redact)[i] == h;
    s := snapshots[i];
    ViewsShow(s.endpoints, s, redact);
    VerdictsShown(s.endpoints, s, redact);
  }

  /** A report has one section for each snapshot, ascending by host and then by scan, and lists the drift as found. */
  lemma SectionsAscend(m: ReportModel, snapshots: seq<ScanSnapshot>, drift: Option<DriftReport>, redact: Redactor)
    requires Models(m, snapshots, drift, redact)
    ensures |m.hosts| == |snapshots| && m.redactionEnabled
    ensures forall i, j :: 0 <= i < j < |m.hosts| ==>
              m.hosts[i].hostId < m.hosts[j].hostId || (m.hosts[i].hostId == m.hosts[j].hostId && m.hosts[i].scanId <= m.hosts[j].scanId)
    ensures m.drift == if drift.None? then [] else drift.value.entries
  {
    var sections := Sections(snapshots, redact);
    HostsOrder();
    SortSorts(sections, HostLe);
    SortKeeps(sections, HostLe);
    SectionsLength(snapshots, redact);
    hide Sort, Sections, Recounts;
    SameElements(sections, m.hosts);
    forall i, j | 0 <= i < j < |m.hosts| ensures HostLe(m.hosts[i], m.hosts[j]) {
    }
  }
}
