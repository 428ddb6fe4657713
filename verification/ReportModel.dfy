/**
 The view model of a report and its fleet-wide counts. `redact` stands for the redaction of a command
 line, and the per-profile port summaries are not part of this model.
 */
module ReportModels {
  import opened Wrappers
  import opened PortSpecs
  import opened Domain
  import opened Reachabilities
  import opened Drift
  import opened Sorting
  import Redaction
  import Strategies

  /** A command line's redacted text, and the markers of what was taken out. */
  type Redactor = string -> (string, seq<Redaction.Marker>)

  datatype RuleView = RuleView(
    displayName: string, direction: Direction, action: RuleAction, protocol: Protocol, portLabel: string,
    programFilter: Option<string>, serviceFilter: Option<string>, enabled: bool)

  datatype EndpointView = EndpointView(
    protocol: Protocol, bindAddress: Address, port: nat, processPath: Option<string>, hostedServices: seq<string>,
    signatureStatus: SignatureStatus, exposure: Exposure, reachability: Reachability, matchedRules: seq<RuleView>,
    commandLine: Option<string>, commandLineRedactions: seq<Redaction.Marker>)

  datatype Fidelity = Authoritative | Inferred

  datatype HostSection = HostSection(
    hostId: nat, scanId: nat, collectedAt: int, collectorVersion: string, strategy: Strategies.TargetStrategy, fidelity: Fidelity,
    endpoints: seq<EndpointView>)

  datatype ExposureCounts = ExposureCounts(loopback: nat, specificInterface: nat, allInterfaces: nat)

  datatype ReachabilityCounts = ReachabilityCounts(
    localOnly: nat, blocked: nat, allowed: nat, defaultAction: nat, indeterminate: nat)

  datatype SeverityCounts = SeverityCounts(low: nat, medium: nat, high: nat, critical: nat)

  datatype Rollup = Rollup(
    hostsScanned: nat, byExposure: ExposureCounts, byReachability: ReachabilityCounts, unsignedBinaries: nat,
    assignmentMismatches: nat, certificateFindings: nat, bySeverity: SeverityCounts)

  datatype ReportModel = ReportModel(hosts: seq<HostSection>, drift: seq<DriftEntry>, rollup: Rollup, redactionEnabled: bool)

  datatype ReportError = RedactionConfirmationRequired

  // ----- the view -----

  function RuleViews(rules: seq<FirewallRule>): seq<RuleView> {
    if rules == [] then []
    else
      var r := rules[0];
      [RuleView(r.displayName, r.direction, r.action, r.protocol, Label(r.portSpec), r.programFilter, r.serviceFilter, r.enabled)]
      + RuleViews(rules[1..])
  }

  function ViewOf(e: Endpoint, s: ScanSnapshot, redact: Redactor): EndpointView {
    var verdict := Evaluate(e, s.firewallRules, s.profiles);
    EndpointView(e.protocol, e.bindAddress, e.port, e.processPath, e.hostedServices, e.signatureStatus, e.exposure,
                 verdict.reachability, RuleViews(verdict.matchedRules),
                 if e.commandLine.Some? then Some(redact(e.commandLine.value).0) else None,
                 if e.commandLine.Some? then redact(e.commandLine.value).1 else [])
  }

  function ViewsOf(endpoints: seq<Endpoint>, s: ScanSnapshot, redact: Redactor): seq<EndpointView> {
    if endpoints == [] then []
    else ViewsOf(endpoints[..|endpoints| - 1], s, redact) + [ViewOf(endpoints[|endpoints| - 1], s, redact)]
  }

  function SectionOf(s: ScanSnapshot, redact: Redactor): HostSection {
    HostSection(s.hostId, s.scanId, s.collectedAt, s.collectorVersion, s.strategy,
                if s.strategy == Strategies.Probe then Inferred else Authoritative,
                ViewsOf(s.endpoints, s, redact))
  }

  function Sections(snapshots: seq<ScanSnapshot>, redact: Redactor): seq<HostSection> {
    if snapshots == [] then [] else [SectionOf(snapshots[0], redact)] + Sections(snapshots[1..], redact)
  }

  predicate HostLe(g: HostSection, h: HostSection) {
    g.hostId < h.hostId || (g.hostId == h.hostId && g.scanId <= h.scanId)
  }

  // ----- the counters -----

  datatype Counts = Counts(exposure: ExposureCounts, reachability: ReachabilityCounts, unsignedBinaries: nat)

  const NO_COUNTS := Counts(ExposureCounts(0, 0, 0), ReachabilityCounts(0, 0, 0, 0, 0), 0)

  function CountExposure(c: ExposureCounts, e: Exposure): ExposureCounts {
    match e
    case Loopback => c.(loopback := c.loopback + 1)
    case SpecificInterface => c.(specificInterface := c.specificInterface + 1)
    case AllInterfaces => c.(allInterfaces := c.allInterfaces + 1)
  }

  function CountReachability(c: ReachabilityCounts, r: Reachability): ReachabilityCounts {
    match r
    case LocalOnly => c.(localOnly := c.localOnly + 1)
    case Blocked => c.(blocked := c.blocked + 1)
    case Allowed => c.(allowed := c.allowed + 1)
    case DefaultAction => c.(defaultAction := c.defaultAction + 1)
    case Indeterminate => c.(indeterminate := c.indeterminate + 1)
  }

  function CountSeverity(c: SeverityCounts, s: Severity): SeverityCounts {
    match s
    case Low => c.(low := c.low + 1)
    case Medium => c.(medium := c.medium + 1)
    case High => c.(high := c.high + 1)
    case Critical => c.(critical := c.critical + 1)
  }

  // ----- what the counters count -----

  /** A property an endpoint is counted under. */
  datatype Tally = Exposed(exposure: Exposure) | Reached(reachability: Reachability) | UnsignedBinary

  function Counter(c: Counts, t: Tally): nat {
    match t
    case Exposed(Loopback) => c.exposure.loopback
    case Exposed(SpecificInterface) => c.exposure.specificInterface
    case Exposed(AllInterfaces) => c.exposure.allInterfaces
    case Reached(LocalOnly) => c.reachability.localOnly
    case Reached(Blocked) => c.reachability.blocked
    case Reached(Allowed) => c.reachability.allowed
    case Reached(DefaultAction) => c.reachability.defaultAction
    case Reached(Indeterminate) => c.reachability.indeterminate
    case UnsignedBinary => c.unsignedBinaries
  }

  function CountsOf(r: Rollup): Counts { Counts(r.byExposure, r.byReachability, r.unsignedBinaries) }

  function SeverityCounter(c: SeverityCounts, s: Severity): nat {
    match s
    case Low => c.low
    case Medium => c.medium
    case High => c.high
    case Critical => c.critical
  }

  predicate FallsUnder(exposure: Exposure, reachability: Reachability, signature: SignatureStatus, t: Tally) {
    match t
    case Exposed(e) => exposure == e
    case Reached(r) => reachability == r
    case UnsignedBinary => signature == Unsigned
  }

  function One(b: bool): nat { if b then 1 else 0 }

  /** How many endpoints of a section, of a report, fall under the tally. */
  function InViews(views: seq<EndpointView>, t: Tally): nat {
    if views == [] then 0
    else
      var v := views[|views| - 1];
      InViews(views[..|views| - 1], t) + One(FallsUnder(v.exposure, v.reachability, v.signatureStatus, t))
  }

  function InHosts(hosts: seq<HostSection>, t: Tally): nat {
    if hosts == [] then 0 else InViews(hosts[0].endpoints, t) + InHosts(hosts[1..], t)
  }

  function InEndpoints(endpoints: seq<Endpoint>, s: ScanSnapshot, t: Tally): nat {
    if endpoints == [] then 0
    else
      var e := endpoints[|endpoints| - 1];
      InEndpoints(endpoints[..|endpoints| - 1], s, t)
      + One(FallsUnder(e.exposure, Evaluate(e, s.firewallRules, s.profiles).reachability, e.signatureStatus, t))
  }

  function InSnapshots(snapshots: seq<ScanSnapshot>, t: Tally): nat {
    if snapshots == [] then 0
    else
      var s := snapshots[|snapshots| - 1];
      InSnapshots(snapshots[..|snapshots| - 1], t) + InEndpoints(s.endpoints, s, t)
  }

  function InDrift(entries: seq<DriftEntry>, severity: Severity): nat {
    if entries == [] then 0
    else InDrift(entries[..|entries| - 1], severity) + One(entries[|entries| - 1].severity == severity)
  }

  // ----- the code -----

  function CountEndpoint(c: Counts, e: Endpoint, r: Reachability): Counts {
    Counts(CountExposure(c.exposure, e.exposure), CountReachability(c.reachability, r),
           if e.signatureStatus == Unsigned then c.unsignedBinaries + 1 else c.unsignedBinaries)
  }

  lemma CountEndpointCounts(c: Counts, e: Endpoint, r: Reachability)
    ensures forall t :: Counter(CountEndpoint(c, e, r), t) == Counter(c, t) + One(FallsUnder(e.exposure, r, e.signatureStatus, t))
  {
  }

  /** The inner loop, over the endpoints of one snapshot. */
  method CountEndpoints(s: ScanSnapshot, was: Counts) returns (c: Counts)
    ensures forall t :: Counter(c, t) == Counter(was, t) + InEndpoints(s.endpoints, s, t)
  {
    hide Evaluate, FallsUnder, Counter, CountEndpoint;
    c := was;
    var endpoints := s.endpoints;
    for i := 0 to |endpoints|
      invariant forall t :: Counter(c, t) == Counter(was, t) + InEndpoints(endpoints[..i], s, t)
    {
      assert endpoints[..i + 1][..i] == endpoints[..i];
      var reachability := Evaluate(endpoints[i], s.firewallRules, s.profiles).reachability;
      CountEndpointCounts(c, endpoints[i], reachability);
      c := CountEndpoint(c, endpoints[i], reachability);
    }
    assert endpoints[..|endpoints|] == endpoints;
  }

  lemma NothingCounted()
    ensures forall t :: Counter(NO_COUNTS, t) == 0
  {
  }

  method CountSnapshots(snapshots: seq<ScanSnapshot>) returns (c: Counts)
    ensures forall t :: Counter(c, t) == InSnapshots(snapshots, t)
  {
    hide Counter, InEndpoints;
    NothingCounted();
    c := NO_COUNTS;
    for i := 0 to |snapshots|
      invariant forall t :: Counter(c, t) == InSnapshots(snapshots[..i], t)
    {
      assert snapshots[..i + 1][..i] == snapshots[..i];
      c := CountEndpoints(snapshots[i], c);
    }
    assert snapshots[..|snapshots|] == snapshots;
  }

  method CountDrift(entries: seq<DriftEntry>) returns (c: SeverityCounts)
    ensures forall s :: SeverityCounter(c, s) == InDrift(entries, s)
  {
    c := SeverityCounts(0, 0, 0, 0);
    for i := 0 to |entries|
      invariant forall s :: SeverityCounter(c, s) == InDrift(entries[..i], s)
    {
      assert entries[..i + 1][..i] == entries[..i];
      c := CountSeverity(c, entries[i].severity);
    }
    assert entries[..|entries|] == entries;
  }

  function DriftEntries(drift: Option<DriftReport>): seq<DriftEntry> {
    if drift.Some? then drift.value.entries else []
  }

  /** Every counter holds the number of endpoints, or drift entries, that fall under it. */
  ghost predicate Recounts(r: Rollup, snapshots: seq<ScanSnapshot>, drift: Option<DriftReport>) {
    && r.hostsScanned == |snapshots| && r.assignmentMismatches == 0 && r.certificateFindings == 0
    && (forall t :: Counter(CountsOf(r), t) == InSnapshots(snapshots, t))
    && (forall s :: SeverityCounter(r.bySeverity, s) == InDrift(DriftEntries(drift), s))
  }

  ghost predicate Models(m: ReportModel, snapshots: seq<ScanSnapshot>, drift: Option<DriftReport>, redact: Redactor) {
    && m.hosts == Sort(Sections(snapshots, redact), HostLe) && m.drift == DriftEntries(drift) && m.redactionEnabled
    && Recounts(m.rollup, snapshots, drift)
  }

  method BuildRollup(snapshots: seq<ScanSnapshot>, drift: Option<DriftReport>) returns (r: Rollup)
    ensures Recounts(r, snapshots, drift)
  {
    hide Counter, SeverityCounter, InSnapshots, InDrift;
    var c := CountSnapshots(snapshots);
    var bySeverity := CountDrift(DriftEntries(drift));
    r := Rollup(|snapshots|, c.exposure, c.reachability, c.unsignedBinaries, 0, 0, bySeverity);
    assert CountsOf(r) == c;
  }

  method Build(snapshots: seq<ScanSnapshot>, drift: Option<DriftReport>, noRedactConfirmed: bool, redact: Redactor)
    returns (r: Result<ReportModel, ReportError>)
    ensures r.Err? <==> !noRedactConfirmed
    ensures r.Ok? ==> Models(r.value, snapshots, drift, redact)
  {
    hide Recounts, Sections, Sort;
    if !noRedactConfirmed {
      return Err(RedactionConfirmationRequired);
    }
    var hosts := Sections(snapshots, redact);
    hosts := Sort(hosts, HostLe);
    var rollup := BuildRollup(snapshots, drift);
    return Ok(ReportModel(hosts, DriftEntries(drift), rollup, true));
  }
}
