/** Comparing a baseline snapshot with a current one. */
module Drift {
  import opened Wrappers
  import opened Domain
  import opened Reachabilities

  const EPHEMERAL_PORT_THRESHOLD := 49_152

  datatype EndpointKey = EndpointKey(protocol: Protocol, bindAddress: Address, port: nat)

  datatype DriftKind =
    | EndpointAppeared
    | EndpointDisappeared
    | ReachabilityChanged(before: Reachability, after: Reachability)
    | ProcessChanged
    | SignatureChanged
    | RuleSetChanged

  datatype Severity = Low | Medium | High | Critical

  datatype DriftEntry = DriftEntry(kind: DriftKind, endpointKey: Option<EndpointKey>, severity: Severity)

  datatype DriftReport = DriftReport(entries: seq<DriftEntry>, suppressedEphemeral: nat)

  function KeyOf(e: Endpoint): EndpointKey { EndpointKey(e.protocol, e.bindAddress, e.port) }

  function ExposedSeverity(exposure: Exposure): Severity {
    match exposure
    case AllInterfaces => Critical
    case SpecificInterface => High
    case Loopback => Low
  }

  function ReachabilityChangeSeverity(before: Reachability, after: Reachability, exposure: Exposure): Severity {
    if after == Allowed && before != Allowed then ExposedSeverity(exposure)
    else if before == Allowed && after != Allowed then Low
    else Medium
  }

  function SeverityFor(kind: DriftKind, exposure: Exposure): Severity {
    match kind
    case EndpointAppeared => ExposedSeverity(exposure)
    case EndpointDisappeared => Low
    case ReachabilityChanged(before, after) => ReachabilityChangeSeverity(before, after, exposure)
    case ProcessChanged => if exposure == AllInterfaces then High else Medium
    case SignatureChanged => if exposure == AllInterfaces then High else Medium
    case RuleSetChanged => Medium
  }

  predicate IsEphemeralChurn(entry: DriftEntry) {
    && (entry.kind.EndpointAppeared? || entry.kind.EndpointDisappeared?)
    && entry.endpointKey.Some? && entry.endpointKey.value.port > EPHEMERAL_PORT_THRESHOLD
  }

  // ----- what each loop computes -----

  function Entry(kind: DriftKind, e: Endpoint): DriftEntry {
    DriftEntry(kind, Some(KeyOf(e)), SeverityFor(kind, e.exposure))
  }

  /** The lookup table: a repeated key keeps its last endpoint. */
  function Index(endpoints: seq<Endpoint>): map<EndpointKey, Endpoint> {
    if endpoints == [] then map[]
    else
      var last := endpoints[|endpoints| - 1];
      Index(endpoints[..|endpoints| - 1])[KeyOf(last) := last]
  }

  /** An entry of the kind for every endpoint whose key the other side lacks. */
  function Unmatched(endpoints: seq<Endpoint>, other: map<EndpointKey, Endpoint>, kind: DriftKind): seq<DriftEntry> {
    if endpoints == [] then []
    else
      var last := endpoints[|endpoints| - 1];
      Unmatched(endpoints[..|endpoints| - 1], other, kind) + (if KeyOf(last) in other then [] else [Entry(kind, last)])
  }

  function ReachabilityIn(e: Endpoint, s: ScanSnapshot): Reachability {
    Evaluate(e, s.firewallRules, s.profiles).reachability
  }

  function ProcessEntry(b: Endpoint, c: Endpoint): seq<DriftEntry> {
    if b.processPath != c.processPath then [Entry(ProcessChanged, c)] else []
  }

  function SignatureEntry(b: Endpoint, c: Endpoint): seq<DriftEntry> {
    if b.signatureStatus != c.signatureStatus then [Entry(SignatureChanged, c)] else []
  }

  function ReachabilityEntry(before: Reachability, after: Reachability, c: Endpoint): seq<DriftEntry> {
    if before != after then [Entry(ReachabilityChanged(before, after), c)] else []
  }

  /** The changes of one endpoint both sides know. */
  function ChangesOf(b: Endpoint, c: Endpoint, baseline: ScanSnapshot, current: ScanSnapshot): seq<DriftEntry> {
    ProcessEntry(b, c) + SignatureEntry(b, c) + ReachabilityEntry(ReachabilityIn(b, baseline), ReachabilityIn(c, current), c)
  }

  function Changes(endpoints: seq<Endpoint>, before: map<EndpointKey, Endpoint>, baseline: ScanSnapshot, current: ScanSnapshot): seq<DriftEntry> {
    if endpoints == [] then []
    else
      var last := endpoints[|endpoints| - 1];
      Changes(endpoints[..|endpoints| - 1], before, baseline, current)
      + (if KeyOf(last) in before then ChangesOf(before[KeyOf(last)], last, baseline, current) else [])
  }

  function RuleSetEntry(baseline: ScanSnapshot, current: ScanSnapshot): seq<DriftEntry> {
    if baseline.firewallRules != current.firewallRules
    then [DriftEntry(RuleSetChanged, None, SeverityFor(RuleSetChanged, SpecificInterface))] else []
  }

  /** Everything found, before churn is filtered out. */
  function Found(baseline: ScanSnapshot, current: ScanSnapshot): seq<DriftEntry> {
    Unmatched(current.endpoints, Index(baseline.endpoints), EndpointAppeared)
    + Unmatched(baseline.endpoints, Index(current.endpoints), EndpointDisappeared)
    + Changes(current.endpoints, Index(baseline.endpoints), baseline, current)
    + RuleSetEntry(baseline, current)
  }

  function Kept(e: DriftEntry, churn: bool): seq<DriftEntry> {
    if IsEphemeralChurn(e) == churn then [e] else []
  }

  /** The entries that are churn, or that are not, in order. */
  function Sift(entries: seq<DriftEntry>, churn: bool): seq<DriftEntry> {
    if entries == [] then [] else Kept(entries[0], churn) + Sift(entries[1..], churn)
  }

  function Difference(baseline: ScanSnapshot, current: ScanSnapshot): DriftReport {
    var found := Found(baseline, current);
    DriftReport(Sift(found, false), |Sift(found, true)|)
  }

  // ----- the code -----

  method BuildIndex(endpoints: seq<Endpoint>) returns (index: map<EndpointKey, Endpoint>)
    ensures index == Index(endpoints)
  {
    index := map[];
    for i := 0 to |endpoints|
      invariant index == Index(endpoints[..i])
    {
      assert endpoints[..i + 1][..i] == endpoints[..i];
      index := index[KeyOf(endpoints[i]) := endpoints[i]];
    }
    assert endpoints[..|endpoints|] == endpoints;
  }

  method CollectUnmatched(endpoints: seq<Endpoint>, other: map<EndpointKey, Endpoint>, kind: DriftKind, was: seq<DriftEntry>)
    returns (entries: seq<DriftEntry>)
    ensures entries == was + Unmatched(endpoints, other, kind)
  {
    entries := was;
    for i := 0 to |endpoints|
      invariant entries == was + Unmatched(endpoints[..i], other, kind)
    {
      assert endpoints[..i + 1][..i] == endpoints[..i];
      var endpoint := endpoints[i];
      if KeyOf(endpoint) !in other {
        entries := entries + [DriftEntry(kind, Some(KeyOf(endpoint)), SeverityFor(kind, endpoint.exposure))];
      }
    }
    assert endpoints[..|endpoints|] == endpoints;
  }

  /** The three tests of one shared endpoint. */
  method CollectChangesOf(b: Endpoint, c: Endpoint, baseline: ScanSnapshot, current: ScanSnapshot, was: seq<DriftEntry>)
    returns (entries: seq<DriftEntry>)
    ensures entries == was + ChangesOf(b, c, baseline, current)
  {
    hide ReachabilityIn, Entry;
    entries := was;
    if b.processPath != c.processPath {
      entries := entries + [Entry(ProcessChanged, c)];
    }
    if b.signatureStatus != c.signatureStatus {
      entries := entries + [Entry(SignatureChanged, c)];
    }
    var beforeReachability := ReachabilityIn(b, baseline);
    var afterReachability := ReachabilityIn(c, current);
    if beforeReachability != afterReachability {
      entries := entries + [Entry(ReachabilityChanged(beforeReachability, afterReachability), c)];
    }
  }

  method CollectChanges(before: map<EndpointKey, Endpoint>, baseline: ScanSnapshot, current: ScanSnapshot, was: seq<DriftEntry>)
    returns (entries: seq<DriftEntry>)
    ensures entries == was + Changes(current.endpoints, before, baseline, current)
  {
    hide ChangesOf;
    entries := was;
    var endpoints := current.endpoints;
    for i := 0 to |endpoints|
      invariant entries == was + Changes(endpoints[..i], before, baseline, current)
    {
      assert endpoints[..i + 1][..i] == endpoints[..i];
      var c := endpoints[i];
      if KeyOf(c) in before {
        entries := CollectChangesOf(before[KeyOf(c)], c, baseline, current, entries);
      }
    }
    assert endpoints[..|endpoints|] == endpoints;
  }

  method Diff(baseline: ScanSnapshot, current: ScanSnapshot) returns (report: DriftReport)
    ensures report == Difference(baseline, current)
  {
    hide Index, Unmatched, Changes, RuleSetEntry, Sift;
    var before := BuildIndex(baseline.endpoints);
    var after := BuildIndex(current.endpoints);
    var entries := CollectUnmatched(current.endpoints, before, EndpointAppeared, []);
    entries := CollectUnmatched(baseline.endpoints, after, EndpointDisappeared, entries);
    entries := CollectChanges(before, baseline, current, entries);
    entries := entries + RuleSetEntry(baseline, current);
    assert entries == Found(baseline, current);
    var suppressed := Sift(entries, true);
    report := DriftReport(Sift(entries, false), |suppressed|);
  }
}
