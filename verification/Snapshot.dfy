/** Building a snapshot: the three collections are sorted by their keys. */
module Snapshots {
  import opened Wrappers
  import opened Domain
  import opened Drift
  import opened DriftEntries
  import opened DriftLaws
  import opened Sorting
  import Strategies

  // ----- the sort keys -----

  function ProtocolRank(p: Protocol): nat { if p == Tcp then 0 else 1 }

  function FamilyRank(a: Address): nat { if a.V4? then 0 else 1 }

  /** The key (protocol, address, port) spelled out as numbers. */
  function EndpointRank(e: Endpoint): seq<nat> {
    [ProtocolRank(e.protocol), FamilyRank(e.bindAddress), e.bindAddress.bits, e.port]
  }

  /** Lexicographic order on keys of one length. */
  predicate AtMost(a: seq<nat>, b: seq<nat>) {
    a == [] || b == [] || a[0] < b[0] || (a[0] == b[0] && AtMost(a[1..], b[1..]))
  }

  lemma {:induction false} AtMostOrders(a: seq<nat>, b: seq<nat>, c: seq<nat>)
    requires |a| == |b| == |c|
    ensures AtMost(a, b) || AtMost(b, a)
    ensures AtMost(a, b) && AtMost(b, c) ==> AtMost(a, c)
    ensures AtMost(a, b) && AtMost(b, a) ==> a == b
  {
    if a != [] {
      AtMostOrders(a[1..], b[1..], c[1..]);
    }
  }

  predicate EndpointLe(d: Endpoint, e: Endpoint) { AtMost(EndpointRank(d), EndpointRank(e)) }

  predicate RuleLe(r: FirewallRule, s: FirewallRule) { r.ruleId <= s.ruleId }

  function ProfileRank(kind: ProfileKind): nat {
    match kind
    case DomainProfile => 0
    case PrivateProfile => 1
    case PublicProfile => 2
  }

  predicate ProfileLe(p: ProfileState, q: ProfileState) { ProfileRank(p.profile) <= ProfileRank(q.profile) }

  lemma KeysOrder()
    ensures Ordering(EndpointLe) && Ordering(RuleLe) && Ordering(ProfileLe)
  {
    forall d, e, f
      ensures (EndpointLe(d, e) || EndpointLe(e, d)) && (EndpointLe(d, e) && EndpointLe(e, f) ==> EndpointLe(d, f))
    {
      AtMostOrders(EndpointRank(d), EndpointRank(e), EndpointRank(f));
      hide AtMost;
    }
  }

  /** Two endpoints tie exactly when the comparison of snapshots joins them. */
  lemma TiedExactlyWhenSameKey(d: Endpoint, e: Endpoint)
    ensures Tied(d, e, EndpointLe) <==> KeyOf(d) == KeyOf(e)
  {
    var a, b := EndpointRank(d), EndpointRank(e);
    AtMostOrders(a, b, a);
    if a == b {
      assert a[0] == b[0] && a[1] == b[1] && a[2] == b[2] && a[3] == b[3];
      AtMostOrders(a, a, a);
    }
    hide AtMost;
  }

  lemma AtMostHead(x: nat, r: seq<nat>, y: nat, q: seq<nat>)
    ensures AtMost([x] + r, [y] + q) <==> x < y || (x == y && AtMost(r, q))
  {
    assert ([x] + r)[1..] == r && ([y] + q)[1..] == q;
  }

  lemma AtMostFour(a: nat, b: nat, c: nat, d: nat, e: nat, f: nat, g: nat, h: nat)
    ensures AtMost([a, b, c, d], [e, f, g, h]) <==>
      a < e || (a == e && (b < f || (b == f && (c < g || (c == g && d <= h)))))
  {
    assert AtMost([], []);
    hide AtMost;
    AtMostHead(d, [], h, []);
    assert [d] + [] == [d] && [h] + [] == [h];
    AtMostHead(c, [d], g, [h]);
    assert [c] + [d] == [c, d] && [g] + [h] == [g, h];
    AtMostHead(b, [c, d], f, [g, h]);
    assert [b] + [c, d] == [b, c, d] && [f] + [g, h] == [f, g, h];
    AtMostHead(a, [b, c, d], e, [f, g, h]);
    assert [a] + [b, c, d] == [a, b, c, d] && [e] + [f, g, h] == [e, f, g, h];
  }

  /** The sort key orders endpoints by protocol, address family, address and port. */
  lemma EndpointLeMeans(d: Endpoint, e: Endpoint)
    ensures EndpointLe(d, e) <==> KeyLe(KeyOf(d), KeyOf(e))
  {
    hide AtMost;
    AtMostFour(ProtocolRank(d.protocol), FamilyRank(d.bindAddress), d.bindAddress.bits, d.port,
               ProtocolRank(e.protocol), FamilyRank(e.bindAddress), e.bindAddress.bits, e.port);
  }

  lemma EndpointsAscend(endpoints: seq<Endpoint>)
    requires Sorted(endpoints, EndpointLe)
    ensures KeysAscend(endpoints)
  {
    forall i, j | 0 <= i < j < |endpoints| ensures KeyLe(KeyOf(endpoints[i]), KeyOf(endpoints[j])) {
      assert EndpointLe(endpoints[i], endpoints[j]);
      EndpointLeMeans(endpoints[i], endpoints[j]);
    }
    hide EndpointLe, KeyLe;
  }

  /** Domain, private, public. */
  predicate ProfileNotAfter(p: ProfileKind, q: ProfileKind) { p == DomainProfile || p == q || q == PublicProfile }

  /** The three collections ascend: endpoints by key, rules by id, profiles from domain to public. */
  predicate Ascends(s: ScanSnapshot) {
    && KeysAscend(s.endpoints)
    && (forall i, j :: 0 <= i < j < |s.firewallRules| ==> s.firewallRules[i].ruleId <= s.firewallRules[j].ruleId)
    && (forall i, j :: 0 <= i < j < |s.profiles| ==> ProfileNotAfter(s.profiles[i].profile, s.profiles[j].profile))
  }

  lemma SortedAscends(s: ScanSnapshot)
    requires Sorted(s.endpoints, EndpointLe) && Sorted(s.firewallRules, RuleLe) && Sorted(s.profiles, ProfileLe)
    ensures Ascends(s)
  {
    EndpointsAscend(s.endpoints);
    hide EndpointLe, KeyLe;
    forall i, j | 0 <= i < j < |s.profiles| ensures ProfileNotAfter(s.profiles[i].profile, s.profiles[j].profile) {
      assert ProfileLe(s.profiles[i], s.profiles[j]);
    }
  }

  // ----- the constructor -----

  /** The snapshot with its collections in canonical order. */
  function Canonical(s: ScanSnapshot): ScanSnapshot {
    s.(endpoints := Sort(s.endpoints, EndpointLe), firewallRules := Sort(s.firewallRules, RuleLe),
       profiles := Sort(s.profiles, ProfileLe))
  }

  method New(hostId: nat, scanId: nat, collectedAt: int, collectorVersion: string, endpoints: seq<Endpoint>,
             firewallRules: seq<FirewallRule>, profiles: seq<ProfileState>, strategy: Strategies.TargetStrategy)
    returns (s: ScanSnapshot)
    ensures s == Canonical(ScanSnapshot(hostId, scanId, collectedAt, collectorVersion, endpoints, firewallRules, profiles, strategy))
    ensures multiset(s.endpoints) == multiset(endpoints) && Sorted(s.endpoints, EndpointLe)
    ensures multiset(s.firewallRules) == multiset(firewallRules) && Sorted(s.firewallRules, RuleLe)
    ensures multiset(s.profiles) == multiset(profiles) && Sorted(s.profiles, ProfileLe)
    ensures Ascends(s)
  {
    KeysOrder();
    SortKeeps(endpoints, EndpointLe);
    SortSorts(endpoints, EndpointLe);
    SortKeeps(firewallRules, RuleLe);
    SortSorts(firewallRules, RuleLe);
    SortKeeps(profiles, ProfileLe);
    SortSorts(profiles, ProfileLe);
    hide Sort;
    var mutEndpoints, mutRules, mutProfiles := endpoints, firewallRules, profiles;
    mutEndpoints := Sort(mutEndpoints, EndpointLe);
    mutRules := Sort(mutRules, RuleLe);
    mutProfiles := Sort(mutProfiles, ProfileLe);
    s := ScanSnapshot(hostId, scanId, collectedAt, collectorVersion, mutEndpoints, mutRules, mutProfiles, strategy);
    SortedAscends(s);
  }

  /** The same data but for the order in which the three collections were supplied. */
  predicate SameHeader(s: ScanSnapshot, t: ScanSnapshot) {
    s.(endpoints := [], firewallRules := [], profiles := []) == t.(endpoints := [], firewallRules := [], profiles := [])
  }

  ghost predicate TiesKept(s: ScanSnapshot, t: ScanSnapshot) {
    && TiesAgree(s.endpoints, t.endpoints, EndpointLe)
    && TiesAgree(s.firewallRules, t.firewallRules, RuleLe)
    && TiesAgree(s.profiles, t.profiles, ProfileLe)
  }

  /** Supplying the data in another order builds the same snapshot exactly when endpoints with one key, rules
      with one id and profiles of one kind come in the same order. */
  lemma OrderForgottenExactlyWhen(s: ScanSnapshot, t: ScanSnapshot)
    requires SameHeader(s, t)
    ensures Canonical(s) == Canonical(t) <==> TiesKept(s, t)
  {
    KeysOrder();
    SortsAlikeExactlyWhen(s.endpoints, t.endpoints, EndpointLe);
    SortsAlikeExactlyWhen(s.firewallRules, t.firewallRules, RuleLe);
    SortsAlikeExactlyWhen(s.profiles, t.profiles, ProfileLe);
    hide Sort, TiesAgree;
  }

  ghost predicate Permuted(s: ScanSnapshot, t: ScanSnapshot) {
    && SameHeader(s, t)
    && multiset(s.endpoints) == multiset(t.endpoints)
    && multiset(s.firewallRules) == multiset(t.firewallRules)
    && multiset(s.profiles) == multiset(t.profiles)
  }

  ghost predicate NoTiedKeys(s: ScanSnapshot) {
    && DistinctKeys(s.endpoints, EndpointLe) && DistinctKeys(s.firewallRules, RuleLe) && DistinctKeys(s.profiles, ProfileLe)
  }

  /** With distinct keys any order of supply builds the same snapshot. */
  lemma DistinctOrderForgotten(s: ScanSnapshot, t: ScanSnapshot)
    requires Permuted(s, t) && NoTiedKeys(s) && NoTiedKeys(t)
    ensures Canonical(s) == Canonical(t)
  {
    KeysOrder();
    DistinctSortAlike(s.endpoints, t.endpoints, EndpointLe);
    DistinctSortAlike(s.firewallRules, t.firewallRules, RuleLe);
    DistinctSortAlike(s.profiles, t.profiles, ProfileLe);
    hide Sort, DistinctKeys;
  }

  /** So comparing two snapshots lists the entries in one fixed order: appearances, disappearances, changes and the
      rule set, each by key. */
  lemma ComparisonsAreOrdered(s: ScanSnapshot, t: ScanSnapshot)
    ensures InOrder(Difference(Canonical(s), Canonical(t)).entries)
  {
    KeysOrder();
    SortSorts(s.endpoints, EndpointLe);
    SortSorts(t.endpoints, EndpointLe);
    hide Difference, Sort, InOrder;
    EndpointsAscend(Canonical(s).endpoints);
    EndpointsAscend(Canonical(t).endpoints);
    EntriesInOrder(Canonical(s), Canonical(t));
  }

  /** Rules that share an id keep the order they were collected in, so collecting the same two rules the other
      way round makes the comparison report a changed rule set. */
  lemma SharedRuleIdDrifts(s: ScanSnapshot, t: ScanSnapshot, r: FirewallRule, q: FirewallRule)
    requires r.ruleId == q.ruleId && r != q
    requires s.firewallRules == [r, q] && t == s.(firewallRules := [q, r])
    ensures Permuted(s, t)
    ensures Lists(Difference(Canonical(s), Canonical(t)).entries, RuleSetChanged, None)
  {
    SortTwo(r, q);
    SortTwo(q, r);
    ReportedExactlyWhen(Canonical(s), Canonical(t), RuleSetChanged, None);
    hide Difference, Lists;
  }

  lemma SortTwo(r: FirewallRule, q: FirewallRule)
    requires r.ruleId == q.ruleId
    ensures Sort([r, q], RuleLe) == [r, q]
  {
    assert [r, q][1..] == [q] && [q][1..] == [];
    assert Sort([q], RuleLe) == [q] + [] == [q];
  }
}
