/** What a drift report says about two snapshots, and what it ignores. */
module DriftLaws {
  import opened Wrappers
  import opened Domain
  import opened Reachabilities
  import opened ReachabilityLaws
  import opened Drift

  // ----- an independent statement of what counts as drift -----

  predicate HasKey(endpoints: seq<Endpoint>, key: EndpointKey) {
    exists e :: e in endpoints && KeyOf(e) == key
  }

  /** The last endpoint with its key. */
  predicate LastAt(endpoints: seq<Endpoint>, i: nat) {
    i < |endpoints| && forall j :: i < j < |endpoints| ==> KeyOf(endpoints[j]) != KeyOf(endpoints[i])
  }

  /** The baseline endpoint a current one is compared with. */
  predicate ComparedWith(endpoints: seq<Endpoint>, b: Endpoint, key: EndpointKey) {
    exists i :: 0 <= i < |endpoints| && endpoints[i] == b && KeyOf(b) == key && LastAt(endpoints, i)
  }

  predicate Differs(kind: DriftKind, b: Endpoint, c: Endpoint, baseline: ScanSnapshot, current: ScanSnapshot) {
    match kind
    case ProcessChanged => b.processPath != c.processPath
    case SignatureChanged => b.signatureStatus != c.signatureStatus
    case ReachabilityChanged(before, after) =>
      before == ReachabilityIn(b, baseline) && after == ReachabilityIn(c, current) && before != after
    case EndpointAppeared => false
    case EndpointDisappeared => false
    case RuleSetChanged => false
  }

  predicate Detects(baseline: ScanSnapshot, current: ScanSnapshot, kind: DriftKind, key: Option<EndpointKey>) {
    if key.None? then kind.RuleSetChanged? && baseline.firewallRules != current.firewallRules
    else if kind.EndpointAppeared? then HasKey(current.endpoints, key.value) && !HasKey(baseline.endpoints, key.value)
    else if kind.EndpointDisappeared? then HasKey(baseline.endpoints, key.value) && !HasKey(current.endpoints, key.value)
    else exists b, c :: b in baseline.endpoints && c in current.endpoints && ComparedWith(baseline.endpoints, b, key.value)
           && KeyOf(c) == key.value && Differs(kind, b, c, baseline, current)
  }

  predicate Lists(entries: seq<DriftEntry>, kind: DriftKind, key: Option<EndpointKey>) {
    exists e :: e in entries && e.kind == kind && e.endpointKey == key
  }

  predicate Churn(kind: DriftKind, key: Option<EndpointKey>) {
    (kind.EndpointAppeared? || kind.EndpointDisappeared?) && key.Some? && key.value.port > 49_152
  }

  // ----- the index -----

  lemma {:induction false} IndexKeys(endpoints: seq<Endpoint>)
    ensures forall key :: key in Index(endpoints) <==> HasKey(endpoints, key)
  {
    if endpoints != [] {
      var init, last := endpoints[..|endpoints| - 1], endpoints[|endpoints| - 1];
      IndexKeys(init);
      assert endpoints == init + [last];
    }
  }

  lemma {:induction false} IndexKeepsLast(endpoints: seq<Endpoint>, key: EndpointKey)
    requires key in Index(endpoints)
    ensures ComparedWith(endpoints, Index(endpoints)[key], key) && Index(endpoints)[key] in endpoints
  {
    var n := |endpoints| - 1;
    var init, last := endpoints[..n], endpoints[n];
    if KeyOf(last) == key {
      assert endpoints[n] == last && LastAt(endpoints, n);
    } else {
      IndexKeepsLast(init, key);
      var b := Index(init)[key];
      var i :| 0 <= i < |init| && init[i] == b && KeyOf(b) == key && LastAt(init, i);
      assert endpoints[i] == b && LastAt(endpoints, i);
    }
  }

  lemma LastIsUnique(endpoints: seq<Endpoint>, b: Endpoint, c: Endpoint, key: EndpointKey)
    requires ComparedWith(endpoints, b, key) && ComparedWith(endpoints, c, key)
    ensures b == c
  {
    var i :| 0 <= i < |endpoints| && endpoints[i] == b && KeyOf(b) == key && LastAt(endpoints, i);
    var j :| 0 <= j < |endpoints| && endpoints[j] == c && KeyOf(c) == key && LastAt(endpoints, j);
    if i < j {
      assert KeyOf(endpoints[j]) != KeyOf(endpoints[i]);
    }
  }

  lemma IndexIs(endpoints: seq<Endpoint>, b: Endpoint, key: EndpointKey)
    ensures (key in Index(endpoints) && Index(endpoints)[key] == b) <==> ComparedWith(endpoints, b, key)
  {
    IndexKeys(endpoints);
    hide Index;
    if key in Index(endpoints) {
      IndexKeepsLast(endpoints, key);
      if ComparedWith(endpoints, b, key) {
        LastIsUnique(endpoints, b, Index(endpoints)[key], key);
      }
    }
  }

  // ----- the loops list exactly what is detected -----

  lemma {:induction false} UnmatchedLists(endpoints: seq<Endpoint>, other: map<EndpointKey, Endpoint>, of: DriftKind,
                                          kind: DriftKind, key: Option<EndpointKey>)
    ensures Lists(Unmatched(endpoints, other, of), kind, key)
       <==> kind == of && key.Some? && key.value !in other && HasKey(endpoints, key.value)
  {
    hide Lists, HasKey, Entry;
    if endpoints == [] {
      NothingListed(kind, key);
      NoKeys(key);
    } else {
      var init, last := endpoints[..|endpoints| - 1], endpoints[|endpoints| - 1];
      UnmatchedLists(init, other, of, kind, key);
      assert endpoints == init + [last];
      ListsSum(Unmatched(init, other, of), if KeyOf(last) in other then [] else [Entry(of, last)], kind, key);
      OneEntry(of, last, kind, key);
      HasKeySum(init, last, key);
    }
  }

  lemma ListsSum(a: seq<DriftEntry>, b: seq<DriftEntry>, kind: DriftKind, key: Option<EndpointKey>)
    ensures Lists(a + b, kind, key) <==> Lists(a, kind, key) || Lists(b, kind, key)
  {
  }

  lemma NoKeys(key: Option<EndpointKey>)
    ensures key.Some? ==> !HasKey([], key.value)
  {
  }

  lemma HasKeySum(init: seq<Endpoint>, last: Endpoint, key: Option<EndpointKey>)
    ensures key.Some? ==> (HasKey(init + [last], key.value) <==> HasKey(init, key.value) || KeyOf(last) == key.value)
  {
    assert last in init + [last];
  }

  lemma ChangesOfLists(b: Endpoint, c: Endpoint, baseline: ScanSnapshot, current: ScanSnapshot, kind: DriftKind, key: Option<EndpointKey>)
    ensures Lists(ChangesOf(b, c, baseline, current), kind, key)
       <==> key == Some(KeyOf(c)) && Differs(kind, b, c, baseline, current)
  {
    hide SeverityFor, ReachabilityIn;
    var before, after := ReachabilityIn(b, baseline), ReachabilityIn(c, current);
    var p, s, r := ProcessEntry(b, c), SignatureEntry(b, c), ReachabilityEntry(before, after, c);
    ListsSum(p + s, r, kind, key);
    ListsSum(p, s, kind, key);
    assert Lists(p, kind, key) <==> kind == ProcessChanged && key == Some(KeyOf(c)) && b.processPath != c.processPath by {
      OneEntry(ProcessChanged, c, kind, key);
    }
    assert Lists(s, kind, key) <==> kind == SignatureChanged && key == Some(KeyOf(c)) && b.signatureStatus != c.signatureStatus by {
      OneEntry(SignatureChanged, c, kind, key);
    }
    OneEntry(ReachabilityChanged(before, after), c, kind, key);
  }

  lemma OneEntry(of: DriftKind, c: Endpoint, kind: DriftKind, key: Option<EndpointKey>)
    ensures Lists([Entry(of, c)], kind, key) <==> kind == of && key == Some(KeyOf(c))
    ensures !Lists([], kind, key)
  {
    assert Entry(of, c) in [Entry(of, c)];
  }

  predicate SomeDiffers(endpoints: seq<Endpoint>, before: map<EndpointKey, Endpoint>, baseline: ScanSnapshot, current: ScanSnapshot,
                        kind: DriftKind, key: Option<EndpointKey>) {
    && key.Some? && key.value in before
    && exists c :: c in endpoints && KeyOf(c) == key.value && Differs(kind, before[key.value], c, baseline, current)
  }

  lemma {:induction false} ChangesLists(endpoints: seq<Endpoint>, before: map<EndpointKey, Endpoint>, baseline: ScanSnapshot, current: ScanSnapshot,
                                        kind: DriftKind, key: Option<EndpointKey>)
    ensures Lists(Changes(endpoints, before, baseline, current), kind, key)
       <==> SomeDiffers(endpoints, before, baseline, current, kind, key)
  {
    hide ChangesOf, Differs, Lists;
    if endpoints == [] {
      NothingListed(kind, key);
    } else {
      var init, last := endpoints[..|endpoints| - 1], endpoints[|endpoints| - 1];
      ChangesLists(init, before, baseline, current, kind, key);
      assert endpoints == init + [last];
      var more := if KeyOf(last) in before then ChangesOf(before[KeyOf(last)], last, baseline, current) else [];
      ListsSum(Changes(init, before, baseline, current), more, kind, key);
      NothingListed(kind, key);
      if KeyOf(last) in before {
        ChangesOfLists(before[KeyOf(last)], last, baseline, current, kind, key);
      }
      assert last in endpoints;
    }
  }

  lemma NothingListed(kind: DriftKind, key: Option<EndpointKey>)
    ensures !Lists([], kind, key)
  {
  }

  lemma SomeDiffersMeans(baseline: ScanSnapshot, current: ScanSnapshot, kind: DriftKind, key: EndpointKey)
    requires !kind.EndpointAppeared? && !kind.EndpointDisappeared?
    ensures SomeDiffers(current.endpoints, Index(baseline.endpoints), baseline, current, kind, Some(key))
       <==> Detects(baseline, current, kind, Some(key))
  {
    hide Index, ComparedWith, Differs;
    var index := Index(baseline.endpoints);
    if key in index {
      IndexIs(baseline.endpoints, index[key], key);
      IndexKeepsLast(baseline.endpoints, key);
    }
    forall b | ComparedWith(baseline.endpoints, b, key) ensures key in index && index[key] == b {
      IndexIs(baseline.endpoints, b, key);
    }
  }

  /** What is found before filtering is exactly what is detected, for any two snapshots. */
  lemma FoundExactlyWhen(baseline: ScanSnapshot, current: ScanSnapshot, kind: DriftKind, key: Option<EndpointKey>)
    ensures Lists(Found(baseline, current), kind, key) <==> Detects(baseline, current, kind, key)
  {
    var before, after := Index(baseline.endpoints), Index(current.endpoints);
    var appeared := Unmatched(current.endpoints, before, EndpointAppeared);
    var disappeared := Unmatched(baseline.endpoints, after, EndpointDisappeared);
    var changes := Changes(current.endpoints, before, baseline, current);
    var rules := RuleSetEntry(baseline, current);
    ListsSum(appeared + disappeared + changes, rules, kind, key);
    ListsSum(appeared + disappeared, changes, kind, key);
    ListsSum(appeared, disappeared, kind, key);
    UnmatchedLists(current.endpoints, before, EndpointAppeared, kind, key);
    UnmatchedLists(baseline.endpoints, after, EndpointDisappeared, kind, key);
    ChangesLists(current.endpoints, before, baseline, current, kind, key);
    RulesListed(baseline, current, kind, key);
    IndexKeys(baseline.endpoints);
    IndexKeys(current.endpoints);
    hide Lists, Unmatched, Changes, Index, RuleSetEntry, SomeDiffers;
    if key.Some? && !kind.EndpointAppeared? && !kind.EndpointDisappeared? {
      SomeDiffersMeans(baseline, current, kind, key.value);
    } else {
      NoneDiffers(current.endpoints, before, baseline, current, kind, key);
    }
  }

  lemma NoneDiffers(endpoints: seq<Endpoint>, before: map<EndpointKey, Endpoint>, baseline: ScanSnapshot, current: ScanSnapshot,
                    kind: DriftKind, key: Option<EndpointKey>)
    requires key.None? || kind.EndpointAppeared? || kind.EndpointDisappeared?
    ensures !SomeDiffers(endpoints, before, baseline, current, kind, key)
  {
  }

  lemma RulesListed(baseline: ScanSnapshot, current: ScanSnapshot, kind: DriftKind, key: Option<EndpointKey>)
    ensures Lists(RuleSetEntry(baseline, current), kind, key)
       <==> kind == RuleSetChanged && key.None? && baseline.firewallRules != current.firewallRules
  {
    if baseline.firewallRules != current.firewallRules {
      var e := RuleSetEntry(baseline, current)[0];
      assert e in RuleSetEntry(baseline, current);
    }
  }

  // ----- filtering out churn -----

  /** `whole` is the two parts interleaved, each in its own order. */
  predicate Interleaves(whole: seq<DriftEntry>, a: seq<DriftEntry>, b: seq<DriftEntry>) {
    if whole == [] then a == [] && b == []
    else
      || (a != [] && a[0] == whole[0] && Interleaves(whole[1..], a[1..], b))
      || (b != [] && b[0] == whole[0] && Interleaves(whole[1..], a, b[1..]))
  }

  lemma {:induction false} SiftInterleaves(entries: seq<DriftEntry>)
    ensures Interleaves(entries, Sift(entries, false), Sift(entries, true))
    ensures |Sift(entries, false)| + |Sift(entries, true)| == |entries|
  {
    hide IsEphemeralChurn;
    if entries != [] {
      var e, kept, churn := entries[0], Sift(entries[1..], false), Sift(entries[1..], true);
      SiftInterleaves(entries[1..]);
      if IsEphemeralChurn(e) {
        assert Sift(entries, false) == kept && Sift(entries, true) == [e] + churn;
        assert ([e] + churn)[1..] == churn;
      } else {
        assert Sift(entries, false) == [e] + kept && Sift(entries, true) == churn;
        assert ([e] + kept)[1..] == kept;
      }
    }
  }

  lemma {:induction false} SiftAre(entries: seq<DriftEntry>)
    ensures forall e, churn :: e in Sift(entries, churn) <==> e in entries && Churn(e.kind, e.endpointKey) == churn
  {
    if entries != [] {
      SiftAre(entries[1..]);
      assert entries == [entries[0]] + entries[1..];
    }
  }

  /** Filtering splits the entries into the reported ones and the suppressed ones, each in order; the
      suppressed ones are the appearances and disappearances above the threshold and nothing else. */
  lemma FilterSplits(entries: seq<DriftEntry>)
    ensures Interleaves(entries, Sift(entries, false), Sift(entries, true))
    ensures forall e, churn :: e in Sift(entries, churn) <==> e in entries && Churn(e.kind, e.endpointKey) == churn
    ensures |Sift(entries, false)| + |Sift(entries, true)| == |entries|
  {
    hide *;
    SiftInterleaves(entries);
    SiftAre(entries);
  }

  /** The report lists exactly the drift that is detected and is not churn. */
  lemma ReportedExactlyWhen(baseline: ScanSnapshot, current: ScanSnapshot, kind: DriftKind, key: Option<EndpointKey>)
    ensures Lists(Difference(baseline, current).entries, kind, key)
       <==> Detects(baseline, current, kind, key) && !Churn(kind, key)
  {
    FoundExactlyWhen(baseline, current, kind, key);
    var found := Found(baseline, current);
    FilterSplits(found);
    hide Detects, Sift, Found;
    if Lists(found, kind, key) {
      var e :| e in found && e.kind == kind && e.endpointKey == key;
    }
  }

  lemma {:induction false} SiftSum(a: seq<DriftEntry>, b: seq<DriftEntry>, churn: bool)
    ensures Sift(a + b, churn) == Sift(a, churn) + Sift(b, churn)
  {
    hide Kept;
    if a == [] {
      assert a + b == b;
    } else {
      SiftSum(a[1..], b, churn);
      assert (a + b)[1..] == a[1..] + b && (a + b)[0] == a[0];
    }
  }

  lemma SiftLast(a: seq<DriftEntry>, e: DriftEntry, churn: bool)
    ensures Sift(a + [e], churn) == Sift(a, churn) + Kept(e, churn)
  {
    SiftSum(a, [e], churn);
    hide Kept;
    assert Sift([e], churn) == Kept(e, churn) + Sift([e][1..], churn);
  }

  lemma {:induction false} NoChurn(entries: seq<DriftEntry>)
    requires forall e :: e in entries ==> !IsEphemeralChurn(e)
    ensures Sift(entries, true) == []
  {
    hide IsEphemeralChurn;
    if entries != [] {
      assert entries[0] in entries;
      NoChurn(entries[1..]);
    }
  }

  lemma ChangesNeverChurn(baseline: ScanSnapshot, current: ScanSnapshot)
    ensures forall e :: e in Changes(current.endpoints, Index(baseline.endpoints), baseline, current) + RuleSetEntry(baseline, current)
              ==> !IsEphemeralChurn(e)
  {
    hide Changes, Index;
    var before := Index(baseline.endpoints);
    var changes, rules := Changes(current.endpoints, before, baseline, current), RuleSetEntry(baseline, current);
    forall e | e in changes ensures !IsEphemeralChurn(e) {
      assert Lists(changes, e.kind, e.endpointKey);
      ChangesLists(current.endpoints, before, baseline, current, e.kind, e.endpointKey);
      if e.kind.EndpointAppeared? || e.kind.EndpointDisappeared? {
        NoneDiffers(current.endpoints, before, baseline, current, e.kind, e.endpointKey);
      }
    }
  }

  function UnmatchedChurn(endpoints: seq<Endpoint>, other: map<EndpointKey, Endpoint>): nat {
    |Sift(Unmatched(endpoints, other, EndpointAppeared), true)|
  }

  lemma {:induction false} ChurnIgnoresDirection(endpoints: seq<Endpoint>, other: map<EndpointKey, Endpoint>)
    ensures |Sift(Unmatched(endpoints, other, EndpointDisappeared), true)| == UnmatchedChurn(endpoints, other)
  {
    if endpoints != [] {
      ChurnIgnoresDirection(endpoints[..|endpoints| - 1], other);
      UnmatchedStep(endpoints, other, EndpointAppeared);
      UnmatchedStep(endpoints, other, EndpointDisappeared);
      hide Sift, SeverityFor, Unmatched;
    }
  }

  lemma UnmatchedStep(endpoints: seq<Endpoint>, other: map<EndpointKey, Endpoint>, of: DriftKind)
    requires endpoints != []
    ensures var init, last := endpoints[..|endpoints| - 1], endpoints[|endpoints| - 1];
      Sift(Unmatched(endpoints, other, of), true)
      == Sift(Unmatched(init, other, of), true) + (if KeyOf(last) in other then [] else Kept(Entry(of, last), true))
  {
    var init, last := endpoints[..|endpoints| - 1], endpoints[|endpoints| - 1];
    SiftLast(Unmatched(init, other, of), Entry(of, last), true);
    hide Sift, Kept, Entry;
    if KeyOf(last) in other {
      assert Unmatched(endpoints, other, of) == Unmatched(init, other, of);
    }
  }

  lemma SuppressedCount(baseline: ScanSnapshot, current: ScanSnapshot)
    ensures Difference(baseline, current).suppressedEphemeral
         == UnmatchedChurn(current.endpoints, Index(baseline.endpoints)) + UnmatchedChurn(baseline.endpoints, Index(current.endpoints))
  {
    hide Sift, Unmatched, Index, Changes, RuleSetEntry;
    var appeared := Unmatched(current.endpoints, Index(baseline.endpoints), EndpointAppeared);
    var disappeared := Unmatched(baseline.endpoints, Index(current.endpoints), EndpointDisappeared);
    var changes, rules := Changes(current.endpoints, Index(baseline.endpoints), baseline, current), RuleSetEntry(baseline, current);
    assert Found(baseline, current) == appeared + (disappeared + (changes + rules));
    SiftSum(appeared, disappeared + (changes + rules), true);
    SiftSum(disappeared, changes + rules, true);
    ChangesNeverChurn(baseline, current);
    NoChurn(changes + rules);
    ChurnIgnoresDirection(baseline.endpoints, Index(current.endpoints));
  }

  // ----- swapping the arguments -----

  function Mirror(kind: DriftKind): DriftKind {
    match kind
    case EndpointAppeared => EndpointDisappeared
    case EndpointDisappeared => EndpointAppeared
    case ReachabilityChanged(before, after) => ReachabilityChanged(after, before)
    case ProcessChanged => ProcessChanged
    case SignatureChanged => SignatureChanged
    case RuleSetChanged => RuleSetChanged
  }

  ghost predicate Distinct(s: ScanSnapshot) {
    forall i, j :: 0 <= i < j < |s.endpoints| ==> KeyOf(s.endpoints[i]) != KeyOf(s.endpoints[j])
  }

  lemma DistinctCompare(s: ScanSnapshot, e: Endpoint)
    requires Distinct(s)
    ensures e in s.endpoints <==> ComparedWith(s.endpoints, e, KeyOf(e))
  {
    if e in s.endpoints {
      var i :| 0 <= i < |s.endpoints| && s.endpoints[i] == e;
      assert LastAt(s.endpoints, i);
    }
  }

  lemma SwapDetects(a: ScanSnapshot, b: ScanSnapshot, kind: DriftKind, key: Option<EndpointKey>)
    requires Distinct(a) && Distinct(b) && Detects(a, b, kind, key)
    ensures Detects(b, a, Mirror(kind), key)
  {
    if key.Some? && !kind.EndpointAppeared? && !kind.EndpointDisappeared? {
      hide ReachabilityIn, Distinct;
      var x, y :| x in a.endpoints && y in b.endpoints && ComparedWith(a.endpoints, x, key.value)
                  && KeyOf(y) == key.value && Differs(kind, x, y, a, b);
      DistinctCompare(a, x);
      DistinctCompare(b, y);
      assert Differs(Mirror(kind), y, x, b, a);
      hide ComparedWith, Differs;
    }
  }

  /** Swapping the snapshots never changes how much is suppressed. */
  lemma SwapKeepsSuppressed(a: ScanSnapshot, b: ScanSnapshot)
    ensures Difference(a, b).suppressedEphemeral == Difference(b, a).suppressedEphemeral
  {
    SuppressedCount(a, b);
    SuppressedCount(b, a);
    hide Difference;
  }

  /** With distinct keys, swapping the snapshots swaps appearance with disappearance and before with after,
      and keeps everything else. */
  lemma SwappingMirrors(a: ScanSnapshot, b: ScanSnapshot, kind: DriftKind, key: Option<EndpointKey>)
    requires Distinct(a) && Distinct(b)
    ensures Lists(Difference(a, b).entries, kind, key) <==> Lists(Difference(b, a).entries, Mirror(kind), key)
  {
    ReportedExactlyWhen(a, b, kind, key);
    ReportedExactlyWhen(b, a, Mirror(kind), key);
    assert Mirror(Mirror(kind)) == kind;
    hide Detects, Difference, Lists, Distinct;
    if Detects(a, b, kind, key) {
      SwapDetects(a, b, kind, key);
    }
    if Detects(b, a, Mirror(kind), key) {
      SwapDetects(b, a, Mirror(kind), key);
    }
  }

  // ----- exactly when a swap mirrors -----

  predicate SomePathDiffers(s: ScanSnapshot, key: EndpointKey, e: Endpoint) {
    exists c :: c in s.endpoints && KeyOf(c) == key && c.processPath != e.processPath
  }

  predicate SomeSignatureDiffers(s: ScanSnapshot, key: EndpointKey, e: Endpoint) {
    exists c :: c in s.endpoints && KeyOf(c) == key && c.signatureStatus != e.signatureStatus
  }

  predicate SomeReaches(s: ScanSnapshot, key: EndpointKey, r: Reachability) {
    exists c :: c in s.endpoints && KeyOf(c) == key && ReachabilityIn(c, s) == r
  }

  predicate OnlyReaches(s: ScanSnapshot, key: EndpointKey, r: Reachability, q: Reachability) {
    forall c :: c in s.endpoints && KeyOf(c) == key ==> ReachabilityIn(c, s) == r || ReachabilityIn(c, s) == q
  }

  /** Of the endpoints that share a key, x and y are the last in a and in b: each side has a path, and a
      signature, other than the last one of the other side exactly when the other side has, and all of them reach
      what x reaches or what y does. */
  predicate MirrorsAt(a: ScanSnapshot, b: ScanSnapshot, key: EndpointKey)
    requires key in Index(a.endpoints) && key in Index(b.endpoints)
  {
    var x, y := Index(a.endpoints)[key], Index(b.endpoints)[key];
    && (SomePathDiffers(b, key, x) <==> SomePathDiffers(a, key, y))
    && (SomeSignatureDiffers(b, key, x) <==> SomeSignatureDiffers(a, key, y))
    && OnlyReaches(a, key, ReachabilityIn(x, a), ReachabilityIn(y, b))
    && OnlyReaches(b, key, ReachabilityIn(x, a), ReachabilityIn(y, b))
  }

  ghost predicate SwapMirrors(a: ScanSnapshot, b: ScanSnapshot) {
    forall kind, key :: Lists(Difference(a, b).entries, kind, key) <==> Lists(Difference(b, a).entries, Mirror(kind), key)
  }

  /** What a change of a shared key is, given the endpoint `x` the current ones are compared with. */
  predicate DiffersFrom(kind: DriftKind, x: Endpoint, a: ScanSnapshot, b: ScanSnapshot, key: EndpointKey) {
    match kind
    case ProcessChanged => SomePathDiffers(b, key, x)
    case SignatureChanged => SomeSignatureDiffers(b, key, x)
    case ReachabilityChanged(before, after) => before == ReachabilityIn(x, a) && before != after && SomeReaches(b, key, after)
    case RuleSetChanged => false
    case EndpointAppeared => false
    case EndpointDisappeared => false
  }

  lemma DetectsAt(a: ScanSnapshot, b: ScanSnapshot, kind: DriftKind, key: EndpointKey)
    requires !kind.EndpointAppeared? && !kind.EndpointDisappeared?
    ensures Detects(a, b, kind, Some(key)) <==>
      key in Index(a.endpoints) && DiffersFrom(kind, Index(a.endpoints)[key], a, b, key)
  {
    SomeDiffersMeans(a, b, kind, key);
    hide Detects, Index, ReachabilityIn;
    if key in Index(a.endpoints) {
      var x := Index(a.endpoints)[key];
      forall c | c in b.endpoints && KeyOf(c) == key && Differs(kind, x, c, a, b) ensures DiffersFrom(kind, x, a, b, key) {
      }
    }
  }

  lemma SharedKeys(a: ScanSnapshot, b: ScanSnapshot, kind: DriftKind, key: EndpointKey)
    requires !kind.EndpointAppeared? && !kind.EndpointDisappeared? && Detects(a, b, kind, Some(key))
    ensures key in Index(a.endpoints) && key in Index(b.endpoints)
  {
    IndexKeys(b.endpoints);
    DetectsAt(a, b, kind, key);
    hide Index, ReachabilityIn, Differs, ComparedWith;
  }

  lemma OwnReach(s: ScanSnapshot, key: EndpointKey)
    requires key in Index(s.endpoints)
    ensures SomeReaches(s, key, ReachabilityIn(Index(s.endpoints)[key], s))
  {
    IndexKeepsLast(s.endpoints, key);
    hide ReachabilityIn, Index;
  }

  lemma MirrorHolds(a: ScanSnapshot, b: ScanSnapshot, kind: DriftKind, key: EndpointKey)
    requires !kind.EndpointAppeared? && !kind.EndpointDisappeared?
    requires key in Index(a.endpoints) && key in Index(b.endpoints) && MirrorsAt(a, b, key)
    requires Detects(a, b, kind, Some(key))
    ensures Detects(b, a, Mirror(kind), Some(key))
  {
    DetectsAt(a, b, kind, key);
    DetectsAt(b, a, Mirror(kind), key);
    OwnReach(a, key);
    hide Detects, Index, ReachabilityIn, SomePathDiffers, SomeSignatureDiffers;
  }

  lemma MirrorSymmetric(a: ScanSnapshot, b: ScanSnapshot, key: EndpointKey)
    requires key in Index(a.endpoints) && key in Index(b.endpoints) && MirrorsAt(a, b, key)
    ensures MirrorsAt(b, a, key)
  {
    hide Index, ReachabilityIn, SomePathDiffers, SomeSignatureDiffers;
  }

  lemma MirrorNeeded(a: ScanSnapshot, b: ScanSnapshot, key: EndpointKey)
    requires key in Index(a.endpoints) && key in Index(b.endpoints)
    requires forall kind: DriftKind :: !kind.EndpointAppeared? && !kind.EndpointDisappeared? ==>
               (Detects(a, b, kind, Some(key)) <==> Detects(b, a, Mirror(kind), Some(key)))
    ensures MirrorsAt(a, b, key)
  {
    var x, y := Index(a.endpoints)[key], Index(b.endpoints)[key];
    var r, q := ReachabilityIn(x, a), ReachabilityIn(y, b);
    forall kind: DriftKind | !kind.EndpointAppeared? && !kind.EndpointDisappeared?
      ensures DiffersFrom(kind, x, a, b, key) <==> DiffersFrom(Mirror(kind), y, b, a, key)
    {
      DetectsAt(a, b, kind, key);
      DetectsAt(b, a, Mirror(kind), key);
    }
    hide Detects, Index, ReachabilityIn;
    assert DiffersFrom(ProcessChanged, x, a, b, key) <==> DiffersFrom(ProcessChanged, y, b, a, key);
    assert DiffersFrom(SignatureChanged, x, a, b, key) <==> DiffersFrom(SignatureChanged, y, b, a, key);
    forall c | c in b.endpoints && KeyOf(c) == key ensures ReachabilityIn(c, b) == r || ReachabilityIn(c, b) == q {
      var p := ReachabilityIn(c, b);
      assert p != r ==> DiffersFrom(ReachabilityChanged(r, p), x, a, b, key);
      assert Mirror(ReachabilityChanged(r, p)) == ReachabilityChanged(p, r);
    }
    forall d | d in a.endpoints && KeyOf(d) == key ensures ReachabilityIn(d, a) == r || ReachabilityIn(d, a) == q {
      var p := ReachabilityIn(d, a);
      assert p != q ==> DiffersFrom(ReachabilityChanged(q, p), y, b, a, key);
      assert Mirror(ReachabilityChanged(p, q)) == ReachabilityChanged(q, p);
    }
  }

  lemma AppearanceMirrors(a: ScanSnapshot, b: ScanSnapshot, kind: DriftKind, key: Option<EndpointKey>)
    requires kind.EndpointAppeared? || kind.EndpointDisappeared? || key.None?
    ensures Detects(a, b, kind, key) <==> Detects(b, a, Mirror(kind), key)
  {
  }

  /** Whatever the keys, swapping the snapshots mirrors the whole report exactly when it does so at every key
      both sides have. */
  lemma SwapMirrorsExactlyWhen(a: ScanSnapshot, b: ScanSnapshot)
    ensures SwapMirrors(a, b) <==>
      forall key :: key in Index(a.endpoints) && key in Index(b.endpoints) ==> MirrorsAt(a, b, key)
  {
    forall kind, key
      ensures Lists(Difference(a, b).entries, kind, key) <==> Detects(a, b, kind, key) && !Churn(kind, key)
      ensures Lists(Difference(b, a).entries, Mirror(kind), key) <==> Detects(b, a, Mirror(kind), key) && !Churn(kind, key)
    {
      ReportedExactlyWhen(a, b, kind, key);
      ReportedExactlyWhen(b, a, Mirror(kind), key);
    }
    hide Detects, Difference, Lists, Index, MirrorsAt;
    if SwapMirrors(a, b) {
      forall key | key in Index(a.endpoints) && key in Index(b.endpoints) ensures MirrorsAt(a, b, key) {
        forall kind: DriftKind | !kind.EndpointAppeared? && !kind.EndpointDisappeared?
          ensures Detects(a, b, kind, Some(key)) <==> Detects(b, a, Mirror(kind), Some(key))
        {
          assert Lists(Difference(a, b).entries, kind, Some(key)) <==> Lists(Difference(b, a).entries, Mirror(kind), Some(key));
        }
        MirrorNeeded(a, b, key);
      }
    }
    if forall key :: key in Index(a.endpoints) && key in Index(b.endpoints) ==> MirrorsAt(a, b, key) {
      forall kind, key ensures Detects(a, b, kind, key) <==> Detects(b, a, Mirror(kind), key) {
        MirrorEverywhere(a, b, kind, key);
      }
    }
  }

  lemma MirrorEverywhere(a: ScanSnapshot, b: ScanSnapshot, kind: DriftKind, key: Option<EndpointKey>)
    requires forall k :: k in Index(a.endpoints) && k in Index(b.endpoints) ==> MirrorsAt(a, b, k)
    ensures Detects(a, b, kind, key) <==> Detects(b, a, Mirror(kind), key)
  {
    hide Detects, Index, MirrorsAt;
    if kind.EndpointAppeared? || kind.EndpointDisappeared? || key.None? {
      AppearanceMirrors(a, b, kind, key);
    } else {
      if Detects(a, b, kind, key) {
        SharedKeys(a, b, kind, key.value);
        MirrorHolds(a, b, kind, key.value);
      }
      if Detects(b, a, Mirror(kind), key) {
        SharedKeys(b, a, Mirror(kind), key.value);
        MirrorSymmetric(a, b, key.value);
        MirrorHolds(b, a, Mirror(kind), key.value);
        assert Mirror(Mirror(kind)) == kind;
      }
    }
  }

  // ----- nothing to report -----

  predicate SameSubject(b: Endpoint, c: Endpoint, baseline: ScanSnapshot, current: ScanSnapshot) {
    && b.processPath == c.processPath && b.signatureStatus == c.signatureStatus
    && ReachabilityIn(b, baseline) == ReachabilityIn(c, current)
  }

  predicate NothingChanged(baseline: ScanSnapshot, current: ScanSnapshot) {
    && (forall b :: b in baseline.endpoints ==> HasKey(current.endpoints, KeyOf(b)))
    && (forall c :: c in current.endpoints ==> HasKey(baseline.endpoints, KeyOf(c)))
    && (forall b, c :: b in baseline.endpoints && c in current.endpoints && KeyOf(b) == KeyOf(c)
          ==> SameSubject(b, c, baseline, current))
    && baseline.firewallRules == current.firewallRules
  }

  /** The same, each current endpoint held against the last baseline endpoint of its key only. */
  predicate NothingSeen(baseline: ScanSnapshot, current: ScanSnapshot) {
    && (forall b :: b in baseline.endpoints ==> HasKey(current.endpoints, KeyOf(b)))
    && (forall c :: c in current.endpoints ==> HasKey(baseline.endpoints, KeyOf(c)))
    && (forall b, c :: b in baseline.endpoints && c in current.endpoints && ComparedWith(baseline.endpoints, b, KeyOf(c))
          ==> SameSubject(b, c, baseline, current))
    && baseline.firewallRules == current.firewallRules
  }

  lemma ChangeIsDetected(baseline: ScanSnapshot, current: ScanSnapshot) returns (kind: DriftKind, key: Option<EndpointKey>)
    requires !NothingSeen(baseline, current)
    ensures Detects(baseline, current, kind, key)
  {
    hide ReachabilityIn, HasKey, ComparedWith;
    if baseline.firewallRules != current.firewallRules {
      return RuleSetChanged, None;
    }
    if b :| b in baseline.endpoints && !HasKey(current.endpoints, KeyOf(b)) {
      KeyIsHad(baseline.endpoints, b);
      return EndpointDisappeared, Some(KeyOf(b));
    }
    if c :| c in current.endpoints && !HasKey(baseline.endpoints, KeyOf(c)) {
      KeyIsHad(current.endpoints, c);
      return EndpointAppeared, Some(KeyOf(c));
    }
    var b, c :| b in baseline.endpoints && c in current.endpoints && ComparedWith(baseline.endpoints, b, KeyOf(c))
                && !SameSubject(b, c, baseline, current);
    key := Some(KeyOf(c));
    kind := if b.processPath != c.processPath then ProcessChanged
            else if b.signatureStatus != c.signatureStatus then SignatureChanged
            else ReachabilityChanged(ReachabilityIn(b, baseline), ReachabilityIn(c, current));
    assert Differs(kind, b, c, baseline, current);
  }

  lemma KeyIsHad(endpoints: seq<Endpoint>, e: Endpoint)
    requires e in endpoints
    ensures HasKey(endpoints, KeyOf(e))
  {
  }

  lemma UnseenIsQuiet(baseline: ScanSnapshot, current: ScanSnapshot, kind: DriftKind, key: Option<EndpointKey>)
    requires NothingSeen(baseline, current)
    ensures !Detects(baseline, current, kind, key)
  {
    hide ReachabilityIn, LastAt;
  }

  /** For any two snapshots the report is empty, with nothing suppressed, exactly when the keys and the rule lists
      agree and each current endpoint has the process path, signature and reachability of the last baseline
      endpoint of its key. */
  lemma QuietExactlyWhen(baseline: ScanSnapshot, current: ScanSnapshot)
    ensures Difference(baseline, current) == DriftReport([], 0) <==> NothingSeen(baseline, current)
  {
    var found := Found(baseline, current);
    FilterSplits(found);
    assert Difference(baseline, current) == DriftReport([], 0) <==> found == [];
    hide Found, Difference, Sift, NothingSeen, Detects;
    if NothingSeen(baseline, current) {
      if found != [] {
        var e := found[0];
        assert Lists(found, e.kind, e.endpointKey);
        FoundExactlyWhen(baseline, current, e.kind, e.endpointKey);
        UnseenIsQuiet(baseline, current, e.kind, e.endpointKey);
      }
    } else {
      var kind, key := ChangeIsDetected(baseline, current);
      FoundExactlyWhen(baseline, current, kind, key);
    }
  }

  /** With distinct baseline keys that means that keys, process paths, signatures, per-endpoint reachability and
      rule lists all agree. */
  lemma EmptyExactlyWhen(baseline: ScanSnapshot, current: ScanSnapshot)
    requires Distinct(baseline)
    ensures Difference(baseline, current) == DriftReport([], 0) <==> NothingChanged(baseline, current)
  {
    QuietExactlyWhen(baseline, current);
    hide Difference, SameSubject, HasKey, Distinct, ComparedWith;
    forall b, c | b in baseline.endpoints && c in current.endpoints
      ensures ComparedWith(baseline.endpoints, b, KeyOf(c)) <==> KeyOf(b) == KeyOf(c)
    {
      DistinctCompare(baseline, b);
      ComparedHasKey(baseline.endpoints, b, KeyOf(c));
    }
  }

  lemma ComparedHasKey(endpoints: seq<Endpoint>, b: Endpoint, key: EndpointKey)
    ensures ComparedWith(endpoints, b, key) ==> KeyOf(b) == key
  {
  }

  // ----- nothing is reported twice -----

  predicate SameSubjectAs(d: DriftEntry, e: DriftEntry) { d.kind == e.kind && d.endpointKey == e.endpointKey }

  predicate Once(entries: seq<DriftEntry>) {
    forall i, j :: 0 <= i < j < |entries| ==> !SameSubjectAs(entries[i], entries[j])
  }

  lemma OnceSum(a: seq<DriftEntry>, b: seq<DriftEntry>)
    requires Once(a) && Once(b) && forall d, e :: d in a && e in b ==> !SameSubjectAs(d, e)
    ensures Once(a + b)
  {
  }

  lemma {:induction false} UnmatchedOnce(endpoints: seq<Endpoint>, other: map<EndpointKey, Endpoint>, of: DriftKind)
    requires forall i, j :: 0 <= i < j < |endpoints| ==> KeyOf(endpoints[i]) != KeyOf(endpoints[j])
    ensures Once(Unmatched(endpoints, other, of))
    ensures forall e :: e in Unmatched(endpoints, other, of) ==>
              e.kind == of && e.endpointKey.Some? && HasKey(endpoints, e.endpointKey.value)
  {
    hide SeverityFor;
    if endpoints != [] {
      var init, last := endpoints[..|endpoints| - 1], endpoints[|endpoints| - 1];
      UnmatchedOnce(init, other, of);
      forall e | e in Unmatched(init, other, of) ensures !SameSubjectAs(e, Entry(of, last)) && HasKey(endpoints, e.endpointKey.value) {
        var x :| x in init && KeyOf(x) == e.endpointKey.value;
        var i :| 0 <= i < |init| && init[i] == x;
        assert endpoints[i] == x;
      }
      assert last in endpoints;
    }
  }

  lemma ChangesOfOnce(b: Endpoint, c: Endpoint, baseline: ScanSnapshot, current: ScanSnapshot)
    ensures Once(ChangesOf(b, c, baseline, current))
    ensures forall e :: e in ChangesOf(b, c, baseline, current) ==>
              e.endpointKey == Some(KeyOf(c)) && !e.kind.EndpointAppeared? && !e.kind.EndpointDisappeared? && !e.kind.RuleSetChanged?
  {
    hide SeverityFor, ReachabilityIn;
  }

  lemma {:induction false} ChangesOnce(endpoints: seq<Endpoint>, before: map<EndpointKey, Endpoint>, baseline: ScanSnapshot, current: ScanSnapshot)
    requires forall i, j :: 0 <= i < j < |endpoints| ==> KeyOf(endpoints[i]) != KeyOf(endpoints[j])
    ensures Once(Changes(endpoints, before, baseline, current))
    ensures forall e :: e in Changes(endpoints, before, baseline, current) ==>
              && e.endpointKey.Some? && HasKey(endpoints, e.endpointKey.value)
              && !e.kind.EndpointAppeared? && !e.kind.EndpointDisappeared? && !e.kind.RuleSetChanged?
  {
    hide ChangesOf, Once;
    if endpoints == [] {
      assert Once([]) by { OnceEmpty(); }
    } else {
      var init, last := endpoints[..|endpoints| - 1], endpoints[|endpoints| - 1];
      ChangesOnce(init, before, baseline, current);
      var some, more := Changes(init, before, baseline, current), [];
      OnceEmpty();
      if KeyOf(last) in before {
        more := ChangesOf(before[KeyOf(last)], last, baseline, current);
        ChangesOfOnce(before[KeyOf(last)], last, baseline, current);
      }
      forall e | e in some ensures e.endpointKey != Some(KeyOf(last)) && HasKey(endpoints, e.endpointKey.value) {
        var x :| x in init && KeyOf(x) == e.endpointKey.value;
        var i :| 0 <= i < |init| && init[i] == x;
        assert endpoints[i] == x;
      }
      assert last in endpoints;
      OnceSum(some, more);
    }
  }

  lemma OnceEmpty()
    ensures Once([])
  {
  }

  lemma RulesOnce(baseline: ScanSnapshot, current: ScanSnapshot)
    ensures Once(RuleSetEntry(baseline, current))
    ensures forall e :: e in RuleSetEntry(baseline, current) ==> e.kind.RuleSetChanged?
  {
  }

  lemma FoundOnce(baseline: ScanSnapshot, current: ScanSnapshot)
    requires Distinct(baseline) && Distinct(current)
    ensures Once(Found(baseline, current))
  {
    hide Unmatched, Changes, Index, RuleSetEntry, Once, HasKey;
    var before, after := Index(baseline.endpoints), Index(current.endpoints);
    var appeared := Unmatched(current.endpoints, before, EndpointAppeared);
    var disappeared := Unmatched(baseline.endpoints, after, EndpointDisappeared);
    var changes, rules := Changes(current.endpoints, before, baseline, current), RuleSetEntry(baseline, current);
    UnmatchedOnce(current.endpoints, before, EndpointAppeared);
    UnmatchedOnce(baseline.endpoints, after, EndpointDisappeared);
    ChangesOnce(current.endpoints, before, baseline, current);
    RulesOnce(baseline, current);
    OnceSum(appeared, disappeared);
    OnceSum(appeared + disappeared, changes);
    OnceSum(appeared + disappeared + changes, rules);
  }

  lemma {:induction false} SiftOnce(entries: seq<DriftEntry>, churn: bool)
    requires Once(entries)
    ensures Once(Sift(entries, churn))
  {
    if entries != [] {
      SiftOnce(entries[1..], churn);
      SiftAre(entries[1..]);
      hide IsEphemeralChurn, Churn;
      forall e | e in Sift(entries[1..], churn) ensures !SameSubjectAs(entries[0], e) {
        var j :| 0 <= j < |entries| - 1 && entries[1..][j] == e;
        assert entries[j + 1] == e;
      }
    }
  }

  /** With distinct keys no change is reported twice. */
  lemma ReportedOnce(baseline: ScanSnapshot, current: ScanSnapshot)
    requires Distinct(baseline) && Distinct(current)
    ensures Once(Difference(baseline, current).entries)
  {
    hide Found, Once;
    FoundOnce(baseline, current);
    SiftOnce(Found(baseline, current), false);
  }

  // ----- what the comparison ignores -----

  /** Alike but for process id and command line. */
  predicate AlikeEndpoint(e: Endpoint, f: Endpoint) {
    SameEndpointScope(e, f) && KeyOf(e) == KeyOf(f) && e.signatureStatus == f.signatureStatus
  }

  predicate AlikeEndpoints(s: seq<Endpoint>, t: seq<Endpoint>) {
    |s| == |t| && forall i :: 0 <= i < |s| ==> AlikeEndpoint(s[i], t[i])
  }

  /** Alike but for process ids, command lines, host and scan ids, time, version, profiles and strategy. */
  predicate AlikeSnapshots(s: ScanSnapshot, t: ScanSnapshot) {
    AlikeEndpoints(s.endpoints, t.endpoints) && s.firewallRules == t.firewallRules
  }

  predicate AlikeIndexes(m: map<EndpointKey, Endpoint>, n: map<EndpointKey, Endpoint>) {
    m.Keys == n.Keys && forall k :: k in m ==> AlikeEndpoint(m[k], n[k])
  }

  lemma {:induction false} AlikeIndex(s: seq<Endpoint>, t: seq<Endpoint>)
    requires AlikeEndpoints(s, t)
    ensures AlikeIndexes(Index(s), Index(t))
  {
    hide SameEndpointScope;
    if s != [] {
      AlikeIndex(s[..|s| - 1], t[..|t| - 1]);
      assert AlikeEndpoint(s[|s| - 1], t[|t| - 1]);
    }
  }

  lemma {:induction false} AlikeUnmatched(s: seq<Endpoint>, t: seq<Endpoint>, m: map<EndpointKey, Endpoint>, n: map<EndpointKey, Endpoint>,
                                          of: DriftKind)
    requires AlikeEndpoints(s, t) && AlikeIndexes(m, n)
    ensures Unmatched(s, m, of) == Unmatched(t, n, of)
  {
    hide SeverityFor;
    if s != [] {
      AlikeUnmatched(s[..|s| - 1], t[..|t| - 1], m, n, of);
      assert AlikeEndpoint(s[|s| - 1], t[|t| - 1]);
      assert KeyOf(s[|s| - 1]) in m.Keys <==> KeyOf(t[|t| - 1]) in n.Keys;
    }
  }

  lemma AlikeReachability(e: Endpoint, f: Endpoint, s: ScanSnapshot, t: ScanSnapshot)
    requires AlikeEndpoint(e, f) && s.firewallRules == t.firewallRules
    ensures ReachabilityIn(e, s) == ReachabilityIn(f, t)
  {
    UnreadFieldsDoNotMatter(e, f, s.firewallRules, t.firewallRules, s.profiles, t.profiles);
    hide Evaluate;
  }

  lemma AlikeChangesOf(b: Endpoint, c: Endpoint, d: Endpoint, e: Endpoint, s: ScanSnapshot, t: ScanSnapshot, u: ScanSnapshot, v: ScanSnapshot)
    requires AlikeEndpoint(b, d) && AlikeEndpoint(c, e) && s.firewallRules == u.firewallRules && t.firewallRules == v.firewallRules
    ensures ChangesOf(b, c, s, t) == ChangesOf(d, e, u, v)
  {
    AlikeReachability(b, d, s, u);
    AlikeReachability(c, e, t, v);
    hide ReachabilityIn, SeverityFor;
  }

  lemma {:induction false} AlikeChanges(x: seq<Endpoint>, y: seq<Endpoint>, m: map<EndpointKey, Endpoint>, n: map<EndpointKey, Endpoint>,
                                        s: ScanSnapshot, t: ScanSnapshot, u: ScanSnapshot, v: ScanSnapshot)
    requires AlikeEndpoints(x, y) && AlikeIndexes(m, n) && s.firewallRules == u.firewallRules && t.firewallRules == v.firewallRules
    ensures Changes(x, m, s, t) == Changes(y, n, u, v)
  {
    hide ChangesOf;
    if x != [] {
      AlikeChanges(x[..|x| - 1], y[..|y| - 1], m, n, s, t, u, v);
      var c, e := x[|x| - 1], y[|y| - 1];
      assert AlikeEndpoint(c, e);
      assert KeyOf(c) in m.Keys <==> KeyOf(e) in n.Keys;
      if KeyOf(c) in m {
        AlikeChangesOf(m[KeyOf(c)], c, n[KeyOf(c)], e, s, t, u, v);
      }
    }
  }

  /** Process ids, command lines, host and scan ids, time, version, strategy and profiles may change on either
      side without changing the report. */
  lemma UnreadFieldsDoNotDrift(s: ScanSnapshot, t: ScanSnapshot, u: ScanSnapshot, v: ScanSnapshot)
    requires AlikeSnapshots(s, u) && AlikeSnapshots(t, v)
    ensures Difference(s, t) == Difference(u, v)
  {
    AlikeIndex(s.endpoints, u.endpoints);
    AlikeIndex(t.endpoints, v.endpoints);
    AlikeUnmatched(t.endpoints, v.endpoints, Index(s.endpoints), Index(u.endpoints), EndpointAppeared);
    AlikeUnmatched(s.endpoints, u.endpoints, Index(t.endpoints), Index(v.endpoints), EndpointDisappeared);
    AlikeChanges(t.endpoints, v.endpoints, Index(s.endpoints), Index(u.endpoints), s, t, u, v);
    hide Index, Unmatched, Changes, Sift, AlikeEndpoints, AlikeIndexes;
  }

  // ----- repeated keys -----

  /** The last of two endpoints with one key hides the first, so with a repeated key a swap need not mirror:
      one direction of this comparison is silent and the other is not. */
  lemma RepeatedKeyBreaksSwap(twice: ScanSnapshot, once: ScanSnapshot, first: Endpoint, last: Endpoint)
    requires KeyOf(first) == KeyOf(last) && first.processPath != last.processPath
    requires twice.endpoints == [first, last] && once == twice.(endpoints := [last])
    ensures Difference(twice, once) == DriftReport([], 0)
    ensures Lists(Difference(once, twice).entries, ProcessChanged, Some(KeyOf(last)))
  {
    SilentOneWay(twice, once, first, last);
    hide Difference;
    assert LastAt(once.endpoints, 0);
    assert first in twice.endpoints && last in once.endpoints;
    assert Differs(ProcessChanged, last, first, once, twice);
    ReportedExactlyWhen(once, twice, ProcessChanged, Some(KeyOf(last)));
  }

  lemma SilentOneWay(twice: ScanSnapshot, once: ScanSnapshot, first: Endpoint, last: Endpoint)
    requires KeyOf(first) == KeyOf(last)
    requires twice.endpoints == [first, last] && once == twice.(endpoints := [last])
    ensures Difference(twice, once) == DriftReport([], 0)
  {
    hide Evaluate;
    var e := twice.endpoints;
    assert e[..1] == [first] && [first][..0] == [] && [last][..0] == [];
    assert Index(e) == Index(e[..1])[KeyOf(last) := last];
    assert Unmatched([last], Index(e), EndpointAppeared) == [];
    assert KeyOf(last) in Index([last]);
    assert Unmatched([first], Index([last]), EndpointDisappeared) == [];
    assert Unmatched(e, Index([last]), EndpointDisappeared) == [];
    assert ReachabilityIn(last, twice) == ReachabilityIn(last, once);
    assert Changes([last], Index(e), twice, once) == [];
    assert Found(twice, once) == [];
  }
}
