/** Laws of the evaluator, stated on the set of rules that apply. */
module ReachabilityLaws {
  import opened Wrappers
  import opened Text
  import opened PortSpecs
  import opened Domain
  import opened Reachabilities

  /** The verdicts from the weakest to the strongest. */
  function Rank(r: Reachability): nat {
    match r
    case LocalOnly => 0
    case DefaultAction => 1
    case Allowed => 2
    case Indeterminate => 3
    case Blocked => 4
  }

  function Max(a: nat, b: nat): nat { if a < b then b else a }

  predicate Counts(rule: FirewallRule, rules: seq<FirewallRule>, endpoint: Endpoint) {
    rule in rules && RuleApplies(rule, endpoint)
  }

  lemma {:induction false} ApplicableAre(rules: seq<FirewallRule>, endpoint: Endpoint)
    ensures forall r :: r in Applicable(rules, endpoint) <==> Counts(r, rules, endpoint)
  {
    hide RuleApplies;
    if rules != [] {
      ApplicableAre(rules[1..], endpoint);
      assert rules == [rules[0]] + rules[1..];
    }
  }

  lemma {:induction false} AllowsAre(rules: seq<FirewallRule>)
    ensures forall r :: r in Allows(rules) <==> r in rules && r.action == Allow
  {
    if rules != [] {
      AllowsAre(rules[1..]);
      assert rules == [rules[0]] + rules[1..];
    }
  }

  predicate SomeCounts(rules: seq<FirewallRule>, endpoint: Endpoint, action: RuleAction, dynamicOnly: bool) {
    exists r :: r in rules && RuleApplies(r, endpoint) && r.action == action && (dynamicOnly ==> r.portSpec.Dynamic?)
  }

  /** The verdict in terms of the set of rules that apply: a block beats an unresolved allow, which beats an
      allow, which beats no rule at all. */
  lemma VerdictMeans(endpoint: Endpoint, rules: seq<FirewallRule>, profiles: seq<ProfileState>)
    ensures Evaluate(endpoint, rules, profiles).reachability ==
      if endpoint.exposure == Loopback then LocalOnly
      else if SomeCounts(rules, endpoint, Block, false) then Blocked
      else if SomeCounts(rules, endpoint, Allow, true) then Indeterminate
      else if SomeCounts(rules, endpoint, Allow, false) then Allowed
      else DefaultAction
  {
    hide RuleApplies;
    var applicable := Applicable(rules, endpoint);
    ApplicableAre(rules, endpoint);
    AllowsAre(applicable);
    hide Applicable, Allows, FirstBlock;
    if Allows(applicable) != [] {
      assert Allows(applicable)[0] in Allows(applicable);
    }
  }

  /** Off the loopback, joining two rule lists takes the stronger of the two verdicts. */
  lemma JoiningTakesTheMaximum(endpoint: Endpoint, a: seq<FirewallRule>, b: seq<FirewallRule>, profiles: seq<ProfileState>)
    ensures Rank(Evaluate(endpoint, a + b, profiles).reachability)
         == Max(Rank(Evaluate(endpoint, a, profiles).reachability), Rank(Evaluate(endpoint, b, profiles).reachability))
  {
    VerdictMeans(endpoint, a, profiles);
    VerdictMeans(endpoint, b, profiles);
    VerdictMeans(endpoint, a + b, profiles);
    hide RuleApplies, Evaluate;
  }

  /** So the verdict only climbs as rules are added, wherever they are put. */
  lemma MoreRulesClimb(endpoint: Endpoint, a: seq<FirewallRule>, b: seq<FirewallRule>, profiles: seq<ProfileState>)
    requires forall r :: r in a ==> r in b
    ensures Rank(Evaluate(endpoint, a, profiles).reachability) <= Rank(Evaluate(endpoint, b, profiles).reachability)
  {
    VerdictMeans(endpoint, a, profiles);
    VerdictMeans(endpoint, b, profiles);
    hide RuleApplies, Evaluate;
  }

  /** Order and repetition of the rules do not matter. */
  lemma OrderAndRepetitionIgnored(endpoint: Endpoint, a: seq<FirewallRule>, b: seq<FirewallRule>, profiles: seq<ProfileState>)
    requires forall r :: r in a <==> r in b
    ensures Evaluate(endpoint, a, profiles).reachability == Evaluate(endpoint, b, profiles).reachability
  {
    MoreRulesClimb(endpoint, a, b, profiles);
    MoreRulesClimb(endpoint, b, a, profiles);
    hide Evaluate;
  }

  /** The rules a verdict carries are a full explanation: all of them apply, they come from the list, and
      evaluating against them alone gives the same verdict. */
  lemma VerdictExplainsItself(endpoint: Endpoint, rules: seq<FirewallRule>, profiles: seq<ProfileState>)
    ensures var v := Evaluate(endpoint, rules, profiles);
      && (forall r :: r in v.matchedRules ==> Counts(r, rules, endpoint))
      && Evaluate(endpoint, v.matchedRules, profiles).reachability == v.reachability
  {
    hide RuleApplies;
    ApplicableAre(rules, endpoint);
    AllowsAre(Applicable(rules, endpoint));
    var matched := Evaluate(endpoint, rules, profiles).matchedRules;
    VerdictMeans(endpoint, rules, profiles);
    VerdictMeans(endpoint, matched, profiles);
    hide Applicable, Allows, FirstBlock;
  }

  /** `part` is some of the elements of `whole`, in their order: those `keep` holds of. */
  ghost predicate Picks(whole: seq<FirewallRule>, part: seq<FirewallRule>, keep: FirewallRule -> bool) {
    if whole == [] then part == []
    else if keep(whole[0]) then part != [] && part[0] == whole[0] && Picks(whole[1..], part[1..], keep)
    else Picks(whole[1..], part, keep)
  }

  function AppliesTo(endpoint: Endpoint, action: RuleAction): FirewallRule -> bool {
    (r: FirewallRule) => RuleApplies(r, endpoint) && r.action == action
  }

  lemma AllowsHead(r: FirewallRule, rest: seq<FirewallRule>)
    ensures Allows([r] + rest) == (if r.action == Allow then [r] else []) + Allows(rest)
    ensures FirstBlock([r] + rest) == if r.action == Block then Some(r) else FirstBlock(rest)
  {
    assert ([r] + rest)[1..] == rest;
  }

  lemma {:induction false} AllowsPicked(rules: seq<FirewallRule>, endpoint: Endpoint)
    ensures Picks(rules, Allows(Applicable(rules, endpoint)), AppliesTo(endpoint, Allow))
  {
    hide RuleApplies, Allows, FirstBlock;
    if rules == [] {
      assert Allows([]) == [] by { NoAllows(); }
    } else {
      AllowsPicked(rules[1..], endpoint);
      var r, rest := rules[0], Applicable(rules[1..], endpoint);
      if RuleApplies(r, endpoint) {
        AllowsHead(r, rest);
      } else {
        assert [] + rest == rest;
      }
      assert AppliesTo(endpoint, Allow)(r) == (RuleApplies(r, endpoint) && r.action == Allow);
      var part := Allows(rest);
      assert ([r] + part)[1..] == part && [] + part == part;
    }
  }

  lemma NoAllows()
    ensures Allows([]) == []
  {
  }

  /** The k-th rule is the first that applies and blocks. */
  predicate FirstBlocks(rules: seq<FirewallRule>, endpoint: Endpoint, k: nat) {
    && k < |rules| && RuleApplies(rules[k], endpoint) && rules[k].action == Block
    && forall j :: 0 <= j < k ==> !(RuleApplies(rules[j], endpoint) && rules[j].action == Block)
  }

  lemma {:induction false} FirstBlockIs(rules: seq<FirewallRule>, endpoint: Endpoint) returns (k: nat)
    requires FirstBlock(Applicable(rules, endpoint)).Some?
    ensures FirstBlocks(rules, endpoint, k) && FirstBlock(Applicable(rules, endpoint)) == Some(rules[k])
  {
    hide RuleApplies, FirstBlock, Allows;
    if rules == [] {
      NoBlock();
      assert false;
    } else {
      var r, rest := rules[0], Applicable(rules[1..], endpoint);
      if RuleApplies(r, endpoint) {
        AllowsHead(r, rest);
      } else {
        assert [] + rest == rest;
      }
      if RuleApplies(r, endpoint) && r.action == Block {
        k := 0;
      } else {
        k := FirstBlockIs(rules[1..], endpoint);
        BlocksLater(rules, endpoint, k);
        k := k + 1;
      }
    }
  }

  lemma NoBlock()
    ensures FirstBlock([]).None?
  {
  }

  lemma BlocksLater(rules: seq<FirewallRule>, endpoint: Endpoint, k: nat)
    requires rules != [] && FirstBlocks(rules[1..], endpoint, k)
    requires !(RuleApplies(rules[0], endpoint) && rules[0].action == Block)
    ensures FirstBlocks(rules, endpoint, k + 1) && rules[1..][k] == rules[k + 1]
  {
    hide RuleApplies;
    forall j | 0 <= j < k + 1 ensures !(RuleApplies(rules[j], endpoint) && rules[j].action == Block) {
      if j > 0 {
        assert rules[1..][j - 1] == rules[j];
      }
    }
  }

  /** The rules a verdict carries: when blocked, the first rule that blocks; when allowed or unresolved, every rule
      that applies and allows, in order; otherwise none. */
  lemma MatchedRulesAre(endpoint: Endpoint, rules: seq<FirewallRule>, profiles: seq<ProfileState>)
    ensures var v := Evaluate(endpoint, rules, profiles);
      match v.reachability
      case Blocked => exists k: nat :: FirstBlocks(rules, endpoint, k) && v.matchedRules == [rules[k]]
      case Allowed => Picks(rules, v.matchedRules, AppliesTo(endpoint, Allow))
      case Indeterminate => Picks(rules, v.matchedRules, AppliesTo(endpoint, Allow))
      case LocalOnly => v.matchedRules == []
      case DefaultAction => v.matchedRules == []
  {
    AllowsPicked(rules, endpoint);
    if FirstBlock(Applicable(rules, endpoint)).Some? {
      var k := FirstBlockIs(rules, endpoint);
    }
    hide Applicable, Allows, FirstBlock, RuleApplies, Picks;
  }

  // ----- program filters -----

  /** The kernel's pseudo-path, in any case. */
  predicate IsSystem(path: string) { SameIgnoringCase(path, "System") }

  /** A program filter matches the path it names, letter for letter, and nothing else; only the pseudo-path is
      recognised in any case. Without a path nothing matches. */
  lemma ProgramFilterMatchesExactlyWhen(filter: string, path: Option<string>)
    ensures ProgramFilterMatches(filter, path)
       <==> path.Some? && (path.value == filter || (IsSystem(filter) && IsSystem(path.value)))
  {
    ExpansionIsIdentity(filter);
    hide Lowered, Expanded;
  }

  /** So a rule filtered to one program never applies to another. */
  lemma OtherProgramsUntouched(rule: FirewallRule, endpoint: Endpoint)
    requires rule.programFilter.Some? && RuleApplies(rule, endpoint)
    ensures endpoint.processPath.Some?
    ensures endpoint.processPath == rule.programFilter || (IsSystem(rule.programFilter.value) && IsSystem(endpoint.processPath.value))
  {
    ProgramFilterMatchesExactlyWhen(rule.programFilter.value, endpoint.processPath);
    hide ProgramFilterMatches, Matches, IsSystem;
  }

  /** What expansion makes of every text: up to the first percent sign nothing changes; a closed placeholder gives
      the value of a known name, and stays as written when its name is empty or unknown; an unclosed sign leaves the
      rest as it is. */
  lemma ExpansionMeans(plain: string, name: string, rest: string, lookup: string -> Option<string>)
    requires '%' !in plain && '%' !in name
    ensures Expanded(plain, lookup) == plain
    ensures Expanded(plain + "%" + name, lookup) == plain + "%" + name
    ensures Expanded(plain + "%" + name + "%" + rest, lookup) == plain
      + (if name != "" && lookup(name).Some? then lookup(name).value else "%" + name + "%") + Expanded(rest, lookup)
  {
    hide Expanded;
    SignMeans(name, rest, lookup);
    PlainStays(plain, "", lookup);
    assert plain + "" == plain;
    PlainStays(plain, "%" + name, lookup);
    Regroup(plain, "%", name);
    PlainStays(plain, "%" + name + "%" + rest, lookup);
    Regroup(plain, "%" + name, "%" + rest);
    Regroup("%" + name, "%", rest);
    Regroup(plain + "%" + name, "%", rest);
    var value := if name != "" && lookup(name).Some? then lookup(name).value else "%" + name + "%";
    Regroup(plain, value, Expanded(rest, lookup));
  }

  lemma Regroup(p: string, q: string, r: string)
    ensures p + q + r == p + (q + r)
  {
  }

  lemma SignMeans(name: string, rest: string, lookup: string -> Option<string>)
    requires '%' !in name
    ensures Expanded("", lookup) == ""
    ensures Expanded("%" + name, lookup) == "%" + name
    ensures Expanded("%" + name + "%" + rest, lookup)
         == (if name != "" && lookup(name).Some? then lookup(name).value else "%" + name + "%") + Expanded(rest, lookup)
  {
    SplitOnceNone(name, "%");
    assert ("%" + name)[1..] == name;
    SplitOnceAt(name, "%", rest);
    assert ("%" + name + "%" + rest)[1..] == name + "%" + rest;
    hide SplitOnce;
  }

  lemma {:induction false} PlainStays(plain: string, rest: string, lookup: string -> Option<string>)
    requires '%' !in plain
    ensures Expanded(plain + rest, lookup) == plain + Expanded(rest, lookup)
  {
    if plain == "" {
      assert plain + rest == rest;
    } else {
      PlainStays(plain[1..], rest, lookup);
      assert plain + rest == [plain[0]] + (plain[1..] + rest) && (plain + rest)[1..] == plain[1..] + rest;
      assert plain == [plain[0]] + plain[1..];
    }
  }

  // ----- what the evaluator does not read -----

  predicate SameRuleScope(r: FirewallRule, s: FirewallRule) {
    && r.action == s.action && r.protocol == s.protocol && r.portSpec == s.portSpec
    && r.programFilter == s.programFilter && r.serviceFilter == s.serviceFilter
  }

  predicate SameScopes(a: seq<FirewallRule>, b: seq<FirewallRule>) {
    |a| == |b| && forall i :: 0 <= i < |a| ==> SameRuleScope(a[i], b[i])
  }

  predicate SameEndpointScope(e: Endpoint, f: Endpoint) {
    && e.exposure == f.exposure && e.protocol == f.protocol && e.port == f.port
    && e.processPath == f.processPath && e.hostedServices == f.hostedServices
  }

  lemma SameScopeCounts(e: Endpoint, f: Endpoint, a: seq<FirewallRule>, b: seq<FirewallRule>, action: RuleAction, dynamicOnly: bool)
    requires SameEndpointScope(e, f) && SameScopes(a, b) && SomeCounts(a, e, action, dynamicOnly)
    ensures SomeCounts(b, f, action, dynamicOnly)
  {
    hide Matches, ProgramFilterMatches;
    var r :| r in a && RuleApplies(r, e) && r.action == action && (dynamicOnly ==> r.portSpec.Dynamic?);
    var i :| 0 <= i < |a| && a[i] == r;
    assert RuleApplies(b[i], f) && b[i] in b;
  }

  /** Rule names, ids, stores, direction and enablement, process ids, command lines, signatures, addresses
      beyond their exposure, and profiles have no influence on the verdict. */
  lemma UnreadFieldsDoNotMatter(e: Endpoint, f: Endpoint, a: seq<FirewallRule>, b: seq<FirewallRule>,
                                p: seq<ProfileState>, q: seq<ProfileState>)
    requires SameEndpointScope(e, f) && SameScopes(a, b)
    ensures Evaluate(e, a, p).reachability == Evaluate(f, b, q).reachability
  {
    VerdictMeans(e, a, p);
    VerdictMeans(f, b, q);
    hide SomeCounts, Evaluate;
    forall action, dynamicOnly ensures SomeCounts(a, e, action, dynamicOnly) == SomeCounts(b, f, action, dynamicOnly) {
      if SomeCounts(a, e, action, dynamicOnly) {
        SameScopeCounts(e, f, a, b, action, dynamicOnly);
      }
      if SomeCounts(b, f, action, dynamicOnly) {
        SameScopeCounts(f, e, b, a, action, dynamicOnly);
      }
    }
  }

  // ----- disabled and outbound rules -----

  predicate IsLive(r: FirewallRule) { r.enabled && r.direction == Inbound }

  /** The rules that are enabled and inbound. */
  function Live(rules: seq<FirewallRule>): seq<FirewallRule> {
    if rules == [] then [] else (if IsLive(rules[0]) then [rules[0]] else []) + Live(rules[1..])
  }

  lemma {:induction false} LiveAre(rules: seq<FirewallRule>)
    ensures forall r :: r in Live(rules) <==> r in rules && IsLive(r)
  {
    hide IsLive;
    if rules != [] {
      LiveAre(rules[1..]);
      assert rules == [rules[0]] + rules[1..];
    }
  }

  /** A block beats an allow on a dynamic port, which beats any other allow. */
  function Strength(r: FirewallRule): nat {
    if r.action == Block then 3 else if r.portSpec.Dynamic? then 2 else 1
  }

  predicate SomeAtLeast(rules: seq<FirewallRule>, endpoint: Endpoint, strength: nat) {
    exists r :: r in rules && RuleApplies(r, endpoint) && Strength(r) >= strength
  }

  /** Every dead rule that applies has a live one beside it, at least as strong, that applies too. */
  predicate DeadAreMatched(rules: seq<FirewallRule>, endpoint: Endpoint) {
    forall d :: d in rules && !IsLive(d) && RuleApplies(d, endpoint) ==> SomeAtLeast(Live(rules), endpoint, Strength(d))
  }

  lemma VerdictByStrength(endpoint: Endpoint, rules: seq<FirewallRule>, profiles: seq<ProfileState>)
    ensures Evaluate(endpoint, rules, profiles).reachability ==
      if endpoint.exposure == Loopback then LocalOnly
      else if SomeAtLeast(rules, endpoint, 3) then Blocked
      else if SomeAtLeast(rules, endpoint, 2) then Indeterminate
      else if SomeAtLeast(rules, endpoint, 1) then Allowed
      else DefaultAction
  {
    VerdictMeans(endpoint, rules, profiles);
    hide RuleApplies, Evaluate;
  }

  /** The documentation says that a disabled rule does not shape connectivity, and rules are collected for
      inbound traffic. Dropping the rules that are not enabled and inbound leaves a verdict alone exactly when the
      endpoint is loopback or each of them that applies is matched by a live rule at least as strong. */
  lemma DeadRulesIgnoredExactlyWhen(endpoint: Endpoint, rules: seq<FirewallRule>, profiles: seq<ProfileState>)
    ensures Evaluate(endpoint, rules, profiles).reachability == Evaluate(endpoint, Live(rules), profiles).reachability
       <==> endpoint.exposure == Loopback || DeadAreMatched(rules, endpoint)
  {
    VerdictByStrength(endpoint, rules, profiles);
    VerdictByStrength(endpoint, Live(rules), profiles);
    LiveAre(rules);
    hide RuleApplies, Evaluate, Live, IsLive;
    if endpoint.exposure != Loopback && !DeadAreMatched(rules, endpoint) {
      var d :| d in rules && !IsLive(d) && RuleApplies(d, endpoint) && !SomeAtLeast(Live(rules), endpoint, Strength(d));
      assert SomeAtLeast(rules, endpoint, Strength(d));
    }
  }

  /** The documented promise can fail: a disabled rule, or an outbound one, alone blocks an open endpoint. */
  lemma DeadRuleDecides(endpoint: Endpoint, dead: FirewallRule, profiles: seq<ProfileState>)
    requires endpoint == Endpoint(Tcp, V4(0), 443, None, None, [], Unknown, AllInterfaces, None)
    requires dead == FirewallRule(1, "off", Inbound, Block, Tcp, Any, None, None, false, Local)
          || dead == FirewallRule(2, "out", Outbound, Block, Tcp, Any, None, None, true, Local)
    ensures Evaluate(endpoint, [dead], profiles).reachability == Blocked
    ensures Evaluate(endpoint, Live([dead]), profiles).reachability == DefaultAction
  {
    VerdictByStrength(endpoint, [dead], profiles);
    VerdictByStrength(endpoint, [], profiles);
    assert dead in [dead] && RuleApplies(dead, endpoint);
    assert Live([dead]) == [] + Live([dead][1..]) == [];
    hide Evaluate;
  }
}
