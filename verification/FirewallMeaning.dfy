/**
 Compiling preserves meaning: the evaluator's verdict on the compiled rules is the one a direct reading of
 the raw texts gives.
 */
module FirewallMeaning {
  import opened Wrappers
  import opened Text
  import opened PortSpecs
  import opened PortSpecLaws
  import opened Domain
  import opened Reachabilities
  import opened ReachabilityLaws
  import opened FirewallMapping

  // ----- the direct reading -----

  /** No protocol means both; one that is neither TCP nor UDP covers nothing. */
  predicate RawCovers(text: Option<string>, protocol: Protocol) {
    text.None? || Says(text.value, if protocol == Tcp then "tcp" else "udp")
  }

  predicate RawPort(text: Option<string>, port: nat) {
    text.None? || exists item :: item in Items(text.value) && PortSpecLaws.Allows(Trim(item), port)
  }

  predicate RawProgram(text: Option<string>, path: Option<string>) {
    text.None? || (path.Some? && (path.value == Trim(text.value) || (IsSystem(Trim(text.value)) && IsSystem(path.value))))
  }

  predicate RawService(text: Option<string>, services: seq<string>) {
    text.None? || Trim(text.value) in services
  }

  predicate RawAction(text: string, action: RuleAction) {
    if action == Allow then Says(text, "allow") else Says(text, "block") || Says(text, "deny")
  }

  /** The port text is a platform keyword and nothing else. */
  predicate RawDynamic(text: Option<string>) {
    text.Some? && FromName(Trim(text.value)).Some?
  }

  predicate RawApplies(raw: RawRule, endpoint: Endpoint) {
    && RawCovers(raw.protocol, endpoint.protocol)
    && RawPort(raw.localPortSpec, endpoint.port)
    && RawProgram(raw.programFilter, endpoint.processPath)
    && RawService(raw.serviceFilter, endpoint.hostedServices)
  }

  predicate RawCounts(raw: RawRule, endpoint: Endpoint, action: RuleAction, dynamicOnly: bool) {
    RawApplies(raw, endpoint) && RawAction(raw.action, action) && (dynamicOnly ==> RawDynamic(raw.localPortSpec))
  }

  predicate SomeRawCounts(raws: seq<RawRule>, endpoint: Endpoint, action: RuleAction, dynamicOnly: bool) {
    exists raw :: raw in raws && RawCounts(raw, endpoint, action, dynamicOnly)
  }

  function RawReachability(endpoint: Endpoint, raws: seq<RawRule>): Reachability {
    if endpoint.exposure == Loopback then LocalOnly
    else if SomeRawCounts(raws, endpoint, Block, false) then Blocked
    else if SomeRawCounts(raws, endpoint, Allow, true) then Indeterminate
    else if SomeRawCounts(raws, endpoint, Allow, false) then Allowed
    else DefaultAction
  }

  predicate GoodPortText(text: Option<string>) {
    text.Some? ==> forall item :: item in Items(text.value) ==> Trim(item) != "" && GoodItem(Trim(item))
  }

  /** Every text field a collector must get right; the protocol is not among them. */
  predicate WellFormed(raw: RawRule) {
    && (Says(raw.direction, "inbound") || Says(raw.direction, "in") || Says(raw.direction, "outbound") || Says(raw.direction, "out"))
    && (Says(raw.action, "allow") || Says(raw.action, "block") || Says(raw.action, "deny"))
    && GoodPortText(raw.localPortSpec)
    && (raw.programFilter.Some? ==> Trim(raw.programFilter.value) != "")
    && (raw.serviceFilter.Some? ==> Trim(raw.serviceFilter.value) != "")
    && KnownStore(raw.policyStore)
  }

  predicate KnownStore(text: string) { exists store :: RawStore(text, store) }

  predicate RawDirection(text: string, direction: Direction) {
    if direction == Inbound then Says(text, "inbound") || Says(text, "in") else Says(text, "outbound") || Says(text, "out")
  }

  predicate RawStore(text: string, store: PolicyStore) {
    match store
    case Local => Says(text, "local") || Says(text, "nftables")
    case GroupPolicy => Says(text, "grouppolicy") || Says(text, "gpo")
    case DynamicStore => Says(text, "dynamic")
    case Static => Says(text, "static") || Says(text, "persistentstore")
  }

  // ----- one raw rule -----

  lemma StoreSays(text: string)
    ensures ParseStore(text).Ok? <==> KnownStore(text)
    ensures ParseStore(text).Ok? ==> RawStore(text, ParseStore(text).value)
    ensures ParseStore(text).Err? ==> ParseStore(text).error == UnknownPolicyStore(text)
  {
    hide Says;
    if ParseStore(text).Ok? {
      assert RawStore(text, ParseStore(text).value);
    }
  }

  lemma FieldsAre(raw: RawRule, idOf: string -> nat)
    ensures FieldsOf(raw, idOf).Ok? <==>
      && ParseDirection(raw.direction).Ok? && ParseAction(raw.action).Ok? && ParseSpec(raw.localPortSpec).Ok?
      && ParseFilter(raw.programFilter, "ProcessPath").Ok? && ParseFilter(raw.serviceFilter, "ServiceName").Ok?
      && ParseStore(raw.policyStore).Ok?
    ensures FieldsOf(raw, idOf).Ok? ==>
      var rule := FieldsOf(raw, idOf).value;
      && rule.action == ParseAction(raw.action).value && rule.portSpec == ParseSpec(raw.localPortSpec).value
      && rule.programFilter == ParseFilter(raw.programFilter, "ProcessPath").value
      && rule.serviceFilter == ParseFilter(raw.serviceFilter, "ServiceName").value
  {
    hide ParseDirection, ParseAction, ParseSpec, ParseFilter, ParseStore;
  }

  lemma SpecExactlyWhen(text: Option<string>)
    ensures ParseSpec(text).Ok? <==> GoodPortText(text)
  {
    if text.Some? {
      ParsesExactlyWhen(text.value);
    }
    hide Parse, Items, Trim, GoodItem;
  }

  lemma FieldsExactlyWhen(raw: RawRule, idOf: string -> nat)
    ensures FieldsOf(raw, idOf).Ok? <==> WellFormed(raw)
  {
    FieldsAre(raw, idOf);
    SpecExactlyWhen(raw.localPortSpec);
    StoreSays(raw.policyStore);
    hide FieldsOf, ParseSpec, GoodPortText, ParseStore, KnownStore, Says, Trim;
  }

  lemma SpecMeaning(text: Option<string>, port: nat)
    requires ParseSpec(text).Ok?
    ensures Matches(ParseSpec(text).value, port) <==> RawPort(text, port)
    ensures ParseSpec(text).value.Dynamic? <==> RawDynamic(text)
  {
    hide Parse, Trim, Items, PortSpecLaws.Allows, FromName;
    if text.Some? {
      MatchesWhatTheTextSays(text.value, port);
      DynamicExactlyWhen(text.value);
    }
  }

  lemma DynamicExactlyWhen(text: string)
    requires Parse(text).Ok?
    ensures Parse(text).value.Dynamic? <==> FromName(Trim(text)).Some?
  {
    if ',' in Trim(text) {
      CommaIsNotName(Trim(text));
      ParsedList(text);
      hide Parse, Trim;
    } else {
      ParseFlat(text);
      hide Parse, Trim;
      FlatDynamic(Trim(text), text);
    }
  }

  lemma FlatDynamic(s: string, input: string)
    requires Flat(s, input).Ok?
    ensures Flat(s, input).value.Dynamic? <==> FromName(s).Some?
  {
    if SaysAny(s) {
      AnyIsNoName(s);
    } else if SplitOnce(s, "-").Some? {
      DashSpeaksForRange(s);
      RangeIsNotDynamic(s);
    }
    hide SaysAny, FromName, SplitOnce, ParseU16, Trim;
  }

  lemma RangeIsNotDynamic(s: string)
    requires SplitOnce(s, "-").Some? && ParseItem(s).Ok?
    ensures ParseItem(s).value.Range?
  {
    hide SplitOnce, ParseU16, Trim, Decimal;
  }

  lemma CommaIsNotName(s: string)
    requires ',' in s
    ensures FromName(s).None?
  {
    var k :| 0 <= k < |s| && s[k] == ',';
    var t := Lowered(s);
    assert t[k] == ',' && t[k] in t;
  }

  lemma {:induction false} PerProtocolAre(protocols: seq<Protocol>, rule: FirewallRule)
    ensures forall r :: r in PerProtocol(protocols, rule) <==> r.protocol in protocols && r == rule.(protocol := r.protocol)
  {
    if protocols != [] {
      PerProtocolAre(protocols[1..], rule);
      assert protocols == [protocols[0]] + protocols[1..];
    }
  }

  lemma ProtocolMeaning(text: Option<string>, protocol: Protocol)
    ensures protocol in Protocols(text) <==> RawCovers(text, protocol)
  {
    if text.Some? {
      NotBoth(text.value);
    }
    hide Says;
  }

  lemma NotBoth(text: string)
    ensures !(Says(text, "tcp") && Says(text, "udp")) && !(Says(text, "allow") && (Says(text, "block") || Says(text, "deny")))
  {
    assert Lowered("tcp")[0] == 't' && Lowered("udp")[0] == 'u';
    assert Lowered("allow")[0] == 'a' && Lowered("block")[0] == 'b' && Lowered("deny")[0] == 'd';
  }

  lemma FilterMeaning(raw: RawRule, idOf: string -> nat, endpoint: Endpoint)
    requires FieldsOf(raw, idOf).Ok?
    ensures var rule := FieldsOf(raw, idOf).value;
      && (RawProgram(raw.programFilter, endpoint.processPath)
          <==> (rule.programFilter.Some? ==> ProgramFilterMatches(rule.programFilter.value, endpoint.processPath)))
      && (RawService(raw.serviceFilter, endpoint.hostedServices)
          <==> (rule.serviceFilter.Some? ==> rule.serviceFilter.value in endpoint.hostedServices))
  {
    FieldsAre(raw, idOf);
    hide FieldsOf;
    if raw.programFilter.Some? {
      ProgramFilterMatchesExactlyWhen(Trim(raw.programFilter.value), endpoint.processPath);
    }
    hide Trim, Parse, ParseStore, Says, ProgramFilterMatches, IsSystem;
  }

  lemma FieldsMeaning(raw: RawRule, idOf: string -> nat, endpoint: Endpoint, action: RuleAction)
    requires FieldsOf(raw, idOf).Ok?
    ensures var rule := FieldsOf(raw, idOf).value;
      && (RuleApplies(rule.(protocol := endpoint.protocol), endpoint) <==> RawApplies(raw.(protocol := None), endpoint))
      && (rule.action == action <==> RawAction(raw.action, action))
      && (rule.portSpec.Dynamic? <==> RawDynamic(raw.localPortSpec))
  {
    FieldsAre(raw, idOf);
    hide FieldsOf, ParseSpec, Says, ProgramFilterMatches, RawProgram, RawService, RawPort, RawDynamic, Matches;
    FilterMeaning(raw, idOf, endpoint);
    SpecMeaning(raw.localPortSpec, endpoint.port);
    NotBoth(raw.action);
  }

  lemma CoversApart(raw: RawRule, endpoint: Endpoint)
    ensures RawApplies(raw, endpoint) <==> RawCovers(raw.protocol, endpoint.protocol) && RawApplies(raw.(protocol := None), endpoint)
  {
    hide RawPort, RawProgram, RawService;
  }

  /** The copies of a rule made for some protocols count exactly when the endpoint's protocol is among them
      and the rule made for it counts. */
  lemma CopiesCount(protocols: seq<Protocol>, rule: FirewallRule, endpoint: Endpoint, action: RuleAction, dynamicOnly: bool)
    ensures SomeCounts(PerProtocol(protocols, rule), endpoint, action, dynamicOnly) <==>
      && endpoint.protocol in protocols && RuleApplies(rule.(protocol := endpoint.protocol), endpoint)
      && rule.action == action && (dynamicOnly ==> rule.portSpec.Dynamic?)
  {
    hide Matches, ProgramFilterMatches, PerProtocol;
    PerProtocolAre(protocols, rule);
    var mine := rule.(protocol := endpoint.protocol);
    if endpoint.protocol in protocols {
      assert mine in PerProtocol(protocols, rule);
    }
  }

  /** A raw rule and the rules it compiles to count for the same endpoints, actions and port forms. */
  lemma RuleMeaning(raw: RawRule, idOf: string -> nat, endpoint: Endpoint, action: RuleAction, dynamicOnly: bool)
    requires FirewallRuleFromRaw(raw, idOf).Ok?
    ensures SomeCounts(FirewallRuleFromRaw(raw, idOf).value, endpoint, action, dynamicOnly)
       <==> RawCounts(raw, endpoint, action, dynamicOnly)
  {
    hide FieldsOf, Protocols, RawCovers, RawApplies, RuleApplies, RawAction, RawDynamic, SomeCounts;
    var rule := FieldsOf(raw, idOf).value;
    assert FirewallRuleFromRaw(raw, idOf).value == PerProtocol(Protocols(raw.protocol), rule);
    hide FirewallRuleFromRaw, PerProtocol;
    CopiesCount(Protocols(raw.protocol), rule, endpoint, action, dynamicOnly);
    ProtocolMeaning(raw.protocol, endpoint.protocol);
    CoversApart(raw, endpoint);
    FieldsMeaning(raw, idOf, endpoint, action);
  }

  // ----- the whole list -----

  lemma {:induction false} ListMeaning(raws: seq<RawRule>, idOf: string -> nat, endpoint: Endpoint, action: RuleAction, dynamicOnly: bool)
    requires Compiled(raws, idOf).Ok?
    ensures SomeCounts(Compiled(raws, idOf).value, endpoint, action, dynamicOnly)
       <==> SomeRawCounts(raws, endpoint, action, dynamicOnly)
  {
    hide FirewallRuleFromRaw, RawCounts, RuleApplies;
    if raws != [] {
      ListMeaning(raws[1..], idOf, endpoint, action, dynamicOnly);
      RuleMeaning(raws[0], idOf, endpoint, action, dynamicOnly);
      assert raws == [raws[0]] + raws[1..];
    }
  }

  /** The rule copies everything the raw rule says: its id, name and enablement, the direction, action and store its
      words name, the port spec its text says, and its filters, trimmed. */
  predicate Carries(rule: FirewallRule, raw: RawRule, idOf: string -> nat) {
    && rule.ruleId == idOf(raw.ruleId) && rule.displayName == raw.displayName && rule.enabled == raw.enabled
    && RawDirection(raw.direction, rule.direction) && RawAction(raw.action, rule.action)
    && RawStore(raw.policyStore, rule.policyStore)
    && (raw.localPortSpec.None? ==> rule.portSpec == Any)
    && (raw.localPortSpec.Some? ==> Parse(raw.localPortSpec.value) == Ok(rule.portSpec))
    && (rule.programFilter == if raw.programFilter.None? then None else Some(Trim(raw.programFilter.value)))
    && (rule.serviceFilter == if raw.serviceFilter.None? then None else Some(Trim(raw.serviceFilter.value)))
  }

  lemma FieldsCarry(raw: RawRule, idOf: string -> nat)
    requires FieldsOf(raw, idOf).Ok?
    ensures Carries(FieldsOf(raw, idOf).value, raw, idOf)
  {
    StoreSays(raw.policyStore);
    hide ParseStore, RawStore, Says, Trim, Parse;
  }

  /** A raw rule that names no protocol becomes one rule for TCP and then one for UDP, one that names either becomes
      that one rule, and any other none; all of them carry what it says. */
  lemma RuleCarries(raw: RawRule, idOf: string -> nat)
    requires FirewallRuleFromRaw(raw, idOf).Ok?
    ensures var rules := FirewallRuleFromRaw(raw, idOf).value;
      && (forall r :: r in rules ==> Carries(r, raw, idOf))
      && if raw.protocol.None? then |rules| == 2 && rules[0].protocol == Tcp && rules[1] == rules[0].(protocol := Udp)
         else if Says(raw.protocol.value, "tcp") then |rules| == 1 && rules[0].protocol == Tcp
         else if Says(raw.protocol.value, "udp") then |rules| == 1 && rules[0].protocol == Udp
         else rules == []
  {
    FieldsCarry(raw, idOf);
    hide FieldsOf, Says, Carries, PerProtocol;
    var rule := FieldsOf(raw, idOf).value;
    CopiesFor(rule);
    CopyCarries(rule, Tcp, raw, idOf);
    CopyCarries(rule, Udp, raw, idOf);
  }

  lemma CopiesFor(rule: FirewallRule)
    ensures PerProtocol([Tcp, Udp], rule) == [rule.(protocol := Tcp), rule.(protocol := Udp)]
    ensures PerProtocol([Tcp], rule) == [rule.(protocol := Tcp)] && PerProtocol([Udp], rule) == [rule.(protocol := Udp)]
    ensures PerProtocol([], rule) == []
  {
    assert [Tcp, Udp][1..] == [Udp] && [Udp][1..] == [] && [Tcp][1..] == [];
    assert PerProtocol([Udp], rule) == [rule.(protocol := Udp)];
  }

  lemma CopyCarries(rule: FirewallRule, protocol: Protocol, raw: RawRule, idOf: string -> nat)
    requires Carries(rule, raw, idOf)
    ensures Carries(rule.(protocol := protocol), raw, idOf)
  {
    hide RawDirection, RawAction, RawStore, Parse, Trim;
  }

  predicate SaysDirection(text: string) { exists direction :: RawDirection(text, direction) }

  predicate SaysAction(text: string) { exists action :: RawAction(text, action) }

  /** The error is about the raw rule's first bad field: direction, action, ports, program, service, store. */
  predicate Blamed(raw: RawRule, error: MappingError) {
    match error
    case InvalidDirection(text) => text == raw.direction && !SaysDirection(text)
    case InvalidRuleAction(text) => text == raw.action && !SaysAction(text) && SaysDirection(raw.direction)
    case BadPortSpec(e) =>
      && SaysDirection(raw.direction) && SaysAction(raw.action)
      && raw.localPortSpec.Some? && Parse(raw.localPortSpec.value) == Err(e)
    case EmptyField(field) =>
      && SaysDirection(raw.direction) && SaysAction(raw.action) && GoodPortText(raw.localPortSpec)
      && if raw.programFilter.Some? && Trim(raw.programFilter.value) == "" then field == "ProcessPath"
         else raw.serviceFilter.Some? && Trim(raw.serviceFilter.value) == "" && field == "ServiceName"
    case UnknownPolicyStore(text) =>
      && SaysDirection(raw.direction) && SaysAction(raw.action) && GoodPortText(raw.localPortSpec)
      && (raw.programFilter.Some? ==> Trim(raw.programFilter.value) != "")
      && (raw.serviceFilter.Some? ==> Trim(raw.serviceFilter.value) != "")
      && text == raw.policyStore && !KnownStore(text)
  }

  lemma WordsKnown(raw: RawRule)
    ensures ParseDirection(raw.direction).Ok? <==> SaysDirection(raw.direction)
    ensures ParseDirection(raw.direction).Err? ==> ParseDirection(raw.direction).error == InvalidDirection(raw.direction)
    ensures ParseAction(raw.action).Ok? <==> SaysAction(raw.action)
    ensures ParseAction(raw.action).Err? ==> ParseAction(raw.action).error == InvalidRuleAction(raw.action)
  {
    hide Says;
    assert SaysDirection(raw.direction) <==> RawDirection(raw.direction, Inbound) || RawDirection(raw.direction, Outbound);
    assert SaysAction(raw.action) <==> RawAction(raw.action, Allow) || RawAction(raw.action, Block);
  }

  lemma FieldsBlame(raw: RawRule, idOf: string -> nat)
    requires FieldsOf(raw, idOf).Err?
    ensures Blamed(raw, FieldsOf(raw, idOf).error)
  {
    WordsKnown(raw);
    StoreSays(raw.policyStore);
    SpecExactlyWhen(raw.localPortSpec);
    hide ParseDirection, ParseAction, ParseStore, SaysDirection, SaysAction, KnownStore, GoodPortText, Trim, Parse;
  }

  /** When the mapping fails, it names the first bad field of the first raw rule that is not well formed. */
  lemma {:induction false} MappingErrorBlamesFirst(raws: seq<RawRule>, idOf: string -> nat) returns (k: nat)
    requires Compiled(raws, idOf).Err?
    ensures k < |raws| && !WellFormed(raws[k]) && forall j :: 0 <= j < k ==> WellFormed(raws[j])
    ensures Blamed(raws[k], Compiled(raws, idOf).error)
  {
    hide FieldsOf, WellFormed, Blamed;
    FieldsExactlyWhen(raws[0], idOf);
    if FieldsOf(raws[0], idOf).Err? {
      FieldsBlame(raws[0], idOf);
      k := 0;
    } else {
      k := MappingErrorBlamesFirst(raws[1..], idOf);
      k := k + 1;
    }
  }

  /** Whenever the mapping succeeds, evaluating any endpoint against the compiled rules gives the verdict the
      raw texts state. */
  lemma CompilingPreservesMeaning(raws: seq<RawRule>, idOf: string -> nat, endpoint: Endpoint, profiles: seq<ProfileState>)
    requires Compiled(raws, idOf).Ok?
    ensures Evaluate(endpoint, Compiled(raws, idOf).value, profiles).reachability == RawReachability(endpoint, raws)
  {
    var rules := Compiled(raws, idOf).value;
    VerdictMeans(endpoint, rules, profiles);
    ListMeaning(raws, idOf, endpoint, Block, false);
    ListMeaning(raws, idOf, endpoint, Allow, true);
    ListMeaning(raws, idOf, endpoint, Allow, false);
    hide Evaluate, Compiled, SomeCounts, SomeRawCounts;
  }

  /** The mapping succeeds exactly when every raw rule is well formed; an untracked protocol is no error. */
  lemma {:induction false} MapsExactlyWhen(raws: seq<RawRule>, idOf: string -> nat)
    ensures Compiled(raws, idOf).Ok? <==> forall raw :: raw in raws ==> WellFormed(raw)
  {
    hide WellFormed, FieldsOf;
    if raws != [] {
      MapsExactlyWhen(raws[1..], idOf);
      FieldsExactlyWhen(raws[0], idOf);
      assert raws == [raws[0]] + raws[1..];
    }
  }
}
