/**
 Compiling the raw firewall rules a collector reports into the rules the evaluator reads. `idOf` stands
 for parsing or synthesizing a rule identifier.
 */
module FirewallMapping {
  import opened Wrappers
  import opened Text
  import opened PortSpecs
  import opened Domain

  datatype RawRule = RawRule(
    ruleId: string,
    displayName: string,
    direction: string,
    action: string,
    protocol: Option<string>,
    localPortSpec: Option<string>,
    programFilter: Option<string>,
    serviceFilter: Option<string>,
    enabled: bool,
    policyStore: string)

  datatype MappingError =
    | InvalidDirection(text: string)
    | InvalidRuleAction(text: string)
    | BadPortSpec(error: SpecError)
    | EmptyField(field: string)
    | UnknownPolicyStore(text: string)

  /** The text, trimmed, is one of the words, whatever its case. */
  predicate Says(text: string, word: string) { SameIgnoringCase(Trim(text), word) }

  function ParseDirection(text: string): Result<Direction, MappingError> {
    if Says(text, "inbound") || Says(text, "in") then Ok(Inbound)
    else if Says(text, "outbound") || Says(text, "out") then Ok(Outbound)
    else Err(InvalidDirection(text))
  }

  function ParseAction(text: string): Result<RuleAction, MappingError> {
    if Says(text, "allow") then Ok(Allow)
    else if Says(text, "block") || Says(text, "deny") then Ok(Block)
    else Err(InvalidRuleAction(text))
  }

  function ParseSpec(text: Option<string>): Result<PortSpec, MappingError> {
    if text.None? then Ok(Any)
    else match Parse(text.value)
      case Ok(spec) => Ok(spec)
      case Err(e) => Err(BadPortSpec(e))
  }

  function ParseFilter(text: Option<string>, field: string): Result<Option<string>, MappingError> {
    if text.None? then Ok(None)
    else if Trim(text.value) == "" then Err(EmptyField(field))
    else Ok(Some(Trim(text.value)))
  }

  function ParseStore(text: string): Result<PolicyStore, MappingError> {
    if Says(text, "local") || Says(text, "nftables") then Ok(Local)
    else if Says(text, "grouppolicy") || Says(text, "gpo") then Ok(GroupPolicy)
    else if Says(text, "dynamic") then Ok(DynamicStore)
    else if Says(text, "static") || Says(text, "persistentstore") then Ok(Static)
    else Err(UnknownPolicyStore(text))
  }

  function ParseProtocol(text: string): Option<Protocol> {
    if Says(text, "tcp") then Some(Tcp) else if Says(text, "udp") then Some(Udp) else None
  }

  /** One rule per protocol: both when none is named, none when the one named is not tracked. */
  function Protocols(text: Option<string>): seq<Protocol> {
    if text.None? then [Tcp, Udp]
    else match ParseProtocol(text.value)
      case Some(protocol) => [protocol]
      case None => []
  }

  function PerProtocol(protocols: seq<Protocol>, rule: FirewallRule): seq<FirewallRule> {
    if protocols == [] then [] else [rule.(protocol := protocols[0])] + PerProtocol(protocols[1..], rule)
  }

  /** The rule as its fields say, with the protocol still to be filled in. */
  function FieldsOf(raw: RawRule, idOf: string -> nat): Result<FirewallRule, MappingError> {
    var direction :- ParseDirection(raw.direction);
    var action :- ParseAction(raw.action);
    var portSpec :- ParseSpec(raw.localPortSpec);
    var program :- ParseFilter(raw.programFilter, "ProcessPath");
    var service :- ParseFilter(raw.serviceFilter, "ServiceName");
    var store :- ParseStore(raw.policyStore);
    Ok(FirewallRule(idOf(raw.ruleId), raw.displayName, direction, action, Tcp, portSpec, program, service, raw.enabled, store))
  }

  function FirewallRuleFromRaw(raw: RawRule, idOf: string -> nat): Result<seq<FirewallRule>, MappingError> {
    var rule :- FieldsOf(raw, idOf);
    Ok(PerProtocol(Protocols(raw.protocol), rule))
  }

  /** What the whole mapping computes: the rules of each raw rule in order, or the first error. */
  function Compiled(raws: seq<RawRule>, idOf: string -> nat): Result<seq<FirewallRule>, MappingError> {
    if raws == [] then Ok([])
    else
      var first :- FirewallRuleFromRaw(raws[0], idOf);
      var rest :- Compiled(raws[1..], idOf);
      Ok(first + rest)
  }

  function Prefixed(rules: seq<FirewallRule>, rest: Result<seq<FirewallRule>, MappingError>): Result<seq<FirewallRule>, MappingError> {
    if rest.Err? then rest else Ok(rules + rest.value)
  }

  lemma CompiledStep(raws: seq<RawRule>, idOf: string -> nat, k: nat, rules: seq<FirewallRule>)
    requires k < |raws|
    ensures var first := FirewallRuleFromRaw(raws[k], idOf);
      Prefixed(rules, Compiled(raws[k..], idOf))
      == if first.Err? then Err(first.error) else Prefixed(rules + first.value, Compiled(raws[k + 1..], idOf))
  {
    hide FirewallRuleFromRaw;
    assert raws[k..][1..] == raws[k + 1..];
    var first, rest := FirewallRuleFromRaw(raws[k], idOf), Compiled(raws[k + 1..], idOf);
    if first.Ok? && rest.Ok? {
      assert rules + (first.value + rest.value) == (rules + first.value) + rest.value;
    }
  }

  lemma CompiledEnds(raws: seq<RawRule>, idOf: string -> nat, rules: seq<FirewallRule>)
    ensures Compiled(raws, idOf) == Prefixed([], Compiled(raws[0..], idOf))
    ensures Prefixed(rules, Compiled(raws[|raws|..], idOf)) == Ok(rules)
  {
    assert raws[0..] == raws && rules + [] == rules;
    if Compiled(raws, idOf).Ok? {
      assert [] + Compiled(raws, idOf).value == Compiled(raws, idOf).value;
    }
    hide FirewallRuleFromRaw;
  }

  /** The loop: a vector extended rule by rule, left at the first error. */
  method FirewallRulesFromRaw(raws: seq<RawRule>, idOf: string -> nat) returns (r: Result<seq<FirewallRule>, MappingError>)
    ensures r == Compiled(raws, idOf)
  {
    hide *;
    var rules := [];
    var k := 0;
    CompiledEnds(raws, idOf, []);
    while k < |raws|
      invariant 0 <= k <= |raws|
      invariant Compiled(raws, idOf) == Prefixed(rules, Compiled(raws[k..], idOf))
    {
      CompiledStep(raws, idOf, k, rules);
      var more := FirewallRuleFromRaw(raws[k], idOf);
      if more.Err? {
        return Err(more.error);
      }
      rules := rules + more.value;
      k := k + 1;
    }
    CompiledEnds(raws, idOf, rules);
    return Ok(rules);
  }
}
