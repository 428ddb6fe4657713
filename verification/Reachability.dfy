/** Which traffic reaches an endpoint under a list of firewall rules. */
module Reachabilities {
  import opened Wrappers
  import opened Text
  import opened PortSpecs
  import opened Domain

  datatype Reachability = LocalOnly | Blocked | Allowed | DefaultAction | Indeterminate

  datatype Verdict = Verdict(reachability: Reachability, matchedRules: seq<FirewallRule>)

  // ----- program filters -----

  /** What the expansion of placeholders means. */
  function Expanded(input: string, lookup: string -> Option<string>): string
    decreases |input|
  {
    if input == "" then ""
    else if input[0] != '%' then [input[0]] + Expanded(input[1..], lookup)
    else
      match SplitOnce(input[1..], "%")
      case None => input
      case Some(halves) => Placeholder(halves.0, lookup) + Expanded(halves.1, lookup)
  }

  function Placeholder(name: string, lookup: string -> Option<string>): string {
    if name != "" && lookup(name).Some? then lookup(name).value else "%" + name + "%"
  }

  /** The closure the evaluator passes: no host environment is ever collected. */
  function NoVariables(): string -> Option<string> {
    (name: string) => None
  }

  predicate CompareProgramPaths(filter: string, path: string) {
    if SameIgnoringCase(filter, "System") || SameIgnoringCase(path, "System") then SameIgnoringCase(filter, path)
    else filter == path
  }

  predicate ProgramFilterMatches(filter: string, path: Option<string>) {
    path.Some? && CompareProgramPaths(Expanded(filter, NoVariables()), path.value)
  }

  predicate RuleApplies(rule: FirewallRule, endpoint: Endpoint) {
    && rule.protocol == endpoint.protocol
    && Matches(rule.portSpec, endpoint.port)
    && (rule.programFilter.Some? ==> ProgramFilterMatches(rule.programFilter.value, endpoint.processPath))
    && (rule.serviceFilter.Some? ==> rule.serviceFilter.value in endpoint.hostedServices)
  }

  // ----- the evaluator -----

  function Applicable(rules: seq<FirewallRule>, endpoint: Endpoint): seq<FirewallRule> {
    if rules == [] then []
    else (if RuleApplies(rules[0], endpoint) then [rules[0]] else []) + Applicable(rules[1..], endpoint)
  }

  function FirstBlock(rules: seq<FirewallRule>): (r: Option<FirewallRule>)
    ensures r.Some? <==> exists b :: b in rules && b.action == Block
    ensures r.Some? ==> r.value in rules && r.value.action == Block
  {
    if rules == [] then None else if rules[0].action == Block then Some(rules[0]) else FirstBlock(rules[1..])
  }

  function Allows(rules: seq<FirewallRule>): seq<FirewallRule> {
    if rules == [] then []
    else (if rules[0].action == Allow then [rules[0]] else []) + Allows(rules[1..])
  }

  predicate AnyDynamic(rules: seq<FirewallRule>) {
    exists r :: r in rules && r.portSpec.Dynamic?
  }

  function Evaluate(endpoint: Endpoint, rules: seq<FirewallRule>, profiles: seq<ProfileState>): Verdict {
    if endpoint.exposure == Loopback then Verdict(LocalOnly, [])
    else
      var applicable := Applicable(rules, endpoint);
      var block := FirstBlock(applicable);
      if block.Some? then Verdict(Blocked, [block.value])
      else
        var allows := Allows(applicable);
        if AnyDynamic(allows) then Verdict(Indeterminate, allows)
        else if allows == [] then Verdict(DefaultAction, [])
        else Verdict(Allowed, allows)
  }

  // ----- placeholder expansion, as the source runs it -----

  /** What the end of the inner loop emits. */
  function Piece(name: string, closed: bool, lookup: string -> Option<string>): string {
    if closed then Placeholder(name, lookup) else "%" + name
  }

  lemma OrdinaryStep(input: string, lookup: string -> Option<string>, i: nat, output: string)
    requires i < |input| && input[i] != '%'
    ensures output + Expanded(input[i..], lookup) == output + [input[i]] + Expanded(input[i + 1..], lookup)
  {
    assert input[i..][1..] == input[i + 1..];
  }

  lemma PlaceholderStep(input: string, lookup: string -> Option<string>, at: nat, i: nat, name: string, closed: bool, output: string)
    requires at < i <= |input| && input[at] == '%' && '%' !in name
    requires input[at + 1..i] == name + (if closed then "%" else "")
    requires closed || i == |input|
    ensures output + Expanded(input[at..], lookup) == output + Piece(name, closed, lookup) + Expanded(input[i..], lookup)
  {
    var s := input[at..];
    assert s[1..] == input[at + 1..i] + input[i..];
    if closed {
      SplitOnceAt(name, "%", input[i..]);
    } else {
      SplitOnceNone(name, "%");
      assert s == "%" + name;
    }
  }

  lemma ExpandedEnds(input: string, lookup: string -> Option<string>)
    ensures Expanded(input[|input|..], lookup) == "" && input[0..] == input
  {
  }

  /** The inner loop: the characters up to the closing sign, if there is one. */
  method CollectName(input: string, start: nat) returns (name: string, closed: bool, i: nat)
    requires start <= |input|
    ensures start <= i <= |input| && '%' !in name && (closed || i == |input|)
    ensures input[start..i] == name + (if closed then "%" else "")
  {
    name, closed, i := "", false, start;
    while i < |input| && !closed
      invariant start <= i <= |input| && '%' !in name
      invariant input[start..i] == name + (if closed then "%" else "")
    {
      var next := input[i];
      assert input[start..i + 1] == input[start..i] + [next];
      i := i + 1;
      if next == '%' {
        closed := true;
      } else {
        name := name + [next];
      }
    }
  }

  method ExpandEnvVars(input: string, lookup: string -> Option<string>) returns (output: string)
    ensures output == Expanded(input, lookup)
  {
    hide Expanded;
    ExpandedEnds(input, lookup);
    output := "";
    var i := 0;
    while i < |input|
      invariant 0 <= i <= |input|
      invariant output + Expanded(input[i..], lookup) == Expanded(input, lookup)
    {
      var ch := input[i];
      if ch != '%' {
        OrdinaryStep(input, lookup, i, output);
        output := output + [ch];
        i := i + 1;
      } else {
        var name, closed, next := CollectName(input, i + 1);
        PlaceholderStep(input, lookup, i, next, name, closed, output);
        ghost var was := output;
        if !closed {
          output := output + "%" + name;
        } else if name == "" {
          output := output + "%" + "%";
        } else if lookup(name).Some? {
          output := output + lookup(name).value;
        } else {
          output := output + "%" + name + "%";
        }
        assert output == was + Piece(name, closed, lookup);
        i := next;
      }
    }
  }

  /** With no variables to look up, expansion changes nothing, so filters compare as they are written. */
  lemma {:induction false} ExpansionIsIdentity(input: string)
    ensures Expanded(input, NoVariables()) == input
    decreases |input|
  {
    if input != "" {
      if input[0] != '%' {
        ExpansionIsIdentity(input[1..]);
      } else {
        var halves := SplitOnce(input[1..], "%");
        if halves.Some? {
          ExpansionIsIdentity(halves.value.1);
          assert input == "%" + input[1..];
        }
      }
    }
  }
}
