/**
 The firewall local-port grammar: parsing, matching and labelling. A port is an unsigned 16-bit number
 other than zero.
 */
module PortSpecs {
  import opened Wrappers
  import opened Text

  datatype Keyword = Rpc | RpcEpMap | IpHttpsIn | Mdns | Teredo | PlayToDiscovery

  datatype PortSpec =
    | Any
    | Single(port: nat)
    | Range(start: nat, end: nat)
    | List(specs: seq<PortSpec>)
    | Dynamic(keyword: Keyword)

  datatype SpecError = MalformedPortSpec(text: string) | InvalidPort(value: nat)

  const LIST_SUMMARY_THRESHOLD := 4

  /** What the types `Port` and `PortRange` admit. */
  predicate Valid(spec: PortSpec) {
    match spec
    case Single(p) => 1 <= p <= 0xFFFF
    case Range(a, b) => 1 <= a <= b <= 0xFFFF
    case List(specs) => forall s :: s in specs ==> Valid(s)
    case Any => true
    case Dynamic(_) => true
  }

  // ----- numbers -----

  predicate Digit(c: char) { '0' <= c <= '9' }

  predicate Digits(s: string) { s != "" && forall c :: c in s ==> Digit(c) }

  function DigitValue(c: char): nat { if Digit(c) then c as int - '0' as int else 0 }

  function DigitChar(n: nat): char { if n < 10 then (n + '0' as int) as char else '0' }

  function Value(s: string): nat {
    if s == "" then 0 else 10 * Value(s[..|s| - 1]) + DigitValue(s[|s| - 1])
  }

  /** `to_string` of an unsigned number. */
  function Decimal(n: nat): (s: string)
    ensures Digits(s) && Value(s) == n
  {
    if n < 10 then [DigitChar(n)] else Decimal(n / 10) + [DigitChar(n % 10)]
  }

  /** `u16::from_str`: digits, with an optional plus sign. */
  function ParseU16(s: string): (r: Option<nat>)
    ensures r.Some? ==> r.value <= 0xFFFF
  {
    var digits := if s != "" && s[0] == '+' then s[1..] else s;
    if Digits(digits) && Value(digits) <= 0xFFFF then Some(Value(digits)) else None
  }

  // ----- the source's functions -----

  function FromName(name: string): Option<Keyword> {
    var s := Lowered(name);
    if s == "rpc" then Some(Rpc)
    else if s == "rpcepmap" then Some(RpcEpMap)
    else if s == "iphttpsin" then Some(IpHttpsIn)
    else if s == "mdns" then Some(Mdns)
    else if s == "teredo" then Some(Teredo)
    else if s == "playtodiscovery" then Some(PlayToDiscovery)
    else None
  }

  function CanonicalName(keyword: Keyword): string {
    match keyword
    case Rpc => "RPC"
    case RpcEpMap => "RPCEPMap"
    case IpHttpsIn => "IPHTTPSIn"
    case Mdns => "mDNS"
    case Teredo => "Teredo"
    case PlayToDiscovery => "PlayToDiscovery"
  }

  function ParseRange(start: string, end: string, original: string): Result<PortSpec, SpecError> {
    match ParseU16(Trim(start))
    case None => Err(MalformedPortSpec(original))
    case Some(a) =>
      match ParseU16(Trim(end))
      case None => Err(MalformedPortSpec(original))
      case Some(b) =>
        if a == 0 || b == 0 || a > b then Err(MalformedPortSpec(Decimal(a) + "-" + Decimal(b)))
        else Ok(Range(a, b))
  }

  function ParseNumber(s: string): Result<PortSpec, SpecError> {
    match ParseU16(s)
    case None => Err(MalformedPortSpec(s))
    case Some(0) => Err(InvalidPort(0))
    case Some(p) => Ok(Single(p))
  }

  /** The branches after the comma test. */
  function ParseItem(s: string): Result<PortSpec, SpecError> {
    match SplitOnce(s, "-")
    case Some(halves) => ParseRange(halves.0, halves.1, s)
    case None =>
      match FromName(s)
      case Some(keyword) => Ok(Dynamic(keyword))
      case None => ParseNumber(s)
  }

  predicate SaysAny(s: string) { s == "*" || SameIgnoringCase(s, "any") }

  function Parse(input: string): Result<PortSpec, SpecError>
    decreases |input|
  {
    var s := Trim(input);
    if s == "" then Err(MalformedPortSpec(input))
    else if SaysAny(s) then Ok(Any)
    else if ',' in s then
      SplitParts(s, ',');
      match ParseAll(Split(s, ','), |input|)
      case Err(e) => Err(e)
      case Ok(specs) => Ok(List(specs))
    else ParseItem(s)
  }

  /** `collect` into a result: the first error wins. `bound` exceeds the length of every part. */
  function ParseAll(parts: seq<string>, bound: nat): (r: Result<seq<PortSpec>, SpecError>)
    requires forall p :: p in parts ==> |p| < bound
    decreases bound, |parts|
  {
    if parts == [] then Ok([])
    else
      match Parse(Trim(parts[0]))
      case Err(e) => Err(e)
      case Ok(first) =>
        match ParseAll(parts[1..], bound)
        case Err(e) => Err(e)
        case Ok(rest) => Ok([first] + rest)
  }

  predicate Matches(spec: PortSpec, port: nat) {
    match spec
    case Single(p) => p == port
    case Range(a, b) => a <= port <= b
    case List(specs) => exists s :: s in specs && Matches(s, port)
    case Any => true
    case Dynamic(_) => true
  }

  function Label(spec: PortSpec): string {
    match spec
    case Any => "any port"
    case Single(p) => Decimal(p)
    case Range(a, b) => Decimal(a) + "-" + Decimal(b)
    case List(specs) =>
      if |specs| > LIST_SUMMARY_THRESHOLD then Decimal(|specs|) + " ports (list)" else Join(Labels(specs), ", ")
    case Dynamic(keyword) => CanonicalName(keyword) + " (dynamic)"
  }

  function Labels(specs: seq<PortSpec>): seq<string> {
    if specs == [] then [] else [Label(specs[0])] + Labels(specs[1..])
  }
}
