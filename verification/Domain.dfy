/** The entities a scan collects. Validated strings (process paths, service names, publishers) are plain strings. */
module Domain {
  import opened Wrappers
  import opened PortSpecs
  import Strategies

  datatype Protocol = Tcp | Udp

  /** An IPv4 or IPv6 address as the number its bits spell. */
  datatype Address = V4(bits: nat) | V6(bits: nat)

  datatype Exposure = Loopback | SpecificInterface | AllInterfaces

  datatype SignatureStatus = Signed(publisher: string) | Unsigned | Unknown | NotApplicable

  datatype Endpoint = Endpoint(
    protocol: Protocol,
    bindAddress: Address,
    port: nat,
    processId: Option<nat>,
    processPath: Option<string>,
    hostedServices: seq<string>,
    signatureStatus: SignatureStatus,
    exposure: Exposure,
    commandLine: Option<string>)

  datatype RuleAction = Allow | Block

  datatype Direction = Inbound | Outbound

  datatype PolicyStore = Local | GroupPolicy | DynamicStore | Static

  datatype FirewallRule = FirewallRule(
    ruleId: nat,
    displayName: string,
    direction: Direction,
    action: RuleAction,
    protocol: Protocol,
    portSpec: PortSpec,
    programFilter: Option<string>,
    serviceFilter: Option<string>,
    enabled: bool,
    policyStore: PolicyStore)

  datatype ProfileKind = DomainProfile | PrivateProfile | PublicProfile

  datatype ProfileState = ProfileState(
    profile: ProfileKind, enabled: bool, defaultInbound: RuleAction, defaultOutbound: RuleAction)

  datatype ScanSnapshot = ScanSnapshot(
    hostId: nat,
    scanId: nat,
    collectedAt: int,
    collectorVersion: string,
    endpoints: seq<Endpoint>,
    firewallRules: seq<FirewallRule>,
    profiles: seq<ProfileState>,
    strategy: Strategies.TargetStrategy)
}
