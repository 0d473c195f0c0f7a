/** The stored resources, their validators and the documented defaults. */
module Model {
  import opened Outcome

  // Wall-clock readings are parameters of the operations; 0 is the zero time.
  type Time = int

  // ---------------------------------------------------------------- names

  predicate LowerOrDigit(c: char) {
    'a' <= c <= 'z' || '0' <= c <= '9'
  }

  predicate Letter(c: char) {
    'a' <= c <= 'z' || 'A' <= c <= 'Z'
  }

  predicate TokenChar(c: char) {
    Letter(c) || LowerOrDigit(c) || c == '.' || c == '_' || c == '-'
  }

  /** Namespace and service names share one pattern. */
  predicate ValidName(s: string) {
    && 3 <= |s| <= 64
    && LowerOrDigit(s[0]) && LowerOrDigit(s[|s| - 1])
    && forall i :: 0 <= i < |s| ==> LowerOrDigit(s[i]) || s[i] == '-'
  }

  predicate ValidInstanceID(s: string) {
    1 <= |s| <= 128 && forall i :: 0 <= i < |s| ==> TokenChar(s[i])
  }

  predicate ValidConfigKey(s: string) {
    1 <= |s| <= 128 &&
    forall i :: 0 <= i < |s| ==> LowerOrDigit(s[i]) || s[i] == '.' || s[i] == '_' || s[i] == '-'
  }

  predicate ValidCapability(s: string) {
    1 <= |s| <= 128 && forall i :: 0 <= i < |s| ==> LowerOrDigit(s[i]) || s[i] == '.' || s[i] == '-'
  }

  predicate ValidProtocol(s: string) {
    1 <= |s| <= 32 &&
    forall i :: 0 <= i < |s| ==> LowerOrDigit(s[i]) || s[i] == '.' || s[i] == '_' || s[i] == '-'
  }

  predicate ValidAddress(s: string) {
    1 <= |s| <= 253 &&
    forall i :: 0 <= i < |s| ==> Letter(s[i]) || LowerOrDigit(s[i]) || s[i] == '.' || s[i] == '-'
  }

  predicate ValidMetadata(m: map<string, string>) {
    forall k :: k in m ==>
      && 1 <= |k| <= 128
      && (forall i :: 0 <= i < |k| ==> TokenChar(k[i]))
      && (forall i :: 0 <= i < |m[k]| ==> m[k][i] != '\0')
  }

  // ------------------------------------------------------------- namespace

  datatype AccessMode = ReadWrite | ReadOnly | WriteOnly | NoReadNoWrite | OtherMode(text: string) {
    predicate Valid() {
      !OtherMode?
    }

    predicate AllowsRead() {
      ReadWrite? || ReadOnly?
    }

    predicate AllowsWrite() {
      ReadWrite? || WriteOnly?
    }
  }

  datatype Namespace = Namespace(name: string, mode: AccessMode, createdAt: Time, updatedAt: Time, revision: int) {
    predicate Valid() {
      ValidName(name) && mode.Valid()
    }
  }

  // -------------------------------------------------------------- instance

  datatype CheckMode = UnsetCheck | Heartbeat | HTTPProbe | GRPCProbe | TCPProbe | OtherCheck(text: string) {
    predicate Valid() {
      Heartbeat? || IsProbe()
    }

    predicate IsProbe() {
      HTTPProbe? || GRPCProbe? || TCPProbe?
    }
  }

  datatype Status = UnsetStatus | Health | Unhealth | OtherStatus(text: string) {
    predicate Valid() {
      Health? || Unhealth?
    }
  }

  datatype ProbeConfig = ProbeConfig(address: string, port: int, path: string)

  const DEFAULT_GROUP := "default"
  const DEFAULT_WEIGHT := 100
  const HTTP_PROBE_PATH := "/etcdisc/http/health"
  const GRPC_PROBE_PATH := "/etcdisc/grpc/health"

  /** A registered runtime instance; `metadata` is None where the source holds a nil map. */
  datatype Instance = Instance(
    namespace: string,
    service: string,
    group: string,
    version: string,
    weight: int,
    instanceID: string,
    agentID: string,
    address: string,
    port: int,
    metadata: Option<map<string, string>>,
    check: CheckMode,
    probe: ProbeConfig,
    status: Status,
    leaseID: int,
    failures: int,
    successes: int,
    lastHeartbeatAt: Time,
    lastProbeAt: Time,
    createdAt: Time,
    updatedAt: Time,
    statusUpdatedAt: Time,
    revision: int)
  {
    function Meta(): map<string, string> {
      if metadata.Some? then metadata.value else map[]
    }

    predicate Valid() {
      && ValidName(namespace)
      && ValidName(service)
      && (instanceID != "" ==> ValidInstanceID(instanceID))
      && ValidAddress(address)
      && 1 <= port <= 65535
      && 1 <= weight <= 10000
      && ValidMetadata(Meta())
      && check.Valid()
      && status.Valid()
      && 0 <= probe.port <= 65535
      && (probe.address == "" ==> check.Heartbeat?)
    }
  }

  function NormalProbe(i: Instance, check: CheckMode): ProbeConfig {
    ProbeConfig(
      if i.probe.address == "" then i.address else i.probe.address,
      if i.probe.port == 0 then i.port else i.probe.port,
      if check.HTTPProbe? && i.probe.path == "" then HTTP_PROBE_PATH
      else if check.GRPCProbe? && i.probe.path == "" then GRPC_PROBE_PATH
      else if check.TCPProbe? then ""
      else i.probe.path)
  }

  /** Fills the omitted fields with their documented defaults. */
  function Normalize(i: Instance): Instance {
    var check := if i.check.UnsetCheck? then Heartbeat else i.check;
    i.(group := if i.group == "" then DEFAULT_GROUP else i.group,
       weight := if i.weight == 0 then DEFAULT_WEIGHT else i.weight,
       check := check,
       metadata := Some(i.Meta()),
       status := if i.status.UnsetStatus? then Health else i.status,
       probe := NormalProbe(i, check))
  }

  /** The probe settings are filled last, from the address, port and check mode. */
  method FillProbeDefaults(i: Instance, check: CheckMode) returns (probe: ProbeConfig)
    ensures probe == NormalProbe(i, check)
  {
    probe := i.probe;
    if probe.address == "" {
      probe := probe.(address := i.address);
    }
    if probe.port == 0 {
      probe := probe.(port := i.port);
    }
    if check.HTTPProbe? && probe.path == "" {
      probe := probe.(path := HTTP_PROBE_PATH);
    }
    if check.GRPCProbe? && probe.path == "" {
      probe := probe.(path := GRPC_PROBE_PATH);
    }
    if check.TCPProbe? {
      probe := probe.(path := "");
    }
  }

  /** The fields a caller sent are kept, and each omitted one has its documented default. */
  predicate FilledIn(i: Instance, input: Instance) {
    && i.namespace == input.namespace && i.service == input.service
    && i.address == input.address && i.port == input.port
    && i.version == input.version && i.agentID == input.agentID
    && i.group == (if input.group == "" then "default" else input.group)
    && i.weight == (if input.weight == 0 then 100 else input.weight)
    && i.metadata == (if input.metadata.None? then Some(map[]) else input.metadata)
    && i.check == (if input.check == UnsetCheck then Heartbeat else input.check)
    && i.status == (if input.status == UnsetStatus then Health else input.status)
    && i.probe.address == (if input.probe.address == "" then input.address else input.probe.address)
    && i.probe.port == (if input.probe.port == 0 then input.port else input.probe.port)
    && i.failures == input.failures && i.successes == input.successes && i.lastProbeAt == input.lastProbeAt
  }

  predicate ProbePathFilledIn(i: Instance, input: Instance) {
    i.probe.path ==
    match input.check
    case TCPProbe => ""
    case HTTPProbe => if input.probe.path == "" then "/etcdisc/http/health" else input.probe.path
    case GRPCProbe => if input.probe.path == "" then "/etcdisc/grpc/health" else input.probe.path
    case _ => input.probe.path
  }

  /** The omitted fields, filled in one after the other. */
  method FillDefaults(input: Instance) returns (i: Instance)
    ensures i == Normalize(input)
    ensures FilledIn(i, input) && ProbePathFilledIn(i, input)
    ensures i.instanceID == input.instanceID && i.leaseID == input.leaseID
  {
    var group, weight, check, metadata, status := input.group, input.weight, input.check, input.metadata, input.status;
    if group == "" {
      group := DEFAULT_GROUP;
    }
    if weight == 0 {
      weight := DEFAULT_WEIGHT;
    }
    if check.UnsetCheck? {
      check := Heartbeat;
    }
    if metadata.None? {
      metadata := Some(map[]);
    }
    if status.UnsetStatus? {
      status := Health;
    }
    var probe := FillProbeDefaults(input, check);
    i := input.(group := group, weight := weight, check := check, metadata := metadata, status := status, probe := probe);
  }

  lemma NormalizeIsIdempotent(i: Instance)
    ensures Normalize(Normalize(i)) == Normalize(i)
  {
    assert |HTTP_PROBE_PATH| > 0 && |GRPC_PROBE_PATH| > 0 && |DEFAULT_GROUP| > 0;
  }

  /** What a reader can rely on besides the revision and lease the store attaches. */
  function Strip(i: Instance): Instance {
    i.(revision := 0, leaseID := 0)
  }

  // ---------------------------------------------------------------- config

  datatype Scope = GlobalScope | NamespaceScope | ServiceScope | OtherScope(text: string)

  datatype ValueType = StringValue | IntValue | BoolValue | DurationValue | JSONValue | OtherValue(text: string)

  /**
   * `wellTyped` is the verdict of the integer, boolean and JSON parsers on `value`;
   * those parsers belong to the language's libraries and are not part of this model.
   */
  datatype ConfigItem = ConfigItem(
    namespace: string,
    service: string,
    scope: Scope,
    key: string,
    value: string,
    valueType: ValueType,
    wellTyped: bool,
    createdAt: Time,
    updatedAt: Time,
    revision: int)
  {
    predicate Valid() {
      && ValidConfigKey(key)
      && !scope.OtherScope?
      && (!scope.GlobalScope? ==> ValidName(namespace))
      && (scope.ServiceScope? ==> ValidName(service))
      && !valueType.OtherValue?
      && (valueType.StringValue? || wellTyped)
    }
  }

  datatype EffectiveItem = EffectiveItem(key: string, value: string, valueType: ValueType, scope: Scope)

  // ------------------------------------------------------------ agent cards

  datatype AuthMode = NoAuth | StaticToken | MTLS | OtherAuth(text: string)

  datatype AgentCard = AgentCard(
    namespace: string,
    agentID: string,
    service: string,
    capabilities: seq<string>,
    protocols: seq<string>,
    authMode: AuthMode,
    metadata: map<string, string>,
    createdAt: Time,
    updatedAt: Time,
    revision: int)
  {
    predicate Valid() {
      && ValidName(namespace)
      && ValidName(service)
      && ValidInstanceID(agentID)
      && |capabilities| > 0
      && (forall c :: c in capabilities ==> ValidCapability(c))
      && |protocols| > 0
      && (forall p :: p in protocols ==> ValidProtocol(p))
      && !authMode.OtherAuth?
      && ValidMetadata(metadata)
    }
  }

  datatype CapabilityEntry = CapabilityEntry(agentID: string, service: string)

  datatype DiscoveryResult = DiscoveryResult(
    namespace: string,
    agentID: string,
    service: string,
    address: string,
    port: int,
    protocols: seq<string>,
    authMode: AuthMode,
    metadata: map<string, string>,
    status: Status)

  // ---------------------------------------------------------- stored values

  /** The documents the services keep in the store; decoding checks the constructor. */
  datatype Value =
    | NamespaceV(namespace: Namespace)
    | InstanceV(instance: Instance)
    | ConfigV(config: ConfigItem)
    | CardV(card: AgentCard)
    | EntryV(entry: CapabilityEntry)
}
