/** The message shapes of the OpAMP protocol that the client reads and writes. */
module Proto {

  datatype Option<+T> = None | Some(value: T)

  const U64_RANGE: nat := 0x1_0000_0000_0000_0000

  type u64 = n: nat | n < U64_RANGE

  newtype byte = n: int | 0 <= n < 256

  type Bytes = seq<byte>

  /** `x += 1` on an unsigned 64-bit number, in two's complement arithmetic. */
  function Successor(n: u64): u64 {
    (n + 1) % U64_RANGE
  }

  // ----- Agent description -----

  /** A double is kept as its bit pattern. */
  datatype Value =
    | StringValue(text: string)
    | BoolValue(flag: bool)
    | IntValue(number: int)
    | DoubleValue(bits: u64)
    | BytesValue(bytes: Bytes)
    | ArrayValue(elements: seq<AnyValue>)
    | KvlistValue(entries: seq<KeyValue>)

  datatype AnyValue = AnyValue(value: Option<Value>)

  datatype KeyValue = KeyValue(key: string, value: Option<AnyValue>)

  datatype AgentDescription = AgentDescription(
    identifyingAttributes: seq<KeyValue>,
    nonIdentifyingAttributes: seq<KeyValue>)
  {
    predicate HasNoAttributes() {
      identifyingAttributes == [] && nonIdentifyingAttributes == []
    }
  }

  // ----- The rest of an agent's status -----

  datatype ComponentHealth = ComponentHealth(
    healthy: bool,
    startTimeUnixNano: u64,
    lastError: string,
    status: string,
    statusTimeUnixNano: u64,
    componentHealthMap: map<string, ComponentHealth>)

  datatype RemoteConfigStatus = RemoteConfigStatus(
    lastRemoteConfigHash: Bytes,
    status: int,
    errorMessage: string)

  datatype CustomCapabilities = CustomCapabilities(capabilities: seq<string>)

  datatype PackageStatus = PackageStatus(
    name: string,
    agentHasVersion: string,
    agentHasHash: Bytes,
    serverOfferedVersion: string,
    serverOfferedHash: Bytes,
    status: int,
    errorMessage: string)

  datatype PackageStatuses = PackageStatuses(
    packages: map<string, PackageStatus>,
    serverProvidedAllPackagesHash: Bytes,
    errorMessage: string)

  datatype AgentConfigFile = AgentConfigFile(body: Bytes, contentType: string)

  datatype EffectiveConfig = EffectiveConfig(configMap: Option<map<string, AgentConfigFile>>)

  datatype AgentDisconnect = AgentDisconnect

  datatype AgentToServer = AgentToServer(
    instanceUid: Bytes,
    sequenceNum: u64,
    agentDescription: Option<AgentDescription>,
    capabilities: bv64,
    health: Option<ComponentHealth>,
    effectiveConfig: Option<EffectiveConfig>,
    remoteConfigStatus: Option<RemoteConfigStatus>,
    packageStatuses: Option<PackageStatuses>,
    agentDisconnect: Option<AgentDisconnect>,
    customCapabilities: Option<CustomCapabilities>)

  // ----- Server to agent -----

  datatype AgentRemoteConfig = AgentRemoteConfig(
    config: Option<map<string, AgentConfigFile>>,
    configHash: Bytes)

  datatype ConnectionSettings = ConnectionSettings(
    destinationEndpoint: string,
    headers: seq<(string, string)>,
    certificate: Option<Bytes>,
    otherSettings: map<string, string>)

  datatype ConnectionSettingsOffers = ConnectionSettingsOffers(
    ownMetrics: Option<ConnectionSettings>,
    ownTraces: Option<ConnectionSettings>,
    ownLogs: Option<ConnectionSettings>,
    otherConnections: map<string, ConnectionSettings>)

  datatype AgentIdentification = AgentIdentification(newInstanceUid: Bytes)

  datatype CommandType = Restart

  datatype CustomMessage = CustomMessage(capability: string, kind: string, data: Bytes)

  datatype ServerToAgent = ServerToAgent(
    remoteConfig: Option<AgentRemoteConfig>,
    connectionSettings: Option<ConnectionSettingsOffers>,
    flags: bv64,
    agentIdentification: Option<AgentIdentification>,
    command: Option<CommandType>,
    customCapabilities: Option<CustomCapabilities>,
    customMessage: Option<CustomMessage>)

  const REPORT_FULL_STATE: bv64 := 1

  predicate AsksFullState(flags: bv64) {
    flags & REPORT_FULL_STATE != 0
  }

  lemma NumberAndBack(x: bv64)
    ensures (x as int) as bv64 == x
  {
  }

  lemma LowestBit(n: u64)
    ensures (n as bv64) & 1 != 0 <==> n % 2 == 1
  {
  }

  /** Full state is asked for by the flag of value one, whatever the other flags. */
  lemma FullStateIffOdd(flags: bv64)
    ensures AsksFullState(flags) <==> flags as int % 2 == 1
  {
    NumberAndBack(flags);
    LowestBit(flags as int);
  }
}
