/** What of a server's message reaches the agent's `on_message` callback. */
module Delivery {
  import opened Proto
  import opened Capabilities

  datatype MessageData = MessageData(
    remoteConfig: Option<AgentRemoteConfig>,
    ownMetrics: Option<ConnectionSettings>,
    ownTraces: Option<ConnectionSettings>,
    ownLogs: Option<ConnectionSettings>,
    otherConnectionSettings: map<string, ConnectionSettings>,
    agentIdentification: Option<AgentIdentification>,
    customCapabilities: Option<CustomCapabilities>,
    customMessage: Option<CustomMessage>)

  function Filter<T>(o: Option<T>, keep: bool): Option<T> {
    if keep then o else None
  }

  function TelemetryConnectionSettings(settings: Option<ConnectionSettingsOffers>, caps: Capabilities)
    : (Option<ConnectionSettings>, Option<ConnectionSettings>, Option<ConnectionSettings>,
       map<string, ConnectionSettings>)
  {
    match settings
    case None => (None, None, None, map[])
    case Some(s) =>
      (Filter(s.ownMetrics, caps.Has(ReportsOwnMetrics)),
       Filter(s.ownTraces, caps.Has(ReportsOwnTraces)),
       Filter(s.ownLogs, caps.Has(ReportsOwnLogs)),
       if caps.Has(AcceptsOtherConnectionSettings) then s.otherConnections else map[])
  }

  /** The new instance uid a message assigns; an empty one is ignored. */
  function NewIdentification(msg: ServerToAgent): Option<AgentIdentification> {
    match msg.agentIdentification
    case Some(id) => Filter(Some(id), id.newInstanceUid != [])
    case None => None
  }

  function Deliver(msg: ServerToAgent, caps: Capabilities, custom: Option<CustomCapabilities>): MessageData {
    var (metrics, traces, logs, other) := TelemetryConnectionSettings(msg.connectionSettings, caps);
    MessageData(
      Filter(msg.remoteConfig, caps.Has(AcceptsRemoteConfig)),
      metrics, traces, logs, other,
      NewIdentification(msg),
      msg.customCapabilities,
      match msg.customMessage
      case Some(m) => Filter(Some(m), custom.Some? && m.capability in custom.value.capabilities)
      case None => None)
  }

  // ----- The offers of a message, one by one, without any gate -----

  /** Absent connection settings offer nothing. */
  function Offered(msg: ServerToAgent): ConnectionSettingsOffers {
    if msg.connectionSettings.Some? then msg.connectionSettings.value
    else ConnectionSettingsOffers(None, None, None, map[])
  }

  ghost predicate PassesIff<T>(delivered: Option<T>, offered: Option<T>, allowed: bool) {
    if allowed then delivered == offered else delivered.None?
  }

  /** Each offer reaches the callback unchanged exactly when the agent listed the
      capability that goes with it; nothing else is altered. */
  lemma DeliveredIffListed(msg: ServerToAgent, caps: seq<AgentCapability>, custom: Option<CustomCapabilities>)
    ensures var d := Deliver(msg, New(caps), custom);
      && PassesIff(d.remoteConfig, msg.remoteConfig, AcceptsRemoteConfig in caps)
      && PassesIff(d.ownMetrics, Offered(msg).ownMetrics, ReportsOwnMetrics in caps)
      && PassesIff(d.ownTraces, Offered(msg).ownTraces, ReportsOwnTraces in caps)
      && PassesIff(d.ownLogs, Offered(msg).ownLogs, ReportsOwnLogs in caps)
      && d.otherConnectionSettings ==
           (if AcceptsOtherConnectionSettings in caps then Offered(msg).otherConnections else map[])
      && d.customCapabilities == msg.customCapabilities
      && PassesIff(d.agentIdentification, msg.agentIdentification,
                   msg.agentIdentification != Some(AgentIdentification([])))
      && (msg.customMessage.Some? ==>
            PassesIff(d.customMessage, msg.customMessage,
                      custom.Some? && msg.customMessage.value.capability in custom.value.capabilities))
      && (msg.customMessage.None? ==> d.customMessage.None?)
  {
    HasIffListed(caps, AcceptsRemoteConfig);
    HasIffListed(caps, ReportsOwnMetrics);
    HasIffListed(caps, ReportsOwnTraces);
    HasIffListed(caps, ReportsOwnLogs);
    HasIffListed(caps, AcceptsOtherConnectionSettings);
  }

  ghost predicate Within<T>(a: Option<T>, b: Option<T>) {
    a.None? || a == b
  }

  ghost predicate DeliversNoMore(a: MessageData, b: MessageData) {
    && Within(a.remoteConfig, b.remoteConfig)
    && Within(a.ownMetrics, b.ownMetrics)
    && Within(a.ownTraces, b.ownTraces)
    && Within(a.ownLogs, b.ownLogs)
    && (a.otherConnectionSettings == map[] || a.otherConnectionSettings == b.otherConnectionSettings)
    && a.agentIdentification == b.agentIdentification
    && a.customCapabilities == b.customCapabilities
    && Within(a.customMessage, b.customMessage)
  }

  /** More capabilities never lose an offer, and two lists with the same members
      deliver the same. */
  lemma DeliveryIsMonotone(msg: ServerToAgent, few: seq<AgentCapability>, many: seq<AgentCapability>,
                           fewCustom: Option<CustomCapabilities>, manyCustom: Option<CustomCapabilities>)
    requires forall c :: c in few ==> c in many
    requires fewCustom.Some? ==> manyCustom.Some?
    requires fewCustom.Some? ==>
               forall c :: c in fewCustom.value.capabilities ==> c in manyCustom.value.capabilities
    ensures DeliversNoMore(Deliver(msg, New(few), fewCustom), Deliver(msg, New(many), manyCustom))
  {
    DeliveredIffListed(msg, few, fewCustom);
    DeliveredIffListed(msg, many, manyCustom);
  }
}
