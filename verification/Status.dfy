/** The agent's status as the client keeps it, and what each call does to it.
    The client holds two copies: the synced state, with everything last set, and
    the next message, with what changed since the last message was taken. */
module Status {
  import opened Proto
  import opened Capabilities
  import opened Delivery
  import opened Health
  import opened Settings

  datatype Data = Data(
    agentDescription: Option<AgentDescription>,
    customCapabilities: Option<CustomCapabilities>,
    health: Option<ComponentHealth>,
    remoteConfigStatus: Option<RemoteConfigStatus>,
    packageStatuses: Option<PackageStatuses>)

  const NO_DATA := Data(None, None, None, None, None)

  datatype ClientError =
    | UnsetHealthCapability
    | UnsetEffectConfigCapability
    | UnsetRemoteConfigStatusCapability
    | EffectiveConfigError
    | AgentDescriptionNoAttributes

  datatype Reply = Ok | Err(error: ClientError)

  /** The calls that change the status. `fetched` is what the agent's
      `get_effective_config` callback answers, `None` for an error. */
  datatype Setter =
    | SetAgentDescription(description: AgentDescription)
    | SetHealth(health: ComponentHealth)
    | UpdateEffectiveConfig(fetched: Option<EffectiveConfig>)
    | SetRemoteConfigStatus(status: RemoteConfigStatus)
    | SetCustomCapabilities(customCapabilities: CustomCapabilities)

  const CAPACITY := 1

  /** A bounded channel of notifications; `connected` while its receiver lives. */
  datatype Mailbox = Mailbox(tokens: nat, connected: bool) {
    function TrySend(): Mailbox {
      if connected && tokens < CAPACITY then this.(tokens := tokens + 1) else this
    }
  }

  datatype Client = Client(synced: Data, next: AgentToServer, mailbox: Mailbox, capabilities: Capabilities)

  // ----- The pieces of one call, in the order in which they run -----

  function Refusal(caps: Capabilities, c: Setter): Option<ClientError> {
    match c
    case SetHealth(_) =>
      if caps.Has(ReportsHealth) then None else Some(UnsetHealthCapability)
    case UpdateEffectiveConfig(fetched) =>
      if !caps.Has(ReportsEffectiveConfig) then Some(UnsetEffectConfigCapability)
      else if fetched.None? then Some(EffectiveConfigError)
      else None
    case SetRemoteConfigStatus(_) =>
      if caps.Has(ReportsRemoteConfig) then None else Some(UnsetRemoteConfigStatusCapability)
    case _ => None
  }

  predicate Unchanged(synced: Data, c: Setter) {
    match c
    case SetAgentDescription(d) => synced.agentDescription == Some(d)
    case SetHealth(h) => synced.health.Some? && IsSameAs(synced.health.value, h)
    case UpdateEffectiveConfig(_) => false
    case SetRemoteConfigStatus(s) => synced.remoteConfigStatus == Some(s)
    case SetCustomCapabilities(c) => synced.customCapabilities == Some(c)
  }

  predicate Malformed(c: Setter) {
    c.SetAgentDescription? && c.description.HasNoAttributes()
  }

  function Store(synced: Data, c: Setter): Data {
    match c
    case SetAgentDescription(d) => synced.(agentDescription := Some(d))
    case SetHealth(h) => synced.(health := Some(h))
    case UpdateEffectiveConfig(_) => synced
    case SetRemoteConfigStatus(s) => synced.(remoteConfigStatus := Some(s))
    case SetCustomCapabilities(c) => synced.(customCapabilities := Some(c))
  }

  function Put(next: AgentToServer, c: Setter): AgentToServer {
    match c
    case SetAgentDescription(d) => next.(agentDescription := Some(d))
    case SetHealth(h) => next.(health := Some(h))
    case UpdateEffectiveConfig(f) => next.(effectiveConfig := f)
    case SetRemoteConfigStatus(s) => next.(remoteConfigStatus := Some(s))
    case SetCustomCapabilities(c) => next.(customCapabilities := Some(c))
  }

  predicate Accepted(s: Client, c: Setter) {
    Refusal(s.capabilities, c).None? && !Unchanged(s.synced, c) && !Malformed(c)
  }

  /** A whole call, with nothing happening in between. */
  function Call(s: Client, c: Setter): Client {
    if Accepted(s, c)
    then s.(synced := Store(s.synced, c), next := Put(s.next, c), mailbox := s.mailbox.TrySend())
    else s
  }

  function ReplyTo(s: Client, c: Setter): Reply {
    if Refusal(s.capabilities, c).Some? then Err(Refusal(s.capabilities, c).value)
    else if !Unchanged(s.synced, c) && Malformed(c) then Err(AgentDescriptionNoAttributes)
    else Ok
  }

  function CallAll(s: Client, calls: seq<Setter>): Client
    decreases |calls|
  {
    if calls == [] then s else Call(CallAll(s, calls[..|calls| - 1]), calls[|calls| - 1])
  }

  // ----- Taking a message, and answering a response -----

  /** The message as it is handed out: numbered. */
  function Stamp(next: AgentToServer): AgentToServer {
    next.(sequenceNum := Successor(next.sequenceNum))
  }

  /** What stays behind: the number, the identity and the capabilities. */
  function Reset(next: AgentToServer): AgentToServer {
    next.(agentDescription := None, health := None, effectiveConfig := None,
          remoteConfigStatus := None, packageStatuses := None, customCapabilities := None)
  }

  function AfterPop(s: Client): Client {
    s.(next := Reset(Stamp(s.next)))
  }

  predicate ObeysCommand(caps: Capabilities, resp: ServerToAgent) {
    resp.command.Some? && caps.Has(AcceptsRestartCommand)
  }

  function Identify(next: AgentToServer, resp: ServerToAgent): AgentToServer {
    match NewIdentification(resp)
    case Some(id) => next.(instanceUid := id.newInstanceUid)
    case None => next
  }

  function Refill(next: AgentToServer, full: Data, config: Option<EffectiveConfig>): AgentToServer {
    next.(agentDescription := full.agentDescription,
          customCapabilities := full.customCapabilities,
          health := full.health,
          remoteConfigStatus := full.remoteConfigStatus,
          packageStatuses := full.packageStatuses,
          effectiveConfig := config)
  }

  predicate Refills(s: Client, resp: ServerToAgent) {
    AsksFullState(resp.flags) && !ObeysCommand(s.capabilities, resp)
  }

  /** Processing a response: `calls` are the setter calls that the agent's
      callback makes, `config` its answer when asked for the effective config. */
  function Process(s: Client, resp: ServerToAgent, calls: seq<Setter>, config: Option<EffectiveConfig>): Client {
    if ObeysCommand(s.capabilities, resp) then CallAll(s, calls)
    else
      var called := CallAll(s.(next := Identify(s.next, resp)), calls);
      if AsksFullState(resp.flags) then called.(next := Refill(called.next, called.synced, config)) else called
  }

  /** Processing, followed by the notification that a refill asks for. */
  function Receive(s: Client, resp: ServerToAgent, calls: seq<Setter>, config: Option<EffectiveConfig>): Client {
    var processed := Process(s, resp, calls, config);
    if Refills(s, resp) then processed.(mailbox := processed.mailbox.TrySend()) else processed
  }

  function InitialData(settings: StartSettings): Data {
    NO_DATA.(
      agentDescription :=
        if settings.agentDescription.IsEmpty() then None else Some(settings.agentDescription.ToProto()),
      customCapabilities := settings.customCapabilities)
  }

  function InitialMessage(settings: StartSettings): AgentToServer {
    AgentToServer(
      settings.instanceUid, 0, Some(settings.agentDescription.ToProto()), settings.capabilities.ToU64(),
      None, None, None, None, None, settings.customCapabilities)
  }

  function Start(settings: StartSettings): Client {
    Client(InitialData(settings), InitialMessage(settings), Mailbox(0, true), settings.capabilities)
  }

  // ----- The coupling of the two copies -----

  ghost predicate Follows<T>(next: Option<T>, synced: Option<T>) {
    next.None? || next == synced
  }

  /** A start without attributes: nothing is stored, yet the first message says so. */
  ghost predicate EmptyStart(next: Option<AgentDescription>, synced: Option<AgentDescription>) {
    synced.None? && next.Some? && next.value.HasNoAttributes()
  }

  /** Whatever waits in the next message is what was last set. */
  ghost predicate Coupled(next: AgentToServer, synced: Data) {
    && (Follows(next.agentDescription, synced.agentDescription)
        || EmptyStart(next.agentDescription, synced.agentDescription))
    && Follows(next.customCapabilities, synced.customCapabilities)
    && Follows(next.health, synced.health)
    && Follows(next.remoteConfigStatus, synced.remoteConfigStatus)
    && Follows(next.packageStatuses, synced.packageStatuses)
  }

  ghost predicate Valid(s: Client) {
    && Coupled(s.next, s.synced)
    && (s.synced.agentDescription.Some? ==> !s.synced.agentDescription.value.HasNoAttributes())
    && s.mailbox.tokens <= CAPACITY
    && s.next.agentDisconnect.None?
  }

  lemma StartIsValid(settings: StartSettings)
    ensures Valid(Start(settings))
  {
    EmptyIffNoAttributes(settings.agentDescription);
  }

  /** What no setter may touch. */
  ghost predicate SameFrame(s: Client, t: Client) {
    && t.capabilities == s.capabilities
    && t.next.sequenceNum == s.next.sequenceNum
    && t.next.instanceUid == s.next.instanceUid
    && t.next.capabilities == s.next.capabilities
    && t.mailbox.connected == s.mailbox.connected
  }

  lemma CallKeepsCoupling(s: Client, c: Setter)
    requires Valid(s)
    ensures Valid(Call(s, c)) && SameFrame(s, Call(s, c))
  {
  }

  /** Every call, with every outcome, keeps the copies coupled and leaves the
      message's number and identity alone. */
  lemma {:induction false} CallsKeepCoupling(s: Client, calls: seq<Setter>)
    requires Valid(s)
    ensures Valid(CallAll(s, calls)) && SameFrame(s, CallAll(s, calls))
    decreases |calls|
  {
    if calls != [] {
      CallsKeepCoupling(s, calls[..|calls| - 1]);
      CallKeepsCoupling(CallAll(s, calls[..|calls| - 1]), calls[|calls| - 1]);
    }
  }

  /** What is stored does not depend on what waits to be sent. */
  lemma {:induction false} SyncedIgnoresNext(s: Client, t: Client, calls: seq<Setter>)
    requires s.synced == t.synced && s.capabilities == t.capabilities
    ensures CallAll(s, calls).synced == CallAll(t, calls).synced
    ensures CallAll(s, calls).capabilities == CallAll(t, calls).capabilities
    decreases |calls|
  {
    if calls != [] {
      SyncedIgnoresNext(s, t, calls[..|calls| - 1]);
    }
  }

  /** The message holds the whole synced state. */
  ghost predicate Full(next: AgentToServer, synced: Data) {
    && next.agentDescription == synced.agentDescription
    && next.customCapabilities == synced.customCapabilities
    && next.health == synced.health
    && next.remoteConfigStatus == synced.remoteConfigStatus
    && next.packageStatuses == synced.packageStatuses
  }

  lemma RefillIsFull(s: Client, config: Option<EffectiveConfig>)
    requires Valid(s)
    ensures var t := s.(next := Refill(s.next, s.synced, config), mailbox := s.mailbox.TrySend());
      Valid(t) && SameFrame(s, t) && Full(t.next, t.synced) && t.next.effectiveConfig == config
  {
  }

  /** Processing a response keeps the copies coupled, whatever the callback sets.
      A refill happens after the callback, so it holds the values set there: the
      state it reports is the state after all of the callback's calls. */
  lemma {:induction false} ReceiveKeepsCoupling(s: Client, resp: ServerToAgent, calls: seq<Setter>,
                                                config: Option<EffectiveConfig>)
    requires Valid(s)
    ensures var t := Receive(s, resp, calls, config);
      && Valid(t)
      && t.capabilities == s.capabilities
      && t.mailbox.connected == s.mailbox.connected
      && t.next.sequenceNum == s.next.sequenceNum
      && t.next.capabilities == s.next.capabilities
      && t.synced == CallAll(s, calls).synced
      && (Refills(s, resp) ==>
            && Full(t.next, t.synced) && t.next.effectiveConfig == config
            && (s.mailbox.connected ==> t.mailbox.tokens == 1))
  {
    var u := if ObeysCommand(s.capabilities, resp) then s else s.(next := Identify(s.next, resp));
    CallsKeepCoupling(u, calls);
    SyncedIgnoresNext(s, u, calls);
    RefillIsFull(CallAll(u, calls), config);
  }

  lemma {:induction false} CallsKeepPendingConfig(s: Client, calls: seq<Setter>)
    requires s.next.effectiveConfig.Some?
    ensures CallAll(s, calls).next.effectiveConfig.Some?
    decreases |calls|
  {
    if calls != [] {
      CallsKeepPendingConfig(s, calls[..|calls| - 1]);
      match calls[|calls| - 1] { case _ => }
    }
  }

  /** The effective config is not part of the synced state, so a refill replaces a
      waiting one by whatever the callback answers: it is lost exactly when full
      state is reported while the callback fails. */
  lemma PendingConfigIsLostIff(s: Client, resp: ServerToAgent, calls: seq<Setter>, config: Option<EffectiveConfig>)
    requires s.next.effectiveConfig.Some?
    ensures Receive(s, resp, calls, config).next.effectiveConfig.None? <==> Refills(s, resp) && config.None?
  {
    CallsKeepPendingConfig(s, calls);
    CallsKeepPendingConfig(s.(next := Identify(s.next, resp)), calls);
  }
}
