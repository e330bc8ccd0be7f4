/** What a client makes of the capabilities it was started with, and what a
    sequence of calls leaves behind, in terms of the capabilities as listed. */
module Started {
  import opened Proto
  import opened Capabilities
  import opened Delivery
  import opened Health
  import opened Settings
  import opened Status
  import opened Interleaving

  // ----- Replies -----

  /** What each call answers, exactly. */
  lemma Replies(s: Client, caps: seq<AgentCapability>, d: AgentDescription, h: ComponentHealth,
                fetched: Option<EffectiveConfig>, status: RemoteConfigStatus, custom: CustomCapabilities)
    requires Valid(s) && s.capabilities == New(caps)
    ensures ReplyTo(s, SetAgentDescription(d)) ==
      if d.identifyingAttributes == [] && d.nonIdentifyingAttributes == [] then Err(AgentDescriptionNoAttributes)
      else Ok
    ensures ReplyTo(s, SetHealth(h)) == if ReportsHealth in caps then Ok else Err(UnsetHealthCapability)
    ensures ReplyTo(s, UpdateEffectiveConfig(fetched)) ==
      if ReportsEffectiveConfig !in caps then Err(UnsetEffectConfigCapability)
      else if fetched.None? then Err(EffectiveConfigError)
      else Ok
    ensures ReplyTo(s, SetRemoteConfigStatus(status)) ==
      if ReportsRemoteConfig in caps then Ok else Err(UnsetRemoteConfigStatusCapability)
    ensures ReplyTo(s, SetCustomCapabilities(custom)) == Ok
  {
    HasIffListed(caps, ReportsHealth);
    HasIffListed(caps, ReportsEffectiveConfig);
    HasIffListed(caps, ReportsRemoteConfig);
  }

  lemma ErrorsChangeNothing(s: Client, c: Setter)
    requires ReplyTo(s, c).Err?
    ensures Call(s, c) == s
  {
  }

  // ----- The latest values -----

  /** The latest description with attributes, else the one before. */
  function LatestDescription(calls: seq<Setter>, before: Option<AgentDescription>): Option<AgentDescription> {
    if calls == [] then before
    else
      match calls[|calls| - 1]
      case SetAgentDescription(d) =>
        if d.identifyingAttributes == [] && d.nonIdentifyingAttributes == []
        then LatestDescription(calls[..|calls| - 1], before) else Some(d)
      case _ => LatestDescription(calls[..|calls| - 1], before)
  }

  function LatestHealth(caps: seq<AgentCapability>, calls: seq<Setter>, before: Option<ComponentHealth>)
    : Option<ComponentHealth>
  {
    if calls == [] then before
    else
      match calls[|calls| - 1]
      case SetHealth(h) => if ReportsHealth in caps then Some(h) else LatestHealth(caps, calls[..|calls| - 1], before)
      case _ => LatestHealth(caps, calls[..|calls| - 1], before)
  }

  function LatestConfig(caps: seq<AgentCapability>, calls: seq<Setter>, before: Option<EffectiveConfig>)
    : Option<EffectiveConfig>
  {
    if calls == [] then before
    else
      match calls[|calls| - 1]
      case UpdateEffectiveConfig(Some(config)) =>
        if ReportsEffectiveConfig in caps then Some(config) else LatestConfig(caps, calls[..|calls| - 1], before)
      case _ => LatestConfig(caps, calls[..|calls| - 1], before)
  }

  function LatestStatus(caps: seq<AgentCapability>, calls: seq<Setter>, before: Option<RemoteConfigStatus>)
    : Option<RemoteConfigStatus>
  {
    if calls == [] then before
    else
      match calls[|calls| - 1]
      case SetRemoteConfigStatus(status) =>
        if ReportsRemoteConfig in caps then Some(status) else LatestStatus(caps, calls[..|calls| - 1], before)
      case _ => LatestStatus(caps, calls[..|calls| - 1], before)
  }

  function LatestCustom(calls: seq<Setter>, before: Option<CustomCapabilities>): Option<CustomCapabilities> {
    if calls == [] then before
    else
      match calls[|calls| - 1]
      case SetCustomCapabilities(custom) => Some(custom)
      case _ => LatestCustom(calls[..|calls| - 1], before)
  }

  ghost predicate SameHealth(a: Option<ComponentHealth>, b: Option<ComponentHealth>) {
    a == b || (a.Some? && b.Some? && Untimed(a.value) == Untimed(b.value))
  }

  /** The effective config that waits is the latest one that was fetched and
      accepted: it is never compared, stored or dropped by other calls. */
  lemma {:induction false} ConfigIsLatest(s: Client, caps: seq<AgentCapability>, calls: seq<Setter>)
    requires s.capabilities == New(caps)
    ensures CallAll(s, calls).capabilities == New(caps)
    ensures CallAll(s, calls).next.effectiveConfig == LatestConfig(caps, calls, s.next.effectiveConfig)
    decreases |calls|
  {
    if calls != [] {
      ConfigIsLatest(s, caps, calls[..|calls| - 1]);
      HasIffListed(caps, ReportsEffectiveConfig);
      match calls[|calls| - 1] { case _ => }
    }
  }

  lemma {:induction false} OneCallStoresLatest(s: Client, caps: seq<AgentCapability>, c: Setter)
    requires Valid(s) && s.capabilities == New(caps)
    ensures var (a, b) := (s.synced, Call(s, c).synced);
      && b.agentDescription == LatestDescription([c], a.agentDescription)
      && (b.health == a.health || b.health == LatestHealth(caps, [c], a.health))
      && SameHealth(b.health, LatestHealth(caps, [c], a.health))
      && b.remoteConfigStatus == LatestStatus(caps, [c], a.remoteConfigStatus)
      && b.customCapabilities == LatestCustom([c], a.customCapabilities)
      && b.packageStatuses == a.packageStatuses
  {
    HasIffListed(caps, ReportsHealth);
    HasIffListed(caps, ReportsRemoteConfig);
    if c.SetHealth? && s.synced.health.Some? { SameIffUntimedEqual(s.synced.health.value, c.health); }
    match c { case _ => }
  }

  /** After any sequence of calls the state holds the latest value of each kind that
      was no error; of health reports, up to the timestamps of its statuses. */
  lemma {:induction false} StateIsLatest(s: Client, caps: seq<AgentCapability>, calls: seq<Setter>)
    requires Valid(s) && s.capabilities == New(caps)
    ensures Valid(CallAll(s, calls)) && CallAll(s, calls).capabilities == New(caps)
    ensures var (a, b) := (s.synced, CallAll(s, calls).synced);
      && b.agentDescription == LatestDescription(calls, a.agentDescription)
      && SameHealth(b.health, LatestHealth(caps, calls, a.health))
      && b.remoteConfigStatus == LatestStatus(caps, calls, a.remoteConfigStatus)
      && b.customCapabilities == LatestCustom(calls, a.customCapabilities)
      && b.packageStatuses == a.packageStatuses
    decreases |calls|
  {
    if calls != [] {
      var init, c := calls[..|calls| - 1], calls[|calls| - 1];
      StateIsLatest(s, caps, init);
      CallKeepsCoupling(CallAll(s, init), c);
      OneCallStoresLatest(CallAll(s, init), caps, c);
      match c { case _ => }
    }
  }

  /** A field of the state that differs from `before` is in the next message. */
  ghost predicate ChangesPending(before: Data, s: Client) {
    && (s.synced.agentDescription == before.agentDescription || s.next.agentDescription == s.synced.agentDescription)
    && (s.synced.health == before.health || s.next.health == s.synced.health)
    && (s.synced.remoteConfigStatus == before.remoteConfigStatus
        || s.next.remoteConfigStatus == s.synced.remoteConfigStatus)
    && (s.synced.customCapabilities == before.customCapabilities
        || s.next.customCapabilities == s.synced.customCapabilities)
  }

  lemma CallKeepsPending(before: Data, s: Client, c: Setter)
    requires ChangesPending(before, s)
    ensures ChangesPending(before, Call(s, c))
  {
  }

  /** What the calls have stored also waits to be sent. */
  lemma {:induction false} ChangesWait(s: Client, calls: seq<Setter>)
    ensures ChangesPending(s.synced, CallAll(s, calls))
    decreases |calls|
  {
    if calls != [] {
      ChangesWait(s, calls[..|calls| - 1]);
      CallKeepsPending(s.synced, CallAll(s, calls[..|calls| - 1]), calls[|calls| - 1]);
    }
  }

  // ----- A started client -----

  lemma StartedCapabilities(settings: StartSettings, s: Sys)
    requires Reached(settings, s)
    ensures s.client.capabilities == settings.capabilities
  {
    var es :| s == After(Init(settings), es);
    RunKeepsCapabilities(Init(settings), es);
  }

  /** The client gates on exactly the capabilities that it was started with, at the
      start and in every reached state. */
  lemma GatesOnListed(settings: StartSettings, caps: seq<AgentCapability>, s: Sys, c: AgentCapability)
    requires settings.capabilities == New(caps) && Reached(settings, s)
    ensures Start(settings).capabilities.Has(c) <==> c in caps && c != Unspecified
    ensures s.client.capabilities.Has(c) <==> c in caps && c != Unspecified
  {
    StartedCapabilities(settings, s);
    HasIffListed(caps, c);
  }

  /** And these are the ones that every message announces: the k-th binary digit of
      the number sent is one exactly if the k-th capability of the protocol was
      listed. */
  lemma {:induction false} EveryMessageAnnounces(settings: StartSettings, caps: seq<AgentCapability>, s: Sys,
                                                 k: nat, i: nat)
    requires settings.capabilities == New(caps) && Reached(settings, s)
    requires k < WIRE_BITS && i < |s.log|
    ensures s.log[i].capabilities as int / PowerOfTwo(k) % 2 == 1 <==> OnTheWire(k) in caps
    ensures s.log[i].capabilities as int < 8192
  {
    SequenceNumbers(settings, s, i);
    WireDigits(caps, k);
  }

  /** A started client refuses a call for a capability exactly when that was not
      listed, in every state it reaches. */
  lemma StartedClientReplies(settings: StartSettings, caps: seq<AgentCapability>, s: Sys, h: ComponentHealth,
                             status: RemoteConfigStatus, config: EffectiveConfig)
    requires settings.capabilities == New(caps) && Reached(settings, s)
    ensures ReplyTo(s.client, SetHealth(h)) == if ReportsHealth in caps then Ok else Err(UnsetHealthCapability)
    ensures ReplyTo(s.client, SetRemoteConfigStatus(status)) ==
      if ReportsRemoteConfig in caps then Ok else Err(UnsetRemoteConfigStatusCapability)
    ensures ReplyTo(s.client, UpdateEffectiveConfig(Some(config))) ==
      if ReportsEffectiveConfig in caps then Ok else Err(UnsetEffectConfigCapability)
  {
    StartedCapabilities(settings, s);
    HasIffListed(caps, ReportsHealth);
    HasIffListed(caps, ReportsRemoteConfig);
    HasIffListed(caps, ReportsEffectiveConfig);
  }

  /** It hands an offer to the callback exactly when the capability for it was
      listed, and obeys commands exactly when that was. */
  lemma StartedClientDelivers(settings: StartSettings, caps: seq<AgentCapability>, s: Sys, resp: ServerToAgent)
    requires settings.capabilities == New(caps) && Reached(settings, s)
    ensures var d := Deliver(resp, s.client.capabilities, s.client.synced.customCapabilities);
      && d.remoteConfig == (if AcceptsRemoteConfig in caps then resp.remoteConfig else None)
      && d.ownMetrics == (if ReportsOwnMetrics in caps then Offered(resp).ownMetrics else None)
      && d.ownTraces == (if ReportsOwnTraces in caps then Offered(resp).ownTraces else None)
      && d.ownLogs == (if ReportsOwnLogs in caps then Offered(resp).ownLogs else None)
      && d.otherConnectionSettings ==
           (if AcceptsOtherConnectionSettings in caps then Offered(resp).otherConnections else map[])
    ensures ObeysCommand(s.client.capabilities, resp) <==> resp.command.Some? && AcceptsRestartCommand in caps
  {
    StartedCapabilities(settings, s);
    DeliveredIffListed(resp, caps, s.client.synced.customCapabilities);
    HasIffListed(caps, AcceptsRestartCommand);
  }
}
