/** The client's objects. Every method is proved against the functions of
    `Status`, which say what one uninterrupted call does to the whole client. */
module ClientObjects {
  import opened Proto
  import opened Capabilities
  import opened Delivery
  import opened Health
  import opened Settings
  import opened Status

  class ClientSyncedState {
    var data: Data

    constructor ()
      ensures data == NO_DATA
    {
      data := NO_DATA;
    }

    method SetAgentDescription(description: AgentDescription) returns (r: Reply)
      modifies this
      ensures description.HasNoAttributes() ==> r == Err(AgentDescriptionNoAttributes) && data == old(data)
      ensures !description.HasNoAttributes() ==> r == Ok && data == old(data).(agentDescription := Some(description))
    {
      if description.identifyingAttributes == [] && description.nonIdentifyingAttributes == [] {
        return Err(AgentDescriptionNoAttributes);
      }
      data := data.(agentDescription := Some(description));
      return Ok;
    }

    method AgentDescriptionUnchanged(description: AgentDescription) returns (same: bool)
      ensures same <==> data.agentDescription == Some(description)
    {
      if data.agentDescription.Some? {
        return data.agentDescription.value == description;
      }
      return false;
    }

    method SetHealth(health: ComponentHealth)
      modifies this
      ensures data == old(data).(health := Some(health))
    {
      data := data.(health := Some(health));
    }

    method HealthUnchanged(health: ComponentHealth) returns (same: bool)
      ensures same <==> data.health.Some? && Untimed(data.health.value) == Untimed(health)
    {
      if data.health.Some? {
        SameIffUntimedEqual(data.health.value, health);
        return IsSameAs(data.health.value, health);
      }
      return false;
    }

    method SetRemoteConfigStatus(status: RemoteConfigStatus)
      modifies this
      ensures data == old(data).(remoteConfigStatus := Some(status))
    {
      data := data.(remoteConfigStatus := Some(status));
    }

    method RemoteConfigStatusUnchanged(status: RemoteConfigStatus) returns (same: bool)
      ensures same <==> data.remoteConfigStatus == Some(status)
    {
      if data.remoteConfigStatus.Some? {
        return data.remoteConfigStatus.value == status;
      }
      return false;
    }

    method SetCustomCapabilities(custom: CustomCapabilities)
      modifies this
      ensures data == old(data).(customCapabilities := Some(custom))
    {
      data := data.(customCapabilities := Some(custom));
    }

    method CustomCapabilitiesUnchanged(custom: CustomCapabilities) returns (same: bool)
      ensures same <==> data.customCapabilities == Some(custom)
    {
      if data.customCapabilities.Some? {
        return data.customCapabilities.value == custom;
      }
      return false;
    }
  }

  class NextMessage {
    var message: AgentToServer

    constructor (init: AgentToServer)
      ensures message == init
    {
      message := init;
    }

    method Update(modifier: AgentToServer -> AgentToServer)
      modifies this
      ensures message == modifier(old(message))
    {
      message := modifier(message);
    }

    method Pop() returns (current: AgentToServer)
      modifies this
      ensures current == Stamp(old(message)) && message == Reset(current)
      ensures current == old(message).(sequenceNum := (old(message).sequenceNum + 1) % 0x1_0000_0000_0000_0000)
      ensures message == current.(agentDescription := None, health := None, effectiveConfig := None,
                                  remoteConfigStatus := None, packageStatuses := None, customCapabilities := None)
    {
      message := message.(sequenceNum := Successor(message.sequenceNum));
      current := message;
      ResetMessage();
    }

    method ResetMessage()
      modifies this
      ensures message == Reset(old(message))
    {
      message := message.(agentDescription := None);
      message := message.(health := None);
      message := message.(effectiveConfig := None);
      message := message.(remoteConfigStatus := None);
      message := message.(packageStatuses := None);
      message := message.(customCapabilities := None);
    }
  }

  /** A channel for a single notification, after one more was put in. */
  ghost function Notified(before: Mailbox): Mailbox {
    if before.connected && before.tokens == 0 then before.(tokens := 1) else before
  }

  /** The channel behind a notifier. */
  class Channel {
    var state: Mailbox

    constructor ()
      ensures state == Mailbox(0, true)
    {
      state := Mailbox(0, true);
    }
  }

  class Notifier {
    const channel: Channel

    constructor (channel: Channel)
      ensures this.channel == channel
    {
      this.channel := channel;
    }

    /** A full channel already holds a notification; a disconnected one is only
        worth a warning. */
    method NotifyOrWarn()
      modifies channel
      ensures channel.state == old(channel.state).TrySend() == Notified(old(channel.state))
    {
      if channel.state.connected && channel.state.tokens < CAPACITY {
        channel.state := channel.state.(tokens := channel.state.tokens + 1);
      }
    }
  }

  /** How an exchange with the server ends, as the client sees it. */
  datatype SendOutcome = Failed | Answered(response: ServerToAgent)

  datatype PollResult = Polled | ConnectFailed

  datatype ProcessResult = Synced | NeedsResend

  method ConvertDescription(d: Description) returns (p: AgentDescription)
    ensures p == d.ToProto()
  {
    var identifying := PopulateAgentDescription(d.identifying);
    var nonIdentifying := PopulateAgentDescription(d.nonIdentifying);
    return AgentDescription(identifying, nonIdentifying);
  }

  /** The error of the state's setter is never returned: only descriptions with
      attributes are stored. */
  method InitialMessageAndState(settings: StartSettings)
    returns (reply: Reply, message: AgentToServer, state: ClientSyncedState)
    ensures reply == Ok
    ensures fresh(state) && state.data == InitialData(settings) && message == InitialMessage(settings)
    ensures message == AgentToServer(
      settings.instanceUid, 0, Some(settings.agentDescription.ToProto()), settings.capabilities.ToU64(),
      None, None, None, None, None, settings.customCapabilities)
    ensures var listed := settings.agentDescription.ToProto();
      state.data == Data(if listed.HasNoAttributes() then None else Some(listed), settings.customCapabilities,
                         None, None, None)
  {
    EmptyIffNoAttributes(settings.agentDescription);
    reply := Ok;
    state := new ClientSyncedState();
    var description := ConvertDescription(settings.agentDescription);
    if !settings.agentDescription.IsEmpty() {
      reply := state.SetAgentDescription(description);
    }
    if settings.customCapabilities.Some? {
      state.SetCustomCapabilities(settings.customCapabilities.value);
    }
    message := AgentToServer(
      settings.instanceUid, 0, Some(description), settings.capabilities.ToU64(),
      None, None, None, None, None, settings.customCapabilities);
  }

  class OpAMPHttpClient {
    const message: NextMessage
    const syncedState: ClientSyncedState
    const capabilities: Capabilities
    const pendingMsg: Notifier

    /** The whole client as a value. */
    ghost function View(): Client
      reads message, syncedState, pendingMsg.channel
    {
      Client(syncedState.data, message.message, pendingMsg.channel.state, capabilities)
    }

    ghost predicate Valid()
      reads message, syncedState, pendingMsg.channel
    {
      Status.Valid(View())
    }

    constructor (settings: StartSettings, pendingMsg: Notifier)
      requires pendingMsg.channel.state.tokens <= CAPACITY
      ensures Valid()
      ensures View() == Start(settings).(mailbox := pendingMsg.channel.state)
      ensures capabilities == settings.capabilities
      ensures this.pendingMsg == pendingMsg && fresh(message) && fresh(syncedState)
    {
      var _, initial, state := InitialMessageAndState(settings);
      StartIsValid(settings);
      message := new NextMessage(initial);
      syncedState := state;
      capabilities := settings.capabilities;
      this.pendingMsg := pendingMsg;
    }

    method SetAgentDescription(description: AgentDescription) returns (r: Reply)
      requires Valid()
      modifies message, syncedState, pendingMsg.channel
      ensures Valid()
      ensures View() == Call(old(View()), Setter.SetAgentDescription(description))
      ensures r == ReplyTo(old(View()), Setter.SetAgentDescription(description))
      ensures r == if description.identifyingAttributes == [] && description.nonIdentifyingAttributes == []
                   then Err(AgentDescriptionNoAttributes) else Ok
      ensures View() == if r.Err? || old(View()).synced.agentDescription == Some(description) then old(View())
                        else Client(old(View()).synced.(agentDescription := Some(description)),
                                    old(View()).next.(agentDescription := Some(description)),
                                    Notified(old(View()).mailbox), capabilities)
    {
      var same := syncedState.AgentDescriptionUnchanged(description);
      if same {
        return Ok;
      }
      var stored := syncedState.SetAgentDescription(description);
      if stored.Err? {
        return stored;
      }
      message.Update((msg: AgentToServer) => msg.(agentDescription := Some(description)));
      pendingMsg.NotifyOrWarn();
      return Ok;
    }

    method GetAgentDescription() returns (description: AgentDescription)
      ensures View().synced.agentDescription.Some? ==> Some(description) == View().synced.agentDescription
      ensures View().synced.agentDescription.None? ==> description.HasNoAttributes()
    {
      if syncedState.data.agentDescription.Some? {
        return syncedState.data.agentDescription.value;
      }
      return AgentDescription([], []);
    }

    method SetHealth(health: ComponentHealth) returns (r: Reply)
      requires Valid()
      modifies message, syncedState, pendingMsg.channel
      ensures Valid()
      ensures View() == Call(old(View()), Setter.SetHealth(health))
      ensures r == ReplyTo(old(View()), Setter.SetHealth(health))
      ensures r == if capabilities.Has(ReportsHealth) then Ok else Err(UnsetHealthCapability)
      ensures View() == if r.Err? || (old(View()).synced.health.Some?
                                      && Untimed(old(View()).synced.health.value) == Untimed(health)) then old(View())
                        else Client(old(View()).synced.(health := Some(health)),
                                    old(View()).next.(health := Some(health)),
                                    Notified(old(View()).mailbox), capabilities)
    {
      if !capabilities.Has(ReportsHealth) {
        return Err(UnsetHealthCapability);
      }
      if syncedState.data.health.Some? {
        SameIffUntimedEqual(syncedState.data.health.value, health);
      }
      var same := syncedState.HealthUnchanged(health);
      if same {
        return Ok;
      }
      syncedState.SetHealth(health);
      message.Update((msg: AgentToServer) => msg.(health := Some(health)));
      pendingMsg.NotifyOrWarn();
      return Ok;
    }

    /** `fetched` is the answer of the `get_effective_config` callback. */
    method UpdateEffectiveConfig(fetched: Option<EffectiveConfig>) returns (r: Reply)
      requires Valid()
      modifies message, pendingMsg.channel
      ensures Valid()
      ensures View() == Call(old(View()), Setter.UpdateEffectiveConfig(fetched))
      ensures r == ReplyTo(old(View()), Setter.UpdateEffectiveConfig(fetched))
      ensures r == if !capabilities.Has(ReportsEffectiveConfig) then Err(UnsetEffectConfigCapability)
                   else if fetched.None? then Err(EffectiveConfigError) else Ok
      ensures View() == if r.Err? then old(View())
                        else Client(old(View()).synced, old(View()).next.(effectiveConfig := fetched),
                                    Notified(old(View()).mailbox), capabilities)
    {
      if !capabilities.Has(ReportsEffectiveConfig) {
        return Err(UnsetEffectConfigCapability);
      }
      if fetched.None? {
        return Err(EffectiveConfigError);
      }
      message.Update((msg: AgentToServer) => msg.(effectiveConfig := fetched));
      pendingMsg.NotifyOrWarn();
      return Ok;
    }

    method SetRemoteConfigStatus(status: RemoteConfigStatus) returns (r: Reply)
      requires Valid()
      modifies message, syncedState, pendingMsg.channel
      ensures Valid()
      ensures View() == Call(old(View()), Setter.SetRemoteConfigStatus(status))
      ensures r == ReplyTo(old(View()), Setter.SetRemoteConfigStatus(status))
      ensures r == if capabilities.Has(ReportsRemoteConfig) then Ok else Err(UnsetRemoteConfigStatusCapability)
      ensures View() == if r.Err? || old(View()).synced.remoteConfigStatus == Some(status) then old(View())
                        else Client(old(View()).synced.(remoteConfigStatus := Some(status)),
                                    old(View()).next.(remoteConfigStatus := Some(status)),
                                    Notified(old(View()).mailbox), capabilities)
    {
      if !capabilities.Has(ReportsRemoteConfig) {
        return Err(UnsetRemoteConfigStatusCapability);
      }
      var same := syncedState.RemoteConfigStatusUnchanged(status);
      if same {
        return Ok;
      }
      syncedState.SetRemoteConfigStatus(status);
      message.Update((msg: AgentToServer) => msg.(remoteConfigStatus := Some(status)));
      pendingMsg.NotifyOrWarn();
      return Ok;
    }

    method SetCustomCapabilities(custom: CustomCapabilities) returns (r: Reply)
      requires Valid()
      modifies message, syncedState, pendingMsg.channel
      ensures Valid()
      ensures View() == Call(old(View()), Setter.SetCustomCapabilities(custom))
      ensures r == ReplyTo(old(View()), Setter.SetCustomCapabilities(custom))
      ensures r == Ok
      ensures View() == if old(View()).synced.customCapabilities == Some(custom) then old(View())
                        else Client(old(View()).synced.(customCapabilities := Some(custom)),
                                    old(View()).next.(customCapabilities := Some(custom)),
                                    Notified(old(View()).mailbox), capabilities)
    {
      var same := syncedState.CustomCapabilitiesUnchanged(custom);
      if same {
        return Ok;
      }
      syncedState.SetCustomCapabilities(custom);
      message.Update((msg: AgentToServer) => msg.(customCapabilities := Some(custom)));
      pendingMsg.NotifyOrWarn();
      return Ok;
    }

    method Dispatch(c: Setter) returns (r: Reply)
      requires Valid()
      modifies message, syncedState, pendingMsg.channel
      ensures Valid()
      ensures View() == Call(old(View()), c) && r == ReplyTo(old(View()), c)
    {
      match c
      case SetAgentDescription(d) => r := SetAgentDescription(d);
      case SetHealth(h) => r := SetHealth(h);
      case UpdateEffectiveConfig(f) => r := UpdateEffectiveConfig(f);
      case SetRemoteConfigStatus(s) => r := SetRemoteConfigStatus(s);
      case SetCustomCapabilities(custom) => r := SetCustomCapabilities(custom);
    }

    /** The agent's callback, which may call back into the client. */
    method RunCallback(calls: seq<Setter>)
      requires Valid()
      modifies message, syncedState, pendingMsg.channel
      ensures Valid()
      ensures View() == CallAll(old(View()), calls)
    {
      for i := 0 to |calls|
        invariant Valid()
        invariant View() == CallAll(old(View()), calls[..i])
      {
        assert calls[..i + 1][..i] == calls[..i];
        var _ := Dispatch(calls[i]);
      }
      assert calls[..|calls|] == calls;
    }

    method RcvFlags(flags: bv64, config: Option<EffectiveConfig>) returns (r: ProcessResult)
      requires Valid()
      modifies message
      ensures Valid()
      ensures View() == if AsksFullState(flags)
                        then old(View()).(next := Refill(old(View()).next, old(View()).synced, config))
                        else old(View())
      ensures r == if flags as int % 2 == 1 then NeedsResend else Synced
      ensures View() == if flags as int % 2 == 0 then old(View())
                        else old(View()).(next := old(View()).next.(
                          agentDescription := old(View()).synced.agentDescription,
                          customCapabilities := old(View()).synced.customCapabilities,
                          health := old(View()).synced.health,
                          remoteConfigStatus := old(View()).synced.remoteConfigStatus,
                          packageStatuses := old(View()).synced.packageStatuses,
                          effectiveConfig := config))
    {
      FullStateIffOdd(flags);
      if flags & REPORT_FULL_STATE != 0 {
        var agentDescription := syncedState.data.agentDescription;
        var health := syncedState.data.health;
        var remoteConfigStatus := syncedState.data.remoteConfigStatus;
        var packageStatuses := syncedState.data.packageStatuses;
        var customCapabilities := syncedState.data.customCapabilities;
        message.Update((msg: AgentToServer) =>
          msg.(agentDescription := agentDescription,
               customCapabilities := customCapabilities,
               health := health,
               remoteConfigStatus := remoteConfigStatus,
               packageStatuses := packageStatuses,
               effectiveConfig := config));
        return NeedsResend;
      }
      return Synced;
    }

    /** `delivered` is what the `on_message` callback receives, if it is called. */
    method ProcessMessage(resp: ServerToAgent, calls: seq<Setter>, config: Option<EffectiveConfig>)
      returns (r: ProcessResult, delivered: Option<MessageData>)
      requires Valid()
      modifies message, syncedState, pendingMsg.channel
      ensures Valid()
      ensures View() == Process(old(View()), resp, calls, config)
      ensures r == NeedsResend <==> Refills(old(View()), resp)
      ensures delivered == if ObeysCommand(capabilities, resp) then None
                           else Some(Deliver(resp, capabilities, old(View()).synced.customCapabilities))
      ensures delivered.None? <==> resp.command.Some? && capabilities.Has(AcceptsRestartCommand)
      ensures r == NeedsResend <==> delivered.Some? && resp.flags as int % 2 == 1
      ensures View().next.instanceUid ==
        if delivered.Some? && resp.agentIdentification.Some? && resp.agentIdentification.value.newInstanceUid != []
        then resp.agentIdentification.value.newInstanceUid else old(View()).next.instanceUid
    {
      FullStateIffOdd(resp.flags);
      ghost var called := if ObeysCommand(capabilities, resp) then View()
                          else View().(next := Identify(View().next, resp));
      CallsKeepCoupling(called, calls);
      if resp.command.Some? && capabilities.Has(AcceptsRestartCommand) {
        RunCallback(calls);
        return Synced, None;
      }
      var data := Deliver(resp, capabilities, syncedState.data.customCapabilities);
      if data.agentIdentification.Some? {
        var uid := data.agentIdentification.value.newInstanceUid;
        message.Update((msg: AgentToServer) => msg.(instanceUid := uid));
      }
      RunCallback(calls);
      r := RcvFlags(resp.flags, config);
      delivered := Some(data);
    }

    /** One poll. `sent` is the message handed to the sender. */
    method SendProcess(outcome: SendOutcome, calls: seq<Setter>, config: Option<EffectiveConfig>)
      returns (sent: AgentToServer, r: PollResult)
      requires Valid()
      modifies message, syncedState, pendingMsg.channel
      ensures Valid()
      ensures sent == Stamp(old(View()).next)
      ensures sent == old(View()).next.(
        sequenceNum := (old(View()).next.sequenceNum + 1) % 0x1_0000_0000_0000_0000)
      ensures outcome.Failed? ==> r == ConnectFailed && View() == AfterPop(old(View()))
      ensures outcome.Answered? ==>
        r == Polled && View() == Receive(AfterPop(old(View())), outcome.response, calls, config)
    {
      sent := message.Pop();
      if outcome.Failed? {
        return sent, ConnectFailed;
      }
      var result, _ := ProcessMessage(outcome.response, calls, config);
      if result == NeedsResend {
        pendingMsg.NotifyOrWarn();
      }
      return sent, Polled;
    }

    /** The last message of a client: the next one, marked as a disconnect. */
    method Drop() returns (sent: AgentToServer)
      modifies message
      ensures sent == Stamp(old(View()).next).(agentDisconnect := Some(AgentDisconnect))
      ensures sent == old(View()).next.(
        sequenceNum := (old(View()).next.sequenceNum + 1) % 0x1_0000_0000_0000_0000,
        agentDisconnect := Some(AgentDisconnect))
      ensures View() == AfterPop(old(View()))
    {
      var msg := message.Pop();
      sent := msg.(agentDisconnect := Some(AgentDisconnect));
    }
  }
}
