/** The client against a server, over a channel that loses requests and
    responses. The server is only required to follow the rules of the protocol:
    it merges what it receives, notices a number that is not the successor of
    the last one, and from then on asks for full state until it has got one. It
    may ask more often, and it may be restarted with any memory of the status.
    What counts as full state is the first message of a client, the first one
    after a refill, and any other that happens to hold as much. */
module Replication {
  import opened Proto
  import opened Capabilities
  import opened Settings
  import opened Status

  datatype Server = Server(known: bool, lastNum: u64, view: Data, asking: bool)

  /** `full` tells whether the message counts as a report of full state. */
  datatype Flight = Idle | Request(msg: AgentToServer, full: bool) | Response(resp: ServerToAgent)

  /** `tagged` while the next message is the first one or has been refilled;
      `lost` counts the messages lost since the server last received one. */
  datatype World = World(client: Client, tagged: bool, flight: Flight, server: Server, lost: nat)

  datatype Action =
    | Set(call: Setter)
    | Poll
    | LoseRequest
    | Deliver(after: Server, answer: ServerToAgent)
    | LoseResponse
    | Handle(calls: seq<Setter>, config: Option<EffectiveConfig>)
    | Restart(memory: Data)

  // ----- The server's rules -----

  function Overlay<T>(before: Option<T>, report: Option<T>): Option<T> {
    if report.Some? then report else before
  }

  function Merge(view: Data, msg: AgentToServer): Data {
    Data(Overlay(view.agentDescription, msg.agentDescription),
         Overlay(view.customCapabilities, msg.customCapabilities),
         Overlay(view.health, msg.health),
         Overlay(view.remoteConfigStatus, msg.remoteConfigStatus),
         Overlay(view.packageStatuses, msg.packageStatuses))
  }

  predicate NoticesGap(s: Server, num: u64) {
    !s.known || num != Successor(s.lastNum)
  }

  ghost predicate Absorbs(s: Server, msg: AgentToServer, full: bool, after: Server) {
    && after.known
    && after.lastNum == msg.sequenceNum
    && after.view == Merge(s.view, msg)
    && ((s.asking || NoticesGap(s, msg.sequenceNum)) && !full ==> after.asking)
  }

  /** A command travels alone; any other answer carries the request. */
  ghost predicate Answers(s: Server, answer: ServerToAgent) {
    if answer.command.Some? then !AsksFullState(answer.flags)
    else AsksFullState(answer.flags) <==> s.asking
  }

  // ----- Steps and runs -----

  function Begin(settings: StartSettings, memory: Data): World {
    World(Start(settings), true, Idle, Server(false, 0, memory, false), 0)
  }

  ghost predicate Can(w: World, action: Action) {
    match action
    case Set(_) => true
    case Poll => w.flight.Idle?
    case LoseRequest => w.flight.Request? && w.lost + 1 < U64_RANGE
    case Deliver(after, answer) =>
      w.flight.Request? && Absorbs(w.server, w.flight.msg, w.flight.full, after) && Answers(after, answer)
    case LoseResponse => w.flight.Response?
    case Handle(_, _) => w.flight.Response?
    case Restart(_) => true
  }

  ghost predicate HoldsWhole(c: Client) {
    Reports(Merge(NO_DATA, c.next), c.synced)
  }

  ghost function Do(w: World, action: Action): World
    requires Can(w, action)
  {
    match action
    case Set(c) => w.(client := Call(w.client, c))
    case Poll =>
      w.(client := AfterPop(w.client),
         tagged := false,
         flight := Request(Stamp(w.client.next), w.tagged || HoldsWhole(w.client)))
    case LoseRequest => w.(flight := Idle, lost := w.lost + 1)
    case Deliver(after, answer) => w.(flight := Response(answer), server := after, lost := 0)
    case LoseResponse => w.(flight := Idle)
    case Handle(calls, config) =>
      w.(client := Receive(w.client, w.flight.resp, calls, config),
         tagged := w.tagged || Refills(w.client, w.flight.resp),
         flight := Idle)
    case Restart(memory) => w.(server := Server(false, 0, memory, false))
  }

  ghost predicate IsRun(w: World, actions: seq<Action>)
    decreases |actions|
  {
    actions == [] || (Can(w, actions[0]) && IsRun(Do(w, actions[0]), actions[1..]))
  }

  ghost function After(w: World, actions: seq<Action>): World
    requires IsRun(w, actions)
    decreases |actions|
  {
    if actions == [] then w else After(Do(w, actions[0]), actions[1..])
  }

  // ----- Agreement -----

  ghost predicate Reported<T>(seen: Option<T>, synced: Option<T>) {
    synced.Some? ==> seen == synced
  }

  /** Every field ever set is seen with its synced value. */
  ghost predicate Reports(seen: Data, synced: Data) {
    && Reported(seen.agentDescription, synced.agentDescription)
    && Reported(seen.customCapabilities, synced.customCapabilities)
    && Reported(seen.health, synced.health)
    && Reported(seen.remoteConfigStatus, synced.remoteConfigStatus)
    && Reported(seen.packageStatuses, synced.packageStatuses)
  }

  /** Each field waits in the next message with its synced value, or is seen with it. */
  ghost predicate Settled(next: AgentToServer, synced: Data, seen: Data) {
    && (Reported(next.agentDescription, synced.agentDescription) || seen.agentDescription == synced.agentDescription)
    && (Reported(next.customCapabilities, synced.customCapabilities)
        || seen.customCapabilities == synced.customCapabilities)
    && (Reported(next.health, synced.health) || seen.health == synced.health)
    && (Reported(next.remoteConfigStatus, synced.remoteConfigStatus)
        || seen.remoteConfigStatus == synced.remoteConfigStatus)
    && (Reported(next.packageStatuses, synced.packageStatuses) || seen.packageStatuses == synced.packageStatuses)
  }

  /** The server's view, counting a request that is still on its way. */
  function Seen(w: World): Data {
    if w.flight.Request? then Merge(w.server.view, w.flight.msg) else w.server.view
  }

  /** The number of the next message that can reach the server. */
  function NextNumber(w: World): u64 {
    if w.flight.Request? then w.flight.msg.sequenceNum else Successor(w.client.next.sequenceNum)
  }

  ghost predicate Alarmed(w: World) {
    w.server.asking || NoticesGap(w.server, NextNumber(w))
  }

  /** The number `k` steps after `n`. */
  function Later(n: u64, k: nat): u64 {
    (n + k) % U64_RANGE
  }

  lemma LaterFacts(n: u64, k: nat)
    ensures Later(n, 0) == n
    ensures Successor(Later(n, k)) == Later(n, k + 1)
  {
  }

  /** After `lost` messages that did not arrive, the next number looks right to
      someone who remembers `last` only if the losses went full circle. */
  lemma LooksRightIff(last: u64, lost: nat)
    ensures Later(last, lost + 1) == Successor(last) <==> lost % U64_RANGE == 0
    ensures lost < U64_RANGE ==> (lost % U64_RANGE == 0 <==> lost == 0)
  {
    var (m, r) := (last + 1, lost % U64_RANGE);
    assert (m + lost) % U64_RANGE == (m + r) % U64_RANGE;
  }

  ghost predicate Numbered(w: World) {
    && (w.server.known ==>
          w.client.next.sequenceNum == Later(w.server.lastNum, w.lost + if w.flight.Request? then 1 else 0))
    && (w.flight.Request? ==> w.flight.msg.sequenceNum == w.client.next.sequenceNum)
  }

  ghost predicate Inv(w: World) {
    && Valid(w.client)
    && Numbered(w)
    && w.lost < U64_RANGE
    && (Alarmed(w) || Settled(w.client.next, w.client.synced, Seen(w)))
    && (w.tagged ==> Settled(w.client.next, w.client.synced, NO_DATA))
    && (w.flight.Request? && w.flight.full ==> Settled(w.client.next, w.client.synced, Merge(NO_DATA, w.flight.msg)))
  }

  /** A known server notices the losses on the next message exactly when their
      number is not a multiple of two to the sixty-four. */
  lemma GapNoticedIff(w: World)
    requires Numbered(w) && w.server.known
    ensures NoticesGap(w.server, NextNumber(w)) <==> w.lost % 0x1_0000_0000_0000_0000 != 0
  {
    LaterFacts(w.server.lastNum, w.lost);
    LooksRightIff(w.server.lastNum, w.lost);
  }

  lemma CallKeepsSettled(s: Client, c: Setter, seen: Data)
    requires Settled(s.next, s.synced, seen)
    ensures Settled(Call(s, c).next, Call(s, c).synced, seen)
  {
  }

  lemma {:induction false} CallsKeepSettled(s: Client, calls: seq<Setter>, seen: Data)
    requires Settled(s.next, s.synced, seen)
    ensures Settled(CallAll(s, calls).next, CallAll(s, calls).synced, seen)
    decreases |calls|
  {
    if calls != [] {
      var init := calls[..|calls| - 1];
      CallsKeepSettled(s, init, seen);
      CallKeepsSettled(CallAll(s, init), calls[|calls| - 1], seen);
    }
  }

  lemma ReceiveKeepsSettled(s: Client, resp: ServerToAgent, calls: seq<Setter>, config: Option<EffectiveConfig>,
                            seen: Data)
    requires Valid(s)
    requires Settled(s.next, s.synced, seen) || Refills(s, resp)
    ensures var t := Receive(s, resp, calls, config);
      && Settled(t.next, t.synced, seen)
      && (Refills(s, resp) ==> Settled(t.next, t.synced, NO_DATA))
  {
    ReceiveKeepsCoupling(s, resp, calls, config);
    if !Refills(s, resp) {
      var u := if ObeysCommand(s.capabilities, resp) then s else s.(next := Identify(s.next, resp));
      CallsKeepSettled(u, calls, seen);
    }
  }

  /** Taking a message moves every waiting field into what the server will see. */
  lemma PopKeepsSettled(s: Client, seen: Data)
    requires Valid(s) && Settled(s.next, s.synced, seen)
    ensures Settled(AfterPop(s).next, s.synced, Merge(seen, Stamp(s.next)))
    ensures Reports(Merge(seen, Stamp(s.next)), s.synced)
  {
  }

  /** A message that holds everything settles any view. */
  lemma FullSettlesAny(next: AgentToServer, synced: Data, msg: AgentToServer, view: Data)
    requires Settled(next, synced, Merge(NO_DATA, msg))
    ensures Settled(next, synced, Merge(view, msg))
  {
  }

  lemma ActionKeepsNumbers(w: World, action: Action)
    requires Inv(w) && Can(w, action)
    ensures Numbered(Do(w, action)) && Valid(Do(w, action).client)
  {
    match action {
      case Set(c) => CallKeepsCoupling(w.client, c);
      case Handle(calls, config) => ReceiveKeepsCoupling(w.client, w.flight.resp, calls, config);
      case Poll => LaterFacts(w.server.lastNum, w.lost);
      case _ => LaterFacts(w.client.next.sequenceNum, 0);
    }
  }

  lemma ActionKeepsInv(w: World, action: Action)
    requires Inv(w) && Can(w, action)
    ensures Inv(Do(w, action))
  {
    var v := Do(w, action);
    ActionKeepsNumbers(w, action);
    AlarmIffOwed(w);
    AlarmIffOwed(v);
    match action {
      case Set(c) =>
        SettledAfterCall(w, c);
      case Poll =>
        if !Alarmed(w) { PopKeepsSettled(w.client, w.server.view); }
        if v.flight.full { PopKeepsSettled(w.client, NO_DATA); }
      case Deliver(after, answer) =>
        if w.flight.full { FullSettlesAny(w.client.next, w.client.synced, w.flight.msg, w.server.view); }
      case Handle(calls, config) =>
        if !Alarmed(w) { ReceiveKeepsSettled(w.client, w.flight.resp, calls, config, w.server.view); }
        if v.tagged { ReceiveKeepsSettled(w.client, w.flight.resp, calls, config, NO_DATA); }
      case _ =>
    }
  }

  lemma AlarmIffOwed(w: World)
    requires Numbered(w) && w.lost < U64_RANGE
    ensures Alarmed(w) <==> w.server.asking || !w.server.known || w.lost > 0
  {
  }

  lemma SettledAfterCall(w: World, c: Setter)
    requires Inv(w)
    ensures !Alarmed(w) ==> Settled(Call(w.client, c).next, Call(w.client, c).synced, Seen(w))
    ensures w.tagged ==> Settled(Call(w.client, c).next, Call(w.client, c).synced, NO_DATA)
    ensures w.flight.Request? && w.flight.full ==>
      Settled(Call(w.client, c).next, Call(w.client, c).synced, Merge(NO_DATA, w.flight.msg))
  {
  }

  // ----- Main results -----

  lemma BeginHasInv(settings: StartSettings, memory: Data)
    ensures Inv(Begin(settings, memory))
  {
    StartIsValid(settings);
  }

  lemma {:induction false} RunKeepsInv(w: World, actions: seq<Action>)
    requires Inv(w) && IsRun(w, actions)
    ensures Inv(After(w, actions))
    decreases |actions|
  {
    if actions != [] {
      ActionKeepsInv(w, actions[0]);
      RunKeepsInv(Do(w, actions[0]), actions[1..]);
    }
  }

  /** In every reachable state of client, channel and server, either the server
      is asking for full state or will notice a gap on the next message it gets,
      or every field ever set waits in the next message with its synced value or
      is seen by the server with it. */
  lemma {:induction false} GapCompleteness(settings: StartSettings, memory: Data, actions: seq<Action>)
    requires IsRun(Begin(settings, memory), actions)
    ensures var w := After(Begin(settings, memory), actions);
      || w.server.asking
      || NoticesGap(w.server, NextNumber(w))
      || Settled(w.client.next, w.client.synced, Seen(w))
  {
    BeginHasInv(settings, memory);
    RunKeepsInv(Begin(settings, memory), actions);
  }

  /** The alarm is never forgotten: only a delivered report of full state ends it,
      and that message alone, whatever the server's view was before, settles
      every field that has been set up to then. */
  lemma AlarmEndsWithFullReport(w: World, action: Action)
    requires Inv(w) && Can(w, action)
    requires Alarmed(w) && !Alarmed(Do(w, action))
    ensures action.Deliver? && w.flight.full
    ensures Settled(w.client.next, w.client.synced, Merge(NO_DATA, w.flight.msg))
    ensures Settled(w.client.next, w.client.synced, Do(w, action).server.view)
  {
    ActionKeepsNumbers(w, action);
    AlarmIffOwed(w);
    AlarmIffOwed(Do(w, action));
    FullSettlesAny(w.client.next, w.client.synced, w.flight.msg, w.server.view);
  }

  /** No refill, and no message that happens to hold the whole state. */
  ghost predicate NeverFull(w: World, actions: seq<Action>)
    requires IsRun(w, actions)
    decreases |actions|
  {
    actions == [] || (
      && (actions[0].Handle? ==> !Refills(w.client, w.flight.resp))
      && (actions[0].Poll? ==> !HoldsWhole(w.client))
      && NeverFull(Do(w, actions[0]), actions[1..]))
  }

  /** An alarm outlives every run without a refill and without a message that
      happens to hold the whole state: ending it takes an answered request. */
  lemma {:induction false} AlarmOutlivesPartialReports(w: World, actions: seq<Action>)
    requires Inv(w) && IsRun(w, actions) && NeverFull(w, actions)
    requires Alarmed(w) && !w.tagged && (w.flight.Request? ==> !w.flight.full)
    ensures Alarmed(After(w, actions))
    decreases |actions|
  {
    if actions != [] {
      ActionKeepsInv(w, actions[0]);
      if !Alarmed(Do(w, actions[0])) { AlarmEndsWithFullReport(w, actions[0]); }
      AlarmOutlivesPartialReports(Do(w, actions[0]), actions[1..]);
    }
  }

  ghost function Sets(w: World, calls: seq<Setter>): World {
    w.(client := CallAll(w.client, calls))
  }

  lemma SetsKeepInv(w: World, calls: seq<Setter>)
    requires Inv(w)
    ensures Inv(Sets(w, calls))
    decreases |calls|
  {
    if calls != [] {
      SetsKeepInv(w, calls[..|calls| - 1]);
      ActionKeepsInv(Sets(w, calls[..|calls| - 1]), Set(calls[|calls| - 1]));
    }
  }

  /** From any reachable state, whatever the server remembers: one exchange that
      is delivered both ways, with an answer that is not a command, and then one
      delivered request, leave every field ever set in the server's view with the
      value that was synced when the second message was taken. If the answer asked
      for full state, the second message counts as that, so the server may stop
      asking. Setters may be called at any point in between, also from the
      callback. */
  lemma BoundedRecovery(w: World, before: seq<Setter>, sent: seq<Setter>, answered: seq<Setter>, handled: seq<Setter>,
                        resent: seq<Setter>, s1: Server, r1: ServerToAgent, callback: seq<Setter>,
                        config: Option<EffectiveConfig>, s2: Server, r2: ServerToAgent)
    requires Inv(w) && w.flight.Idle? && r1.command.None?
    requires Can(Sets(Do(Sets(w, before), Poll), sent), Deliver(s1, r1))
    requires var w2 := Do(Sets(Do(Sets(w, before), Poll), sent), Deliver(s1, r1));
      var w3 := Sets(Do(Sets(w2, answered), Handle(callback, config)), handled);
      Can(Sets(Do(w3, Poll), resent), Deliver(s2, r2))
    ensures var w2 := Do(Sets(Do(Sets(w, before), Poll), sent), Deliver(s1, r1));
      var w3 := Sets(Do(Sets(w2, answered), Handle(callback, config)), handled);
      && Reports(Do(Sets(Do(w3, Poll), resent), Deliver(s2, r2)).server.view, w3.client.synced)
      && (AsksFullState(r1.flags) ==> Do(w3, Poll).flight.full)
  {
    var w0 := Sets(w, before);
    SetsKeepInv(w, before);
    ActionKeepsInv(w0, Poll);
    var w1 := Sets(Do(w0, Poll), sent);
    SetsKeepInv(Do(w0, Poll), sent);
    ActionKeepsInv(w1, Deliver(s1, r1));
    SetsKeepInv(Do(w1, Deliver(s1, r1)), answered);
    var w2 := Sets(Do(w1, Deliver(s1, r1)), answered);
    ActionKeepsInv(w2, Handle(callback, config));
    var w3 := Do(w2, Handle(callback, config));
    AlarmIffOwed(w2);
    ReceiveKeepsSettled(w2.client, r1, callback, config, s1.view);
    CallsKeepSettled(w3.client, handled, s1.view);
    SetsKeepInv(w3, handled);
    PopKeepsSettled(Sets(w3, handled).client, s1.view);
  }

  // ----- Nothing is invented -----

  ghost predicate Blank<T>(seen: Option<T>, synced: Option<T>) {
    synced.None? ==> seen.None?
  }

  ghost predicate BlankDescription(seen: Option<AgentDescription>, synced: Option<AgentDescription>) {
    synced.None? ==> seen.None? || seen.value.HasNoAttributes()
  }

  /** What was never set is not seen; no description and one without attributes
      count as the same. */
  ghost predicate BlankWhereUnset(seen: Data, synced: Data) {
    && BlankDescription(seen.agentDescription, synced.agentDescription)
    && Blank(seen.customCapabilities, synced.customCapabilities)
    && Blank(seen.health, synced.health)
    && Blank(seen.remoteConfigStatus, synced.remoteConfigStatus)
    && Blank(seen.packageStatuses, synced.packageStatuses)
  }

  /** A restarted server that remembers nothing. */
  predicate Clean(action: Action) {
    action.Restart? ==> action.memory == NO_DATA
  }

  lemma {:induction false} CallsKeepBlank(s: Client, calls: seq<Setter>, seen: Data)
    requires BlankWhereUnset(seen, s.synced)
    ensures BlankWhereUnset(seen, CallAll(s, calls).synced)
    decreases |calls|
  {
    if calls != [] {
      CallsKeepBlank(s, calls[..|calls| - 1], seen);
      match calls[|calls| - 1] { case _ => }
    }
  }

  lemma ActionKeepsBlank(w: World, action: Action)
    requires Inv(w) && Can(w, action) && Clean(action)
    requires BlankWhereUnset(Seen(w), w.client.synced) && BlankWhereUnset(w.server.view, w.client.synced)
    requires w.flight.Request? ==> BlankWhereUnset(Merge(NO_DATA, w.flight.msg), w.client.synced)
    ensures var v := Do(w, action);
      && BlankWhereUnset(Seen(v), v.client.synced) && BlankWhereUnset(v.server.view, v.client.synced)
      && (v.flight.Request? ==> BlankWhereUnset(Merge(NO_DATA, v.flight.msg), v.client.synced))
  {
    match action {
      case Set(c) =>
        assert CallAll(w.client, [c]) == Call(w.client, c);
        CallsKeepBlank(w.client, [c], Seen(w));
        CallsKeepBlank(w.client, [c], w.server.view);
        if w.flight.Request? { CallsKeepBlank(w.client, [c], Merge(NO_DATA, w.flight.msg)); }
      case Handle(calls, config) =>
        ReceiveKeepsCoupling(w.client, w.flight.resp, calls, config);
        CallsKeepBlank(w.client, calls, w.server.view);
      case _ =>
    }
  }

  lemma {:induction false} RunKeepsBlank(w: World, actions: seq<Action>)
    requires Inv(w) && IsRun(w, actions) && (forall i :: 0 <= i < |actions| ==> Clean(actions[i]))
    requires BlankWhereUnset(Seen(w), w.client.synced) && BlankWhereUnset(w.server.view, w.client.synced)
    requires w.flight.Request? ==> BlankWhereUnset(Merge(NO_DATA, w.flight.msg), w.client.synced)
    ensures var v := After(w, actions);
      BlankWhereUnset(v.server.view, v.client.synced)
    decreases |actions|
  {
    if actions != [] {
      ActionKeepsInv(w, actions[0]);
      ActionKeepsBlank(w, actions[0]);
      RunKeepsBlank(Do(w, actions[0]), actions[1..]);
    }
  }

  /** A server that started out blank and restarts blank never sees a field that
      the agent has not set. */
  lemma {:induction false} NothingInvented(settings: StartSettings, actions: seq<Action>)
    requires IsRun(Begin(settings, NO_DATA), actions) && (forall i :: 0 <= i < |actions| ==> Clean(actions[i]))
    ensures var w := After(Begin(settings, NO_DATA), actions);
      BlankWhereUnset(w.server.view, w.client.synced)
  {
    BeginHasInv(settings, NO_DATA);
    RunKeepsBlank(Begin(settings, NO_DATA), actions);
  }

  // ----- The first message -----

  /** The first message tells everything about the start: the identity, exactly the
      listed capabilities, and the whole synced state, from which the attributes
      of the agent can be read back. */
  lemma FirstMessageIsFull(settings: StartSettings, caps: seq<AgentCapability>, c: AgentCapability)
    requires settings.capabilities == New(caps)
    ensures var (m, synced) := (Stamp(Start(settings).next), Start(settings).synced);
      && m.sequenceNum == 1 && m.instanceUid == settings.instanceUid
      && (Carries(m.capabilities, c.Bit()) <==> c in caps && c != Unspecified)
      && Reports(Merge(NO_DATA, m), synced) && BlankWhereUnset(Merge(NO_DATA, m), synced)
      && (synced.agentDescription.None? <==> settings.agentDescription.IsEmpty())
      && (synced.agentDescription.Some? ==>
            ReadBack(synced.agentDescription.value.identifyingAttributes) ==
              (map key | key in settings.agentDescription.identifying.entries ::
                 Some(settings.agentDescription.identifying.entries[key])))
      && (synced.agentDescription.Some? ==>
            ReadBack(synced.agentDescription.value.nonIdentifyingAttributes) ==
              (map key | key in settings.agentDescription.nonIdentifying.entries ::
                 Some(settings.agentDescription.nonIdentifying.entries[key])))
      && synced.customCapabilities == settings.customCapabilities
      && m.customCapabilities == settings.customCapabilities
      && m.agentDescription.Some? && (synced.agentDescription.None? ==> m.agentDescription.value.HasNoAttributes())
      && m.health.None? && m.effectiveConfig.None? && m.remoteConfigStatus.None? && m.packageStatuses.None?
      && m.agentDisconnect.None?
      && synced.health.None? && synced.remoteConfigStatus.None? && synced.packageStatuses.None?
  {
    SentBitsAreListedBits(caps, c);
    StartIsValid(settings);
    EmptyIffNoAttributes(settings.agentDescription);
    ListingRoundTrip(settings.agentDescription.identifying);
    ListingRoundTrip(settings.agentDescription.nonIdentifying);
  }

  // ----- Why a command must travel alone -----

  /** An obeyed command hides everything else in its answer: only the callback's
      calls reach the client. A request for full state is thus met exactly if no
      command was obeyed, or if those calls happen to leave a full message. */
  lemma {:induction false} CommandHidesRequest(s: Client, resp: ServerToAgent, calls: seq<Setter>,
                                               config: Option<EffectiveConfig>)
    ensures ObeysCommand(s.capabilities, resp) ==> Receive(s, resp, calls, config) == CallAll(s, calls)
    ensures AsksFullState(resp.flags) ==>
      (Full(Receive(s, resp, calls, config).next, CallAll(s, calls).synced) <==>
         !ObeysCommand(s.capabilities, resp) || Full(CallAll(s, calls).next, CallAll(s, calls).synced))
  {
    if !ObeysCommand(s.capabilities, resp) {
      SyncedIgnoresNext(s, s.(next := Identify(s.next, resp)), calls);
    }
  }
}
