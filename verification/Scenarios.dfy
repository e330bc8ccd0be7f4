/** Runs from the start, without any loss, that end in a difference between client
    and server of which neither knows. */
module Scenarios {
  import opened Proto
  import opened Settings
  import opened Status
  import opened Interleaving
  import opened Overlap
  import opened Replication
  import opened EndToEnd
  import opened Unnoticed

  // ----- One exchange -----

  /** One message is taken, received, and answered, and the answer is processed by
      a silent callback. */
  function Exchange(after: Server, reply: ServerToAgent): seq<NetEvent> {
    [Local(Pop)] + ([Arrive(after, reply)] + [NetEvent.Respond]) + Locals([CallbackReturns, Dispatch, CallbackReturns])
  }

  /** The client after an exchange in which nobody set anything. */
  function Answered(s: Sys, reply: ServerToAgent): Sys {
    s.(client := AfterPop(s.client),
       log := s.log + [Stamp(s.client.next)],
       poller := if AsksFullState(reply.flags) then Reading(0, NO_DATA) else Selecting,
       started := s.started || !AsksFullState(reply.flags))
  }

  /** The message has been taken and received. */
  function Received(n: Net, after: Server, reply: ServerToAgent): Net {
    Net(n.sys.(client := AfterPop(n.sys.client), log := n.sys.log + [Stamp(n.sys.client.next)], poller := Sending),
        false, None, n.tagged || HoldsAll(n.sys.client), Some(reply), after, 0)
  }

  lemma MessageIsReceived(n: Net, after: Server, reply: ServerToAgent)
    requires n.sys.poller.Popping? && n.flight.None?
    requires Absorbs(n.server, Stamp(n.sys.client.next), n.tagged || HoldsAll(n.sys.client), after)
    requires Answers(after, reply)
    ensures NetEnabled(n, Local(Pop)) && NetEnabled(NetStep(n, Local(Pop)), Arrive(after, reply))
    ensures NetStep(NetStep(n, Local(Pop)), Arrive(after, reply)) == Received(n, after, reply)
  {
  }

  lemma {:induction false} ExchangeStarts(n: Net, after: Server, reply: ServerToAgent)
    requires n.sys.poller.Popping? && n.flight.None?
    requires Absorbs(n.server, Stamp(n.sys.client.next), n.tagged || HoldsAll(n.sys.client), after)
    requires Answers(after, reply)
    ensures var m := NetAfter(n, [Local(Pop)] + ([Arrive(after, reply)] + [NetEvent.Respond]));
      && m == Net(m.sys, false, None, m.full, None, after, 0)
      && m.sys == n.sys.(client := AfterPop(n.sys.client), log := n.sys.log + [Stamp(n.sys.client.next)],
                         poller := InCallback(ToProcess(reply), Done))
  {
    MessageIsReceived(n, after, reply);
    NetFirst(n, Local(Pop), [Arrive(after, reply)] + [NetEvent.Respond]);
    NetFirst(NetStep(n, Local(Pop)), Arrive(after, reply), [NetEvent.Respond]);
    NetOne(Received(n, after, reply), NetEvent.Respond);
  }

  lemma {:induction false} ExchangeRuns(n: Net, after: Server, reply: ServerToAgent)
    requires n.sys.poller.Popping? && n.flight.None?
    requires reply == PLAIN || reply == ASKING
    requires Absorbs(n.server, Stamp(n.sys.client.next), n.tagged || HoldsAll(n.sys.client), after)
    requires Answers(after, reply)
    ensures var m := NetAfter(n, Exchange(after, reply));
      m == Net(Answered(n.sys, reply), false, None, m.full, None, after, 0)
  {
    var start := [Local(Pop)] + ([Arrive(after, reply)] + [NetEvent.Respond]);
    var es := [CallbackReturns, Dispatch, CallbackReturns];
    ExchangeStarts(n, after, reply);
    NetAppend(n, start, Locals(es));
    LocalRun(NetAfter(n, start), es);
    ProcessedQuietly(NetAfter(n, start).sys, reply);
  }

  lemma {:induction false} ProcessedQuietly(s: Sys, reply: ServerToAgent)
    requires s.poller == InCallback(ToProcess(reply), Done) && (reply == PLAIN || reply == ASKING)
    ensures Interleaving.After(s, [CallbackReturns, Dispatch, CallbackReturns]) ==
      s.(poller := if AsksFullState(reply.flags) then Reading(0, NO_DATA) else Selecting,
         started := s.started || !AsksFullState(reply.flags))
  {
    var es := [CallbackReturns, Dispatch, CallbackReturns];
    ConnectReturns(s, reply);
    DispatchedPlainly(s.(poller := Processing(reply)), reply);
    MessageReturns(s.(poller := InCallback(ToFlags(reply.flags), Done)), reply.flags);
    AfterThree(s, [], CallbackReturns, Dispatch, CallbackReturns);
    assert [] + es == es;
  }

  lemma ConnectReturns(s: Sys, reply: ServerToAgent)
    requires s.poller == InCallback(ToProcess(reply), Done)
    ensures Try(s, CallbackReturns) == s.(poller := Processing(reply))
  {
  }

  lemma DispatchedPlainly(s: Sys, reply: ServerToAgent)
    requires s.poller == Processing(reply) && (reply == PLAIN || reply == ASKING)
    ensures Try(s, Dispatch) == s.(poller := InCallback(ToFlags(reply.flags), Done))
  {
    assert Identify(s.client.next, reply) == s.client.next;
  }

  lemma MessageReturns(s: Sys, flags: bv64)
    requires s.poller == InCallback(ToFlags(flags), Done)
    ensures Try(s, CallbackReturns) ==
      s.(poller := if AsksFullState(flags) then Reading(0, NO_DATA) else Selecting,
         started := s.started || !AsksFullState(flags))
  {
  }

  /** A scheduled report comes due. */
  function Ticking(): seq<NetEvent> {
    Locals([PassExit, PassPending, Tick])
  }

  lemma {:induction false} Ticks(n: Net)
    requires n.sys.poller.Selecting? && !n.sys.closing && n.sys.client.mailbox.tokens == 0
    ensures NetAfter(n, Ticking()) == n.(sys := n.sys.(poller := Popping)) && Lossless(Ticking())
  {
    var es := [PassExit, PassPending, Tick];
    AfterThree(n.sys, [], PassExit, PassPending, Tick);
    assert [] + es == es;
    LocalRun(n, es);
  }

  lemma {:induction false} ThenTicks(n: Net, evs: seq<NetEvent>)
    requires var s := NetAfter(n, evs).sys; s.poller.Selecting? && !s.closing && s.client.mailbox.tokens == 0
    ensures Lossless(Ticking())
    ensures var m := NetAfter(n, evs);
      NetAfter(n, evs + Ticking()) == m.(sys := m.sys.(poller := Popping))
  {
    Ticks(NetAfter(n, evs));
    NetAppend(n, evs, Ticking());
  }

  function Greeting(settings: StartSettings, memory: Data): seq<NetEvent> {
    Exchange(Next(Server(false, 0, memory, false), Stamp(Start(settings).next), false), PLAIN)
  }

  /** After the first exchange the client is started and idle. */
  lemma GreetingRuns(settings: StartSettings, memory: Data)
    ensures var n := NetAfter(NetInit(settings, memory), Greeting(settings, memory));
      && n.sys == Answered(Interleaving.Init(settings), PLAIN) && n.flight.None? && n.answer.None?
      && n.lost == 0 && n.server == Next(Server(false, 0, memory, false), Stamp(Start(settings).next), false)
    ensures Lossless(Greeting(settings, memory))
  {
    ExchangeRuns(NetInit(settings, memory), Next(Server(false, 0, memory, false), Stamp(Start(settings).next), false),
                 PLAIN);
  }

  // ----- Two setters -----

  function Overlapping(a: CustomCapabilities, b: CustomCapabilities): seq<NetEvent> {
    Locals(OverlapEvents(SetCustomCapabilities(a), SetCustomCapabilities(b)))
  }

  /** One setter is midway, the other about to write. */
  function Overlapped(s: Sys, a: CustomCapabilities, b: CustomCapabilities): Sys {
    s.(threads := map[1 := Updating(SetCustomCapabilities(a)), 2 := Writing(SetCustomCapabilities(b))],
       client := s.client.(synced := s.client.synced.(customCapabilities := Some(a))))
  }

  lemma {:induction false} Overlaps(n: Net, a: CustomCapabilities, b: CustomCapabilities)
    requires n.sys.threads == map[] && n.sys.started && !n.sys.closing && a != b
    requires n.sys.client.synced.customCapabilities != Some(a) && n.sys.client.synced.customCapabilities != Some(b)
    ensures NetAfter(n, Overlapping(a, b)) == n.(sys := Overlapped(n.sys, a, b)) && Lossless(Overlapping(a, b))
  {
    LocalRun(n, OverlapEvents(SetCustomCapabilities(a), SetCustomCapabilities(b)));
    OverlapEventsFromIdle(n.sys, a, b);
  }

  /** The client has been started, one setter is midway, the other about to write. */
  lemma ReadyToDiverge(settings: StartSettings, n: Net, a: CustomCapabilities, b: CustomCapabilities)
    requires a != b && n.sys == Overlapped(Answered(Interleaving.Init(settings), PLAIN), a, b)
    requires n.flight.None? && n.server.known && n.lost == 0
    requires n.server.lastNum == Successor(0)
    ensures Owned(n.sys) && NetNumbered(n) && ThreadsCurrent(n.sys, Custom)
    ensures ThreadMidway(n.sys, Custom) && Rewrites(n.sys, Advance(2), Custom)
    ensures var v := Step(n.sys, Advance(2));
      && OnlyMidway(v, Custom) && !MayWrite(v.poller, Custom)
      && v.client.synced.customCapabilities == Some(b) && n.sys.client.synced.customCapabilities == Some(a)
  {
    assert n.sys.threads[1] == Updating(SetCustomCapabilities(a));
    assert Midway(n.sys.threads[1], Custom);
  }

  /** From every start, and whatever the server remembers, without any loss: two
      setters that run at the same time leave a server that follows the rules
      with the value of the one and the client with that of the other, for good. */
  lemma ServerIsLeftBehind(settings: StartSettings, memory: Data, a: CustomCapabilities, b: CustomCapabilities)
    returns (evs: seq<NetEvent>)
    requires a != b && settings.customCapabilities != Some(a) && settings.customCapabilities != Some(b)
    ensures Lossless(evs)
    ensures var n := NetAfter(NetInit(settings, memory), evs);
      && Stuck(n, Custom) && ApartForGood(n, Custom)
      && n.server.view.customCapabilities == Some(a) && n.sys.client.synced.customCapabilities == Some(b)
  {
    var init, start := NetInit(settings, memory), Greeting(settings, memory);
    GreetingRuns(settings, memory);
    var rest := OverlapsAndDiverges(NetAfter(init, start), settings, a, b);
    NetAppend(init, start, rest);
    evs := start + rest;
    StuckIsForGood(NetAfter(init, evs), Custom);
  }

  lemma OverlapsAndDiverges(n: Net, settings: StartSettings, a: CustomCapabilities, b: CustomCapabilities)
    returns (evs: seq<NetEvent>)
    requires a != b && settings.customCapabilities != Some(a) && settings.customCapabilities != Some(b)
    requires n.sys == Answered(Interleaving.Init(settings), PLAIN)
    requires n.flight.None? && n.server.known && n.lost == 0 && n.server.lastNum == Successor(0)
    ensures Lossless(evs)
    ensures var m := NetAfter(n, evs);
      && Stuck(m, Custom)
      && m.server.view.customCapabilities == Some(a) && m.sys.client.synced.customCapabilities == Some(b)
  {
    Overlaps(n, a, b);
    var rest := Diverges(NetAfter(n, Overlapping(a, b)), settings, a, b);
    NetAppend(n, Overlapping(a, b), rest);
    evs := Overlapping(a, b) + rest;
  }

  lemma Diverges(n: Net, settings: StartSettings, a: CustomCapabilities, b: CustomCapabilities)
    returns (evs: seq<NetEvent>)
    requires a != b && n.sys == Overlapped(Answered(Interleaving.Init(settings), PLAIN), a, b)
    requires n.flight.None? && n.server.known && n.lost == 0 && n.server.lastNum == Successor(0)
    ensures Lossless(evs)
    ensures var m := NetAfter(n, evs);
      && Stuck(m, Custom)
      && m.server.view.customCapabilities == Some(a) && m.sys.client.synced.customCapabilities == Some(b)
  {
    ReadyToDiverge(settings, n, a, b);
    var rest := OverlapIsMissed(n, Advance(2), Custom);
    NetFirst(n, Local(Advance(2)), rest);
    evs := [Local(Advance(2))] + rest;
  }

  // ----- A setter and a refill -----

  function Begins(c: CustomCapabilities): seq<Event> {
    [Begin(1, SetCustomCapabilities(c)), Advance(1)]
  }

  lemma {:induction false} BeginsToWrite(s: Sys, c: CustomCapabilities)
    requires s.threads == map[] && s.started && !s.closing
    requires s.client.synced.customCapabilities != Some(c)
    ensures Interleaving.After(s, Begins(c)) == s.(threads := map[1 := Writing(SetCustomCapabilities(c))])
  {
    var es := Begins(c);
    AfterTwo(s, [], es[0], es[1]);
    assert [] + es == es;
  }

  lemma {:induction false} NetBegins(n: Net, c: CustomCapabilities)
    requires n.sys.threads == map[] && n.sys.started && !n.sys.closing
    requires n.sys.client.synced.customCapabilities != Some(c)
    ensures Lossless(Locals(Begins(c)))
    ensures NetAfter(n, Locals(Begins(c))) == n.(sys := n.sys.(threads := map[1 := Writing(SetCustomCapabilities(c))]))
  {
    LocalRun(n, Begins(c));
    BeginsToWrite(n.sys, c);
  }

  function Reads(): seq<NetEvent> {
    Locals([ReadField, ReadField, ReadField] + [ReadField, ReadField])
  }

  lemma {:induction false} NetReads(n: Net)
    requires n.sys.poller == Reading(0, NO_DATA)
    ensures Lossless(Reads())
    ensures NetAfter(n, Reads()) == n.(sys := n.sys.(poller := Refilling(n.sys.client.synced)))
  {
    var three, two := [ReadField, ReadField, ReadField], [ReadField, ReadField];
    LocalRun(n, three + two);
    AfterThree(n.sys, [], ReadField, ReadField, ReadField);
    assert [] + three == three;
    AfterTwo(n.sys, three, ReadField, ReadField);
    FiveReads(n.sys);
  }

  lemma {:induction false} ThenReads(n: Net, evs: seq<NetEvent>)
    requires NetAfter(n, evs).sys.poller == Reading(0, NO_DATA)
    ensures Lossless(Reads())
    ensures var m := NetAfter(n, evs);
      NetAfter(n, evs + Reads()) == m.(sys := m.sys.(poller := Refilling(m.sys.client.synced)))
  {
    NetReads(NetAfter(n, evs));
    NetAppend(n, evs, Reads());
  }

  /** The client has been started, one setter is about to write, and a poll is due. */
  function SettingAndPolling(settings: StartSettings, c: CustomCapabilities): Sys {
    Answered(Interleaving.Init(settings), PLAIN).(
      threads := map[1 := Writing(SetCustomCapabilities(c))], poller := Popping)
  }

  function StartsSetting(settings: StartSettings, memory: Data, c: CustomCapabilities): seq<NetEvent> {
    Greeting(settings, memory) + BeginsAndTicks(c)
  }

  function BeginsAndTicks(c: CustomCapabilities): seq<NetEvent> {
    Locals(Begins(c)) + Ticking()
  }

  lemma {:induction false} NetBeginsAndTicks(n: Net, c: CustomCapabilities)
    requires n.sys.threads == map[] && n.sys.started && !n.sys.closing
    requires n.sys.poller.Selecting? && n.sys.client.mailbox.tokens == 0
    requires n.sys.client.synced.customCapabilities != Some(c)
    ensures Lossless(BeginsAndTicks(c))
    ensures NetAfter(n, BeginsAndTicks(c)) ==
      n.(sys := n.sys.(threads := map[1 := Writing(SetCustomCapabilities(c))], poller := Popping))
  {
    NetBegins(n, c);
    ThenTicks(n, Locals(Begins(c)));
  }

  lemma StartsSettingRuns(settings: StartSettings, memory: Data, c: CustomCapabilities)
    requires settings.customCapabilities != Some(c)
    ensures Lossless(StartsSetting(settings, memory, c))
    ensures var n := NetAfter(NetInit(settings, memory), StartsSetting(settings, memory, c));
      && n.sys == SettingAndPolling(settings, c) && n.flight.None? && n.lost == 0
      && n.server == Next(Server(false, 0, memory, false), Stamp(Start(settings).next), false)
  {
    var init := NetInit(settings, memory);
    GreetingRuns(settings, memory);
    NetBeginsAndTicks(NetAfter(init, Greeting(settings, memory)), c);
    NetAppend(init, Greeting(settings, memory), BeginsAndTicks(c));
  }

  /** A refill has read the whole state, and a setter is about to write its field. */
  ghost predicate AboutToBeOvertaken(n: Net, settings: StartSettings, memory: Data, c: CustomCapabilities) {
    && Tracked(n) && n.server.asking
    && n.sys.threads == map[1 := Writing(SetCustomCapabilities(c))]
    && n.sys.client.synced == InitialData(settings)
    && n.sys.poller == Refilling(n.sys.client.synced)
    && n.server.view.customCapabilities == Overlay(memory.customCapabilities, settings.customCapabilities)
  }

  lemma AskedState(n: Net, settings: StartSettings, memory: Data, c: CustomCapabilities)
    requires n.sys == Answered(SettingAndPolling(settings, c), ASKING).(poller := Refilling(n.sys.client.synced))
    requires n.flight.None? && n.lost == 0 && !n.tagged
    requires n.server == Next(Next(Server(false, 0, memory, false), Stamp(Start(settings).next), false),
                              Stamp(AfterPop(Start(settings)).next), true)
    ensures AboutToBeOvertaken(n, settings, memory, c)
  {
    assert AsksFullState(ASKING.flags);
  }

  /** A poll whose answer asks for full state, and the reading of that. */
  function IsAsked(after: Server): seq<NetEvent> {
    Exchange(after, ASKING) + Reads()
  }

  lemma {:induction false} ExchangeAsks(n: Net, after: Server)
    requires n.sys.poller.Popping? && n.flight.None? && after.asking
    requires Absorbs(n.server, Stamp(n.sys.client.next), n.tagged || HoldsAll(n.sys.client), after)
    ensures Lossless(Exchange(after, ASKING))
    ensures var m := NetAfter(n, Exchange(after, ASKING));
      && m == Net(m.sys, false, None, m.full, None, after, 0)
      && m.sys == Answered(n.sys, ASKING) && m.sys.poller == Reading(0, NO_DATA)
  {
    assert AsksFullState(ASKING.flags);
    ExchangeRuns(n, after, ASKING);
  }

  lemma {:induction false} IsAskedRuns(n: Net, after: Server)
    requires n.sys.poller.Popping? && n.flight.None? && after.asking
    requires Absorbs(n.server, Stamp(n.sys.client.next), n.tagged || HoldsAll(n.sys.client), after)
    ensures Lossless(IsAsked(after))
    ensures var m := NetAfter(n, IsAsked(after));
      && m == Net(m.sys, false, None, m.full, None, after, 0)
      && m.sys == Answered(n.sys, ASKING).(poller := Refilling(m.sys.client.synced))
  {
    ExchangeAsks(n, after);
    ThenReads(n, Exchange(after, ASKING));
  }

  /** The client has the new value, the server what it knew before. */
  ghost predicate LeftBehind(n: Net, settings: StartSettings, memory: Data, c: CustomCapabilities) {
    && Stuck(n, Custom) && ApartForGood(n, Custom)
    && n.sys.client.synced.customCapabilities == Some(c)
    && n.server.view.customCapabilities == Overlay(memory.customCapabilities, settings.customCapabilities)
  }

  /** From every start, without any loss: a refill that a setter overtakes leaves a
      server that stops asking on the report it asked for without the value set,
      for good. */
  lemma RefillLeavesServerBehind(settings: StartSettings, memory: Data, c: CustomCapabilities)
    returns (evs: seq<NetEvent>)
    requires settings.customCapabilities != Some(c)
    requires settings.customCapabilities.Some? || memory.customCapabilities != Some(c)
    ensures Lossless(evs)
    ensures LeftBehind(NetAfter(NetInit(settings, memory), evs), settings, memory, c)
  {
    var init, start := NetInit(settings, memory), StartsSetting(settings, memory, c);
    StartsSettingRuns(settings, memory, c);
    var rest := IsAskedAndOvertaken(NetAfter(init, start), settings, memory, c);
    NetAppend(init, start, rest);
    evs := start + rest;
  }

  lemma IsAskedAndOvertaken(n: Net, settings: StartSettings, memory: Data, c: CustomCapabilities)
    returns (evs: seq<NetEvent>)
    requires n.sys == SettingAndPolling(settings, c) && n.flight.None? && n.lost == 0
    requires n.server == Next(Server(false, 0, memory, false), Stamp(Start(settings).next), false)
    requires settings.customCapabilities != Some(c)
    requires settings.customCapabilities.Some? || memory.customCapabilities != Some(c)
    ensures Lossless(evs)
    ensures LeftBehind(NetAfter(n, evs), settings, memory, c)
  {
    var after := Next(n.server, Stamp(n.sys.client.next), true);
    IsAskedRuns(n, after);
    var m := NetAfter(n, IsAsked(after));
    AskedState(m, settings, memory, c);
    var rest := IsOvertaken(m, settings, memory, c);
    NetAppend(n, IsAsked(after), rest);
    evs := IsAsked(after) + rest;
  }

  lemma IsOvertaken(n: Net, settings: StartSettings, memory: Data, c: CustomCapabilities) returns (evs: seq<NetEvent>)
    requires AboutToBeOvertaken(n, settings, memory, c)
    requires settings.customCapabilities != Some(c)
    requires settings.customCapabilities.Some? || memory.customCapabilities != Some(c)
    ensures Lossless(evs)
    ensures LeftBehind(NetAfter(n, evs), settings, memory, c)
  {
    var rest := RefillIsMissed(n, 1, Custom);
    NetFirst(n, Local(Advance(1)), rest);
    evs := [Local(Advance(1))] + rest;
    StuckIsForGood(NetAfter(n, evs), Custom);
  }
}
