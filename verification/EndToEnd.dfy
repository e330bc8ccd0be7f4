/** All interleavings of setters and polling thread, together with the lossy
    channel and the server: the guarantee of `Replication` without assuming that
    a call runs uninterrupted. */
module EndToEnd {
  import opened Proto
  import opened Settings
  import opened Status
  import opened Interleaving
  import opened Overlap
  import opened Replication

  /** `tagged` while the next message is the first one or has been refilled;
      `flight` is a message handed out and not yet received or lost, `full`
      whether it counts as a report of full state. */
  datatype Net = Net(
    sys: Sys,
    tagged: bool,
    flight: Option<AgentToServer>,
    full: bool,
    answer: Option<ServerToAgent>,
    server: Server,
    lost: nat)

  datatype NetEvent =
    | Local(e: Event)
    | Arrive(after: Server, reply: ServerToAgent)
    | Fail(abort: bool)
    | Respond
    | Reboot(memory: Data)

  function NetInit(settings: StartSettings, memory: Data): Net {
    Net(Interleaving.Init(settings), true, None, false, None, Server(false, 0, memory, false), 0)
  }

  /** What happens inside the client without the network. */
  predicate Inside(e: Event) {
    !e.SendFails? && !e.Respond? && !e.StartFails?
  }

  ghost predicate NetEnabled(n: Net, ev: NetEvent) {
    match ev
    case Local(e) => Inside(e) && Enabled(n.sys, e)
    case Arrive(after, reply) =>
      n.flight.Some? && Absorbs(n.server, n.flight.value, n.full, after) && Answers(after, reply)
    case Fail(abort) =>
      n.sys.poller.Sending? && (abort ==> !n.sys.started) && n.lost + 1 < U64_RANGE
    case Respond => n.sys.poller.Sending? && n.flight.None? && n.answer.Some?
    case Reboot(_) => true
  }

  /** The client's share of an event. */
  function Projection(n: Net, ev: NetEvent): Option<Event> {
    match ev
    case Local(e) => Some(e)
    case Fail(abort) => Some(if abort then StartFails else SendFails)
    case Respond => if n.answer.Some? then Some(Event.Respond(n.answer.value)) else None
    case _ => None
  }

  function NetStep(n: Net, ev: NetEvent): Net {
    var sys := match Projection(n, ev) case Some(e) => Try(n.sys, e) case None => n.sys;
    match ev
    case Local(e) =>
      if HandsOut(n.sys, e) then
        n.(sys := sys, tagged := false, flight := Some(Handed(n.sys, e)),
           full := n.tagged || HoldsAll(n.sys.client), answer := None)
      else n.(sys := sys, tagged := n.tagged || e.PutFull?)
    case Arrive(after, reply) => n.(flight := None, answer := Some(reply), server := after, lost := 0)
    case Fail(_) => n.(sys := sys, flight := None, answer := None, lost := n.lost + if n.flight.Some? then 1 else 0)
    case Respond => n.(sys := sys, answer := None)
    case Reboot(memory) => n.(server := Server(false, 0, memory, false))
  }

  predicate HoldsAll(c: Client) {
    forall f: Field :: HasValueOn(c.synced, f) ==> ReportsOn(c.next, c.synced, f)
  }

  ghost function NetAfter(n: Net, evs: seq<NetEvent>): Net
    decreases |evs|
  {
    if evs == [] then n
    else
      var m := NetAfter(n, evs[..|evs| - 1]);
      if NetEnabled(m, evs[|evs| - 1]) then NetStep(m, evs[|evs| - 1]) else m
  }

  ghost predicate NetDisturbs(n: Net, ev: NetEvent, f: Field) {
    ev.Local? && Disturbs(n.sys, ev.e, f)
  }

  ghost predicate NetNoDisturb(n: Net, evs: seq<NetEvent>, f: Field)
    decreases |evs|
  {
    evs == [] || (
      && NetNoDisturb(n, evs[..|evs| - 1], f)
      && !NetDisturbs(NetAfter(n, evs[..|evs| - 1]), evs[|evs| - 1], f))
  }

  /** The event changes the stored value while a thread is midway on the field, or
      after a full-state answer has read it, or, with a server that suspects
      nothing, while a callback is midway on it. With an alarmed server the last
      is harmless: it keeps asking, and no message is taken before the callback
      has ended and the full-state answer has been made. */
  ghost predicate Endangers(n: Net, ev: NetEvent, f: Field) {
    && ev.Local? && Rewrites(n.sys, ev.e, f)
    && (|| ThreadMidway(n.sys, f)
        || HasRead(n.sys.poller, f)
        || (PollerMidway(n.sys.poller, f) && !NetAlarmed(n)))
  }

  ghost predicate NetSafe(n: Net, evs: seq<NetEvent>, f: Field)
    decreases |evs|
  {
    evs == [] || (
      && NetSafe(n, evs[..|evs| - 1], f)
      && !Endangers(NetAfter(n, evs[..|evs| - 1]), evs[|evs| - 1], f))
  }

  // ----- The invariant -----

  ghost predicate SettledOn(next: AgentToServer, synced: Data, seen: Data, f: Field) {
    HasValueOn(synced, f) ==> ReportsOn(next, synced, f) || SameOn(seen, synced, f)
  }

  /** The value, once set, is what the server sees once it has the next message. */
  ghost predicate WillBeSeen(next: AgentToServer, synced: Data, seen: Data, f: Field) {
    HasValueOn(synced, f) ==> SameOn(Merge(seen, next), synced, f)
  }

  ghost predicate Fine(s: Sys, seen: Data, f: Field) {
    Busy(s, f) || WillBeSeen(s.client.next, s.client.synced, seen, f)
  }

  function NetSeen(n: Net): Data {
    if n.flight.Some? then Merge(n.server.view, n.flight.value) else n.server.view
  }

  function NetNextNumber(n: Net): u64 {
    if n.flight.Some? then n.flight.value.sequenceNum else Successor(n.sys.client.next.sequenceNum)
  }

  ghost predicate NetNumbered(n: Net) {
    && (n.server.known ==>
          n.sys.client.next.sequenceNum == Later(n.server.lastNum, n.lost + if n.flight.Some? then 1 else 0))
    && (n.flight.Some? ==> n.flight.value.sequenceNum == n.sys.client.next.sequenceNum)
    && (n.flight.Some? ==> n.sys.poller.Sending? || n.sys.dropped)
    && n.lost < U64_RANGE
  }

  ghost predicate NetAlarmed(n: Net) {
    n.server.asking || NoticesGap(n.server, NetNextNumber(n))
  }

  /** An answer that asks for full state is being processed, and no command keeps the
      client from doing so. */
  predicate RefillComing(s: Sys) {
    match s.poller
    case InCallback(ToProcess(resp), _) => Refills(s.client, resp)
    case Processing(resp) => Refills(s.client, resp)
    case InCallback(ToFlags(flags), _) => AsksFullState(flags)
    case Reading(_, _) => true
    case Refilling(_) => true
    case _ => false
  }

  /** Between a refill and the taking of the message. */
  predicate BeforePoll(p: Poller) {
    p.Resending? || p.Selecting? || p.AtPending? || p.AtTicker? || p.Popping? || p.Stopped?
  }

  /** A request is being answered, the server that asked for full state goes on
      asking or has been restarted, and the refilled message is taken next. */
  ghost predicate Tracked(n: Net) {
    && Owned(n.sys) && NetNumbered(n)
    && (n.sys.poller.Sending? ==> n.flight.Some? || n.answer.Some?)
    && (RefillComing(n.sys) || (n.answer.Some? && AsksFullState(n.answer.value.flags)) ==>
          n.server.asking || !n.server.known)
    && (n.tagged ==> BeforePoll(n.sys.poller))
  }

  ghost predicate NetInv(n: Net, f: Field) {
    && Tracked(n)
    && ThreadsCurrent(n.sys, f) && ReadIsCurrent(n.sys, f)
    && (NetAlarmed(n) || PollerCurrent(n.sys, f))
    && (NetAlarmed(n) || Fine(n.sys, NetSeen(n), f))
    && (n.tagged ==> Fine(n.sys, NO_DATA, f))
    && (n.flight.Some? && n.full ==> Fine(n.sys, Merge(NO_DATA, n.flight.value), f))
  }

  lemma NetAlarmIffOwed(n: Net)
    requires NetNumbered(n)
    ensures NetAlarmed(n) <==> n.server.asking || !n.server.known || n.lost > 0
  {
  }

  // ----- Steps inside the client -----

  /** Putting the stored value makes it come out. */
  lemma PutIsSeen(next: AgentToServer, synced: Data, c: Setter, seen: Data, f: Field)
    requires On(c, f) && Stored(synced, c)
    ensures WillBeSeen(Put(next, c), synced, seen, f)
  {
  }

  lemma PutElsewhereIsSeen(next: AgentToServer, synced: Data, c: Setter, seen: Data, f: Field)
    requires !On(c, f) && WillBeSeen(next, synced, seen, f)
    ensures WillBeSeen(Put(next, c), synced, seen, f)
    ensures WillBeSeen(next, Store(synced, c), seen, f)
  {
  }

  lemma OpKeepsSeen(s: Client, op: Op, seen: Data, f: Field)
    requires !op.Done? && (Midway(op, f) ==> Stored(s.synced, op.c))
    requires Midway(op, f) || WillBeSeen(s.next, s.synced, seen, f)
    ensures Midway(OpNext(s, op), f) || WillBeSeen(OpEffect(s, op).next, OpEffect(s, op).synced, seen, f)
  {
    if op.Updating? || op.Writing? {
      if !On(op.c, f) {
        PutElsewhereIsSeen(s.next, s.synced, op.c, seen, f);
      } else if op.Updating? {
        PutIsSeen(s.next, s.synced, op.c, seen, f);
      }
    }
  }

  lemma AdvanceKeepsFine(s: Sys, t: nat, seen: Data, f: Field)
    requires ThreadsCurrent(s, f) && Enabled(s, Advance(t)) && Fine(s, seen, f)
    ensures Fine(Step(s, Advance(t)), seen, f)
  {
    var v := Step(s, Advance(t));
    OthersStay(s, Advance(t), t, f);
    if u :| u in s.threads && u != t && Midway(s.threads[u], f) {
      assert Midway(v.threads[u], f);
    } else if PollerMidway(s.poller, f) {
    } else {
      OpKeepsSeen(s.client, s.threads[t], seen, f);
      assert v.threads[t] == OpNext(s.client, s.threads[t]);
    }
  }

  lemma CallbackKeepsFine(s: Sys, seen: Data, f: Field)
    requires PollerCurrent(s, f) && Enabled(s, CallbackAdvances) && Fine(s, seen, f)
    ensures Fine(Step(s, CallbackAdvances), seen, f)
  {
    var v := Step(s, CallbackAdvances);
    if u :| u in s.threads && Midway(s.threads[u], f) {
      assert Midway(v.threads[u], f);
    } else {
      OpKeepsSeen(s.client, s.poller.op, seen, f);
    }
  }

  /** Events other than the handing out of a message leave the five fields of the
      message alone, unless they belong to a setter or a refill. */
  lemma QuietKeepsReports(s: Sys, e: Event)
    requires Enabled(s, e) && Quiet(e) && !HandsOut(s, e)
    ensures var (m, n) := (s.client.next, Step(s, e).client.next);
      && n.agentDescription == m.agentDescription && n.health == m.health
      && n.remoteConfigStatus == m.remoteConfigStatus && n.customCapabilities == m.customCapabilities
  {
    if e.Dispatch? {
    } else if e.CallbackReturns? || e.Exit? {
    } else {
      assert Step(s, e).client.next == s.client.next;
    }
  }

  lemma QuietKeepsFine(s: Sys, e: Event, seen: Data, f: Field)
    requires Enabled(s, e) && Quiet(e) && !HandsOut(s, e) && Fine(s, seen, f)
    ensures Fine(Step(s, e), seen, f)
  {
    QuietShared(s, e);
    QuietPoller(s, e);
    QuietKeepsReports(s, e);
    if u :| u in s.threads && Midway(s.threads[u], f) {
      assert Midway(Step(s, e).threads[u], f);
    }
  }

  lemma BeginKeepsFine(s: Sys, t: nat, c: Setter, seen: Data, f: Field)
    requires Enabled(s, Begin(t, c)) && Fine(s, seen, f)
    ensures Fine(Step(s, Begin(t, c)), seen, f)
  {
    OthersStay(s, Begin(t, c), t, f);
    if u :| u in s.threads && u != t && Midway(s.threads[u], f) {
      assert Midway(Step(s, Begin(t, c)).threads[u], f);
    }
  }

  lemma ReadKeepsFine(s: Sys, seen: Data, f: Field)
    requires Enabled(s, ReadField) && Fine(s, seen, f)
    ensures Fine(Step(s, ReadField), seen, f)
  {
  }

  /** After a refill the message alone has the whole field. */
  lemma RefillIsFine(s: Sys, config: Option<EffectiveConfig>, f: Field)
    requires ReadIsCurrent(s, f) && Enabled(s, PutFull(config))
    ensures Fine(Step(s, PutFull(config)), NO_DATA, f)
  {
    RefillPutsRead(s, config, f);
  }

  /** What needs no help from the server's view is fine with any view. */
  lemma FineWithAny(s: Sys, seen: Data, f: Field)
    requires Fine(s, NO_DATA, f)
    ensures Fine(s, seen, f)
  {
  }

  lemma StepKeepsFine(s: Sys, e: Event, seen: Data, f: Field)
    requires ThreadsCurrent(s, f) && ReadIsCurrent(s, f) && (e.CallbackAdvances? ==> PollerCurrent(s, f))
    requires Enabled(s, e) && !HandsOut(s, e) && Fine(s, seen, f)
    ensures Fine(Step(s, e), seen, f)
  {
    match e {
      case Begin(t, c) => BeginKeepsFine(s, t, c, seen, f);
      case Advance(t) => AdvanceKeepsFine(s, t, seen, f);
      case CallbackAdvances => CallbackKeepsFine(s, seen, f);
      case ReadField => ReadKeepsFine(s, seen, f);
      case PutFull(config) =>
        RefillIsFine(s, config, f);
        FineWithAny(Step(s, e), seen, f);
      case _ => QuietKeepsFine(s, e, seen, f);
    }
  }

  // ----- Handing out a message -----

  lemma HandingOutKeepsFine(s: Sys, e: Event, view: Data, f: Field)
    requires HandsOut(s, e) && Fine(s, view, f)
    ensures Fine(Step(s, e), Merge(view, Handed(s, e)), f)
  {
    QuietShared(s, e);
    QuietPoller(s, e);
    if u :| u in s.threads && Midway(s.threads[u], f) {
      assert Midway(Step(s, e).threads[u], f);
    }
  }

  lemma FullIsFine(s: Sys, e: Event, f: Field)
    requires HandsOut(s, e) && HoldsAll(s.client)
    ensures Fine(Step(s, e), Merge(NO_DATA, Handed(s, e)), f)
  {
  }

  lemma FullIsFineForAny(s: Sys, msg: AgentToServer, view: Data, f: Field)
    requires Fine(s, Merge(NO_DATA, msg), f)
    ensures Fine(s, Merge(view, msg), f)
  {
  }

  // ----- All schedules -----

  lemma ProjectedStep(n: Net, ev: NetEvent)
    requires NetEnabled(n, ev) && Projection(n, ev).Some?
    ensures Enabled(n.sys, Projection(n, ev).value)
    ensures NetStep(n, ev).sys == Step(n.sys, Projection(n, ev).value)
  {
  }

  lemma LocalStaysSending(s: Sys, e: Event)
    requires Enabled(s, e) && Inside(e) && s.poller.Sending?
    ensures Step(s, e).poller.Sending? && !HandsOut(s, e)
  {
  }

  lemma NumbersKept(n: Net, ev: NetEvent)
    requires NetNumbered(n) && Owned(n.sys) && NetEnabled(n, ev)
    ensures NetNumbered(NetStep(n, ev)) && Owned(NetStep(n, ev).sys)
  {
    var p := Projection(n, ev);
    if p.Some? {
      ProjectedStep(n, ev);
      StepKeepsOwned(n.sys, p.value);
      StepHeader(n.sys, p.value);
      StepLog(n.sys, p.value);
      if ev.Local? && n.sys.poller.Sending? { LocalStaysSending(n.sys, ev.e); }
      if ev.Local? && n.sys.dropped { StoppedIsFinal(n.sys, ev.e); }
    }
    LaterFacts(n.server.lastNum, n.lost);
    LaterFacts(n.sys.client.next.sequenceNum, 0);
  }

  lemma TrackedKept(n: Net, ev: NetEvent)
    requires Tracked(n) && NetEnabled(n, ev)
    ensures Tracked(NetStep(n, ev))
  {
    NumbersKept(n, ev);
    if Projection(n, ev).Some? {
      ProjectedStep(n, ev);
      var e := Projection(n, ev).value;
      if RefillComing(Step(n.sys, e)) { RefillComesFromAnswer(n.sys, e); }
      SendingComesFromPop(n.sys, e);
    }
  }

  /** Only an answer that asks for full state brings a refill. */
  lemma RefillComesFromAnswer(s: Sys, e: Event)
    requires Enabled(s, e) && RefillComing(Step(s, e))
    ensures RefillComing(s) || (e.Respond? && AsksFullState(e.resp.flags))
  {
    CapabilitiesStay(s, e);
    if e.CallbackReturns? || e.Dispatch? {
    } else if e.Respond? {
    } else if e.ReadField? {
    } else if s.poller.InCallback? {
      assert Step(s, e).poller.InCallback? && Step(s, e).poller.after == s.poller.after;
    } else {
    }
  }

  /** Only handing out a message leads to sending, and from a refill to that there is
      nothing in between but the channels. */
  lemma SendingComesFromPop(s: Sys, e: Event)
    requires Enabled(s, e)
    ensures var p := Step(s, e).poller;
      && (p.Sending? ==> s.poller.Sending? || HandsOut(s, e))
      && (BeforePoll(s.poller) ==> BeforePoll(p) || HandsOut(s, e))
      && (e.PutFull? ==> BeforePoll(p))
  {
    if e.CallbackReturns? || e.Dispatch? {
    } else if e.Respond? || e.SendFails? || e.StartFails? {
    } else if e.ReadField? || e.PutFull? || e.Resend? {
    } else if s.poller.InCallback? {
      assert Step(s, e).poller.InCallback?;
    } else {
    }
  }

  lemma ReadsAndThreadsKept(n: Net, ev: NetEvent, f: Field)
    requires ThreadsCurrent(n.sys, f) && ReadIsCurrent(n.sys, f) && NetEnabled(n, ev) && !Endangers(n, ev, f)
    ensures ThreadsCurrent(NetStep(n, ev).sys, f) && ReadIsCurrent(NetStep(n, ev).sys, f)
  {
    var p := Projection(n, ev);
    if p.Some? {
      ProjectedStep(n, ev);
      StepKeepsThreads(n.sys, p.value, f);
      StepKeepsReads(n.sys, p.value, f);
    }
  }

  /** While a callback runs, nothing ends an alarm. */
  lemma AlarmKept(n: Net, ev: NetEvent)
    requires Tracked(n) && NetEnabled(n, ev) && n.sys.poller.InCallback? && NetAlarmed(n)
    ensures NetAlarmed(NetStep(n, ev))
  {
    TrackedKept(n, ev);
    NetAlarmIffOwed(n);
    NetAlarmIffOwed(NetStep(n, ev));
  }

  lemma PollerKept(n: Net, ev: NetEvent, f: Field)
    requires NetInv(n, f) && NetEnabled(n, ev) && !Endangers(n, ev, f)
    ensures NetAlarmed(NetStep(n, ev)) || PollerCurrent(NetStep(n, ev).sys, f)
  {
    if PollerMidway(n.sys.poller, f) && NetAlarmed(n) {
      AlarmKept(n, ev);
    } else if Projection(n, ev).Some? {
      ProjectedStep(n, ev);
      StepKeepsPoller(n.sys, Projection(n, ev).value, f);
    }
  }

  /** The part of the invariant about full reports. */
  lemma FullKept(n: Net, ev: NetEvent, f: Field)
    requires NetInv(n, f) && NetEnabled(n, ev)
    ensures var m := NetStep(n, ev);
      && (m.tagged ==> Fine(m.sys, NO_DATA, f))
      && (m.flight.Some? && m.full ==> Fine(m.sys, Merge(NO_DATA, m.flight.value), f))
  {
    var p := Projection(n, ev);
    if p.Some? {
      ProjectedStep(n, ev);
      if HandsOut(n.sys, p.value) {
        if n.tagged { HandingOutKeepsFine(n.sys, p.value, NO_DATA, f); }
        if HoldsAll(n.sys.client) { FullIsFine(n.sys, p.value, f); }
      } else {
        if p.value.PutFull? { RefillIsFine(n.sys, p.value.config, f); }
        else if n.tagged { StepKeepsFine(n.sys, p.value, NO_DATA, f); }
        if n.flight.Some? && n.full { StepKeepsFine(n.sys, p.value, Merge(NO_DATA, n.flight.value), f); }
      }
    }
  }

  /** What is seen or pending stays so, on every event that loses nothing. */
  lemma SeenKept(n: Net, ev: NetEvent, f: Field)
    requires NetInv(n, f) && PollerCurrent(n.sys, f) && NetEnabled(n, ev)
    requires !ev.Reboot? && (ev.Fail? ==> n.flight.None?)
    requires Fine(n.sys, NetSeen(n), f)
    ensures Fine(NetStep(n, ev).sys, NetSeen(NetStep(n, ev)), f)
  {
    var p := Projection(n, ev);
    if p.Some? {
      ProjectedStep(n, ev);
      if HandsOut(n.sys, p.value) {
        if n.sys.dropped { StoppedIsFinal(n.sys, p.value); }
        HandingOutKeepsFine(n.sys, p.value, n.server.view, f);
      } else {
        StepKeepsFine(n.sys, p.value, NetSeen(n), f);
      }
    }
  }

  lemma NetStepKeepsInv(n: Net, ev: NetEvent, f: Field)
    requires NetInv(n, f) && NetEnabled(n, ev) && !Endangers(n, ev, f)
    ensures NetInv(NetStep(n, ev), f)
  {
    var m := NetStep(n, ev);
    TrackedKept(n, ev);
    ReadsAndThreadsKept(n, ev, f);
    PollerKept(n, ev, f);
    FullKept(n, ev, f);
    NetAlarmIffOwed(n);
    NetAlarmIffOwed(m);
    if !NetAlarmed(m) {
      if !NetAlarmed(n) {
        SeenKept(n, ev, f);
      } else {
        FullIsFineForAny(n.sys, n.flight.value, n.server.view, f);
      }
    }
  }

  lemma {:induction false} NetRunKeepsInv(n: Net, evs: seq<NetEvent>, f: Field)
    requires NetInv(n, f) && NetSafe(n, evs, f)
    ensures NetInv(NetAfter(n, evs), f)
    decreases |evs|
  {
    if evs != [] {
      NetRunKeepsInv(n, evs[..|evs| - 1], f);
      if NetEnabled(NetAfter(n, evs[..|evs| - 1]), evs[|evs| - 1]) {
        NetStepKeepsInv(NetAfter(n, evs[..|evs| - 1]), evs[|evs| - 1], f);
      }
    }
  }

  lemma {:induction false} NetReachable(settings: StartSettings, memory: Data, evs: seq<NetEvent>, f: Field)
    requires NetSafe(NetInit(settings, memory), evs, f)
    ensures NetInv(NetAfter(NetInit(settings, memory), evs), f)
  {
    StartIsValid(settings);
    NetRunKeepsInv(NetInit(settings, memory), evs, f);
  }

  /** Some schedule without an endangering change of the field leads to the state. */
  ghost predicate NetReached(settings: StartSettings, memory: Data, n: Net, f: Field) {
    exists evs ::
      NetSafe(NetInit(settings, memory), evs, f) && n == NetAfter(NetInit(settings, memory), evs)
  }

  /** Every interleaving of threads, losses and server restarts without an
      endangering change of the field: either the server asks for full state or
      will notice a gap on the next message it gets, or an operation on the field
      is halfway, or the field, once set, waits in the next message with its
      synced value or is seen with it. */
  lemma InterleavedGapCompleteness(settings: StartSettings, memory: Data, n: Net, f: Field)
    requires NetReached(settings, memory, n, f)
    ensures
      || n.server.asking
      || NoticesGap(n.server, NetNextNumber(n))
      || Busy(n.sys, f)
      || (HasValueOn(n.sys.client.synced, f) ==>
            ReportsOn(n.sys.client.next, n.sys.client.synced, f) || SameOn(NetSeen(n), n.sys.client.synced, f))
  {
    var evs :|
      NetSafe(NetInit(settings, memory), evs, f) && n == NetAfter(NetInit(settings, memory), evs);
    NetReachable(settings, memory, evs, f);
  }

  // ----- Recovery -----

  /** A refill is coming, or will be once the answer is processed. */
  predicate RefillDue(n: Net) {
    || RefillComing(n.sys)
    || (n.sys.poller.Sending? && n.flight.None? && n.answer.Some? && Refills(n.sys.client, n.answer.value))
  }

  lemma ComingStays(s: Sys, e: Event)
    requires RefillComing(s) && Enabled(s, e)
    ensures e.PutFull? || RefillComing(Step(s, e))
    ensures !HandsOut(s, e)
  {
    if e.CallbackReturns? || e.Dispatch? {
    } else if e.ReadField? || e.PutFull? {
    } else if s.poller.InCallback? {
      CapabilitiesStay(s, e);
      assert Step(s, e).poller.InCallback? && Step(s, e).poller.after == s.poller.after;
    } else {
      CapabilitiesStay(s, e);
    }
  }

  lemma RefillStaysDue(n: Net, ev: NetEvent, f: Field)
    requires RefillDue(n) && NetEnabled(n, ev) && !ev.Fail? && ReadIsCurrent(n.sys, f)
    ensures var m := NetStep(n, ev);
      && m.sys.log == n.sys.log
      && (RefillDue(m) || (m.tagged && Fine(m.sys, NO_DATA, f)))
  {
    var p := Projection(n, ev);
    if p.Some? {
      ProjectedStep(n, ev);
      StepLog(n.sys, p.value);
      if RefillComing(n.sys) {
        ComingStays(n.sys, p.value);
        if p.value.PutFull? { RefillIsFine(n.sys, p.value.config, f); }
      } else if ev.Local? {
        LocalStaysSending(n.sys, ev.e);
        CapabilitiesStay(n.sys, ev.e);
      }
    }
  }

  predicate Lossless(evs: seq<NetEvent>) {
    forall i :: 0 <= i < |evs| ==> !evs[i].Fail? && !evs[i].Reboot?
  }

  /** Either the refill is still to come, or the field is fine; and until the next
      message is taken that message counts as full. */
  ghost predicate Recovering(n: Net, f: Field, taken: nat) {
    && |n.sys.log| >= taken
    && (Fine(n.sys, NetSeen(n), f) || (RefillDue(n) && |n.sys.log| == taken))
  }

  lemma {:induction false} KeepsRecovering(n: Net, evs: seq<NetEvent>, f: Field)
    requires NetInv(n, f) && PollerCurrent(n.sys, f) && NetNoDisturb(n, evs, f) && Lossless(evs)
    requires Recovering(n, f, |n.sys.log|)
    ensures NetInv(NetAfter(n, evs), f) && PollerCurrent(NetAfter(n, evs).sys, f)
    ensures Recovering(NetAfter(n, evs), f, |n.sys.log|)
    decreases |evs|
  {
    if evs != [] {
      var (m, ev) := (NetAfter(n, evs[..|evs| - 1]), evs[|evs| - 1]);
      KeepsRecovering(n, evs[..|evs| - 1], f);
      if NetEnabled(m, ev) {
        NetStepKeepsInv(m, ev, f);
        if Projection(m, ev).Some? {
          ProjectedStep(m, ev);
          StepKeepsPoller(m.sys, Projection(m, ev).value, f);
        }
        LogGrows(m, ev);
        if Fine(m.sys, NetSeen(m), f) {
          SeenKept(m, ev, f);
        } else {
          RefillStaysDue(m, ev, f);
          var w := NetStep(m, ev);
          if !RefillDue(w) { FineWithAny(w.sys, NetSeen(w), f); }
        }
      }
    }
  }

  lemma LogGrows(n: Net, ev: NetEvent)
    requires NetEnabled(n, ev)
    ensures |n.sys.log| <= |NetStep(n, ev).sys.log|
  {
    var p := Projection(n, ev);
    if p.Some? {
      ProjectedStep(n, ev);
      StepLog(n.sys, p.value);
    }
  }

  /** The interleaved form of bounded recovery. Whatever was lost before, and
      whatever the server remembers: when an answer without a command reaches a
      waiting client, then in every continuation without losses, restarts and
      disturbed changes of the field, as soon as one more message has been handed
      out, each value of the field is being set right now, or waits in the next
      message, or is in what has been sent to the server. */
  lemma {:induction false} InterleavedRecovery(settings: StartSettings, memory: Data, n: Net, f: Field,
                            after: Server, reply: ServerToAgent, evs: seq<NetEvent>)
    requires NetReached(settings, memory, n, f) && n.sys.poller.Sending?
    requires NetEnabled(n, Arrive(after, reply)) && reply.command.None?
    requires NetNoDisturb(NetStep(n, Arrive(after, reply)), evs, f) && Lossless(evs)
    ensures var m := NetAfter(NetStep(n, Arrive(after, reply)), evs);
      |m.sys.log| > |n.sys.log| ==> Fine(m.sys, NetSeen(m), f)
  {
    var past :|
      NetSafe(NetInit(settings, memory), past, f) && n == NetAfter(NetInit(settings, memory), past);
    NetReachable(settings, memory, past, f);
    NetStepKeepsInv(n, Arrive(after, reply), f);
    var start := NetStep(n, Arrive(after, reply));
    NetAlarmIffOwed(start);
    KeepsRecovering(start, evs, f);
  }

  lemma {:induction false} StaysDueOrTagged(n: Net, evs: seq<NetEvent>, f: Field)
    requires NetInv(n, f) && NetSafe(n, evs, f) && Lossless(evs) && (RefillDue(n) || n.tagged)
    ensures var m := NetAfter(n, evs);
      && |m.sys.log| >= |n.sys.log|
      && (|m.sys.log| == |n.sys.log| ==> RefillDue(m) || m.tagged)
    decreases |evs|
  {
    if evs != [] {
      var (m, ev) := (NetAfter(n, evs[..|evs| - 1]), evs[|evs| - 1]);
      StaysDueOrTagged(n, evs[..|evs| - 1], f);
      NetRunKeepsInv(n, evs[..|evs| - 1], f);
      if NetEnabled(m, ev) {
        LogGrows(m, ev);
        if RefillDue(m) {
          RefillStaysDue(m, ev, f);
        } else if ev.Local? {
          StepLog(m.sys, ev.e);
        }
      }
    }
  }

  /** The first message handed out after an answer that asks for full state counts
      as a report of it, however the setters interleave with its making. */
  lemma {:induction false} AskedReportIsFull(n: Net, evs: seq<NetEvent>, e: Event, f: Field)
    requires NetInv(n, f) && RefillDue(n) && NetSafe(n, evs, f) && Lossless(evs)
    requires |NetAfter(n, evs).sys.log| == |n.sys.log|
    requires NetEnabled(NetAfter(n, evs), Local(e)) && HandsOut(NetAfter(n, evs).sys, e)
    ensures NetStep(NetAfter(n, evs), Local(e)).full
  {
    StaysDueOrTagged(n, evs, f);
    var m := NetAfter(n, evs);
    if RefillDue(m) {
      NetRunKeepsInv(n, evs, f);
      RefillStaysDue(m, Local(e), f);
      StepLog(m.sys, e);
    }
  }
}
