/** What an endangering change does to the server: it can end up with another value
    than the client, suspecting nothing and told nothing, and then this stays. The
    runs that lead there begin no new call. */
module Unnoticed {
  import opened Proto
  import opened Settings
  import opened Status
  import opened Interleaving
  import opened Overlap
  import opened Replication
  import opened EndToEnd

  // ----- A difference that stays -----

  /** The operation neither changes the field nor reports it. */
  predicate Harmless(synced: Data, op: Op, f: Field) {
    match op
    case Checking(c) => On(c, f) ==> Unchanged(synced, c)
    case Writing(c) => !On(c, f)
    case Updating(c) => !On(c, f)
    case _ => true
  }

  ghost predicate OthersHarmless(s: Sys, busy: set<nat>, f: Field) {
    forall t :: t in s.threads && t !in busy ==> Harmless(s.client.synced, s.threads[t], f)
  }

  /** Nothing in the client will report the field. */
  ghost predicate Calm(s: Sys, f: Field) {
    && OthersHarmless(s, {}, f)
    && (s.poller.InCallback? ==> Harmless(s.client.synced, s.poller.op, f))
    && !RefillComing(s)
    && !MentionsOn(s.client.next, f)
  }

  /** The server holds another value than the client, and neither of them knows. */
  ghost predicate Stuck(n: Net, f: Field) {
    && Owned(n.sys) && NetNumbered(n) && !NetAlarmed(n)
    && Calm(n.sys, f)
    && (n.answer.Some? ==> !AsksFullState(n.answer.value.flags))
    && (n.flight.Some? ==> !MentionsOn(n.flight.value, f))
    && HasValueOn(n.sys.client.synced, f) && !SameOn(n.server.view, n.sys.client.synced, f)
  }

  /** A new call on the field, if any, sets the value that is stored. */
  predicate SetsNothingNew(synced: Data, e: Event, f: Field) {
    match e
    case Begin(_, c) => On(c, f) ==> Unchanged(synced, c)
    case CallbackSets(c) => On(c, f) ==> Unchanged(synced, c)
    case Respond(resp) => !AsksFullState(resp.flags)
    case _ => true
  }

  lemma HarmlessStays(a: Data, b: Data, op: Op, f: Field)
    requires SameOn(a, b, f) && Harmless(a, op, f)
    ensures Harmless(b, op, f)
  {
  }

  lemma HarmlessStep(s: Client, op: Op, f: Field)
    requires !op.Done? && Harmless(s.synced, op, f) && !MentionsOn(s.next, f)
    ensures var t := OpEffect(s, op);
      SameOn(t.synced, s.synced, f) && !MentionsOn(t.next, f) && Harmless(t.synced, OpNext(s, op), f)
  {
  }

  lemma ThreadStaysCalm(s: Sys, t: nat, f: Field)
    requires Calm(s, f) && Enabled(s, Advance(t))
    ensures Calm(Step(s, Advance(t)), f)
    ensures SameOn(Step(s, Advance(t)).client.synced, s.client.synced, f)
  {
    var v := Step(s, Advance(t));
    OthersStay(s, Advance(t), t, f);
    HarmlessStep(s.client, s.threads[t], f);
    forall u | u in v.threads && u != t ensures Harmless(v.client.synced, v.threads[u], f) {
      HarmlessStays(s.client.synced, v.client.synced, v.threads[u], f);
    }
    if s.poller.InCallback? { HarmlessStays(s.client.synced, v.client.synced, s.poller.op, f); }
  }

  lemma CallbackStaysCalm(s: Sys, f: Field)
    requires Calm(s, f) && Enabled(s, CallbackAdvances)
    ensures Calm(Step(s, CallbackAdvances), f)
    ensures SameOn(Step(s, CallbackAdvances).client.synced, s.client.synced, f)
  {
    var v := Step(s, CallbackAdvances);
    HarmlessStep(s.client, s.poller.op, f);
    forall u | u in v.threads ensures Harmless(v.client.synced, v.threads[u], f) {
      HarmlessStays(s.client.synced, v.client.synced, v.threads[u], f);
    }
  }

  lemma BeginStaysCalm(s: Sys, t: nat, c: Setter, f: Field)
    requires Calm(s, f) && Enabled(s, Begin(t, c)) && (On(c, f) ==> Unchanged(s.client.synced, c))
    ensures Calm(Step(s, Begin(t, c)), f)
  {
    OthersStay(s, Begin(t, c), t, f);
  }

  lemma QuietStaysCalm(s: Sys, e: Event, f: Field)
    requires Calm(s, f) && Enabled(s, e) && Quiet(e) && SetsNothingNew(s.client.synced, e, f)
    ensures Calm(Step(s, e), f) && Step(s, e).client.synced == s.client.synced
  {
    var v := Step(s, e);
    QuietShared(s, e);
    QuietMessage(s, e);
    QuietPollerStaysCalm(s, e, f);
  }

  lemma QuietPollerStaysCalm(s: Sys, e: Event, f: Field)
    requires Calm(s, f) && Enabled(s, e) && Quiet(e) && SetsNothingNew(s.client.synced, e, f)
    ensures var p := Step(s, e).poller;
      !RefillComing(Step(s, e)) && (p.InCallback? ==> Harmless(s.client.synced, p.op, f))
  {
    if e.CallbackSets? {
    } else if e.CallbackReturns? || e.Dispatch? {
    } else if s.poller.InCallback? {
      assert Step(s, e).poller == s.poller;
    } else {
    }
  }

  lemma StepStaysCalm(s: Sys, e: Event, f: Field)
    requires Calm(s, f) && Enabled(s, e) && SetsNothingNew(s.client.synced, e, f)
    ensures Calm(Step(s, e), f) && SameOn(Step(s, e).client.synced, s.client.synced, f)
  {
    if Quiet(e) {
      QuietStaysCalm(s, e, f);
    } else if e.Begin? {
      BeginStaysCalm(s, e.thread, e.call, f);
      assert Step(s, e).client == s.client;
    } else if e.Advance? {
      ThreadStaysCalm(s, e.thread, f);
    } else if e.CallbackAdvances? {
      CallbackStaysCalm(s, f);
    } else {
      assert false;
    }
  }

  lemma SeenAfter(view: Data, msg: AgentToServer, d: Data, f: Field)
    ensures ReportsOn(msg, d, f) ==> SameOn(Merge(view, msg), d, f)
    ensures !MentionsOn(msg, f) ==> SameOn(Merge(view, msg), view, f)
  {
  }

  lemma HandedWithout(s: Sys, e: Event, f: Field)
    requires HandsOut(s, e) && !MentionsOn(s.client.next, f)
    ensures !MentionsOn(Handed(s, e), f)
  {
  }

  lemma LocalKeepsDifference(n: Net, e: Event, f: Field)
    requires Stuck(n, f) && NetEnabled(n, Local(e))
    ensures var m := NetStep(n, Local(e));
      && m.server == n.server
      && (m.flight.Some? ==> !MentionsOn(m.flight.value, f))
      && (m.answer.Some? ==> !AsksFullState(m.answer.value.flags))
  {
    if HandsOut(n.sys, e) { HandedWithout(n.sys, e, f); }
  }

  lemma StuckStays(n: Net, ev: NetEvent, f: Field)
    requires Stuck(n, f) && NetEnabled(n, ev) && !NetAlarmed(NetStep(n, ev))
    requires ev.Local? ==> SetsNothingNew(n.sys.client.synced, ev.e, f)
    ensures var m := NetStep(n, ev);
      Stuck(m, f) && SameOn(m.sys.client.synced, n.sys.client.synced, f) && SameOn(m.server.view, n.server.view, f)
  {
    NumbersKept(n, ev);
    if Projection(n, ev).Some? {
      ProjectedStep(n, ev);
      StepStaysCalm(n.sys, Projection(n, ev).value, f);
    }
    match ev {
      case Local(e) => LocalKeepsDifference(n, e, f);
      case Arrive(after, reply) => SeenAfter(n.server.view, n.flight.value, NO_DATA, f);
      case _ =>
    }
    StuckFrom(n, NetStep(n, ev), f);
  }

  lemma StuckFrom(n: Net, m: Net, f: Field)
    requires Stuck(n, f) && Owned(m.sys) && NetNumbered(m) && !NetAlarmed(m) && Calm(m.sys, f)
    requires SameOn(m.sys.client.synced, n.sys.client.synced, f) && SameOn(m.server.view, n.server.view, f)
    requires m.answer.Some? ==> !AsksFullState(m.answer.value.flags)
    requires m.flight.Some? ==> !MentionsOn(m.flight.value, f)
    ensures Stuck(m, f)
  {
  }

  /** No new value of the field, and no alarm. */
  ghost predicate Uneventful(n: Net, evs: seq<NetEvent>, f: Field)
    decreases |evs|
  {
    evs == [] || (
      var (m, ev) := (NetAfter(n, evs[..|evs| - 1]), evs[|evs| - 1]);
      && Uneventful(n, evs[..|evs| - 1], f)
      && (NetEnabled(m, ev) ==>
            && (ev.Local? ==> SetsNothingNew(m.sys.client.synced, ev.e, f))
            && !NetAlarmed(NetStep(m, ev))))
  }

  /** Such a difference stays through every continuation: as long as no alarm is
      raised and nobody sets another value, the server keeps the value it has and
      the client the one it has, however often the latter is set again. */
  lemma {:induction false} DifferenceStays(n: Net, evs: seq<NetEvent>, f: Field)
    requires Stuck(n, f) && Uneventful(n, evs, f)
    ensures var m := NetAfter(n, evs);
      && Stuck(m, f)
      && SameOn(m.server.view, n.server.view, f)
      && SameOn(m.sys.client.synced, n.sys.client.synced, f)
    decreases |evs|
  {
    if evs != [] {
      var m := NetAfter(n, evs[..|evs| - 1]);
      DifferenceStays(n, evs[..|evs| - 1], f);
      if NetEnabled(m, evs[|evs| - 1]) {
        StuckStays(m, evs[|evs| - 1], f);
      }
    }
  }

  /** In every continuation of that kind the two keep their different values. */
  ghost predicate ApartForGood(n: Net, f: Field) {
    forall evs :: Uneventful(n, evs, f) ==>
      var m := NetAfter(n, evs);
      && SameOn(m.server.view, n.server.view, f)
      && SameOn(m.sys.client.synced, n.sys.client.synced, f)
      && !SameOn(m.server.view, m.sys.client.synced, f)
  }

  lemma StuckIsForGood(n: Net, f: Field)
    requires Stuck(n, f)
    ensures ApartForGood(n, f)
  {
    forall evs | Uneventful(n, evs, f)
      ensures Stuck(NetAfter(n, evs), f)
      ensures SameOn(NetAfter(n, evs).server.view, n.server.view, f)
      ensures SameOn(NetAfter(n, evs).sys.client.synced, n.sys.client.synced, f)
    {
      DifferenceStays(n, evs, f);
    }
  }

  // ----- Runs -----

  lemma {:induction false} NetAppend(n: Net, evs: seq<NetEvent>, more: seq<NetEvent>)
    ensures NetAfter(n, evs + more) == NetAfter(NetAfter(n, evs), more)
    decreases |more|
  {
    if more == [] {
      assert evs + more == evs;
    } else {
      assert (evs + more)[..|evs + more| - 1] == evs + more[..|more| - 1];
      NetAppend(n, evs, more[..|more| - 1]);
    }
  }

  lemma {:induction false} NetOne(n: Net, ev: NetEvent)
    requires NetEnabled(n, ev)
    ensures NetAfter(n, [ev]) == NetStep(n, ev)
  {
    assert NetAfter(n, []) == n;
  }

  lemma {:induction false} NetFirst(n: Net, ev: NetEvent, more: seq<NetEvent>)
    requires NetEnabled(n, ev)
    ensures NetAfter(n, [ev] + more) == NetAfter(NetStep(n, ev), more)
  {
    NetOne(n, ev);
    NetAppend(n, [ev], more);
  }

  function Locals(es: seq<Event>): (evs: seq<NetEvent>)
    ensures |evs| == |es| && (forall i :: 0 <= i < |es| ==> evs[i] == Local(es[i]))
    decreases |es|
  {
    if es == [] then [] else Locals(es[..|es| - 1]) + [Local(es[|es| - 1])]
  }

  /** Nothing that the network notices. */
  predicate Internal(e: Event) {
    Inside(e) && !e.Pop? && !e.Drop? && !e.PutFull?
  }

  lemma {:induction false} LocalRun(n: Net, es: seq<Event>)
    requires forall i :: 0 <= i < |es| ==> Internal(es[i])
    ensures NetAfter(n, Locals(es)) == n.(sys := Interleaving.After(n.sys, es))
    decreases |es|
  {
    if es != [] {
      LocalRun(n, es[..|es| - 1]);
      assert Locals(es)[..|es| - 1] == Locals(es[..|es| - 1]);
    }
  }

  /** The schedule begins no new call: it only continues what is under way. */
  predicate CallFree(evs: seq<NetEvent>) {
    forall i :: 0 <= i < |evs| ==> evs[i].Local? ==> !evs[i].e.Begin? && !evs[i].e.CallbackSets?
  }

  /** Nor is anything lost in it. */
  predicate Continues(evs: seq<NetEvent>) {
    CallFree(evs) && Lossless(evs)
  }

  // ----- The polling thread goes on -----

  const PLAIN := ServerToAgent(None, None, 0, None, None, None, None)
  const ASKING := ServerToAgent(None, None, REPORT_FULL_STATE, None, None, None, None)

  /** The server once it has received the message. */
  function Next(server: Server, msg: AgentToServer, asking: bool): Server {
    Server(true, msg.sequenceNum, Merge(server.view, msg), asking)
  }

  /** The next step of the polling thread, with a server that always asks for full
      state and callbacks that make no new call. */
  function Onward(n: Net): NetEvent {
    match n.sys.poller
    case Selecting => Local(PassExit)
    case AtPending => Local(if n.sys.client.mailbox.tokens > 0 then TakeToken else PassPending)
    case AtTicker => Local(Tick)
    case Sending =>
      if n.flight.Some? then Arrive(Next(n.server, n.flight.value, true), ASKING) else NetEvent.Respond
    case Processing(_) => Local(Dispatch)
    case InCallback(_, op) => Local(if op.Done? then CallbackReturns else CallbackAdvances)
    case Reading(_, _) => Local(ReadField)
    case Refilling(_) => Local(PutFull(None))
    case Resending => Local(Resend)
    case _ => Local(Pop)
  }

  /** The operation is not about the field. */
  predicate Elsewhere(op: Op, f: Field) {
    op.Checking? || op.Writing? || op.Updating? ==> !On(op.c, f)
  }

  ghost predicate OthersElsewhere(s: Sys, busy: set<nat>, f: Field) {
    forall t :: t in s.threads && t !in busy ==> Elsewhere(s.threads[t], f)
  }

  /** How many such steps are left, at most, before the next message is taken. */
  function Distance(n: Net): nat {
    match n.sys.poller
    case Popping => 0
    case AtTicker => 1
    case Sending => if n.flight.Some? then 15 else 14
    case _ => Rank(n.sys.poller)
  }

  /** The loop runs, and a request gets its answer. */
  ghost predicate Moving(n: Net) {
    && Owned(n.sys) && NetNumbered(n) && n.sys.started && !n.sys.closing
    && (n.sys.poller.Sending? ==> n.flight.Some? || n.answer.Some?)
  }

  /** A callback's operation that may yet write the field. */
  predicate MayWrite(p: Poller, f: Field) {
    p.InCallback? && (p.op.Checking? || p.op.Writing?) && On(p.op.c, f)
  }

  /** The polling thread will take the message as it is. */
  predicate Restful(s: Sys, f: Field) {
    !s.poller.Sending? && !RefillComing(s) && (s.poller.InCallback? ==> Elsewhere(s.poller.op, f))
  }

  predicate SameReport(m: AgentToServer, n: AgentToServer, f: Field) {
    match f
    case Description => m.agentDescription == n.agentDescription
    case HealthField => m.health == n.health
    case RemoteConfig => m.remoteConfigStatus == n.remoteConfigStatus
    case Custom => m.customCapabilities == n.customCapabilities
  }

  lemma OnwardIsEnabled(n: Net)
    requires Moving(n) && !n.sys.poller.Popping?
    ensures NetEnabled(n, Onward(n)) && Continues([Onward(n)])
    ensures Projection(n, Onward(n)).Some? ==> !HandsOut(n.sys, Projection(n, Onward(n)).value)
  {
    assert AsksFullState(ASKING.flags);
  }

  lemma OnwardMoves(n: Net)
    requires Moving(n) && !n.sys.poller.Popping?
    ensures var m := NetStep(n, Onward(n));
      m.sys.threads == n.sys.threads && Moving(m) && m.sys.log == n.sys.log
  {
    var ev := Onward(n);
    OnwardIsEnabled(n);
    NumbersKept(n, ev);
    if Projection(n, ev).Some? {
      ProjectedStep(n, ev);
      StepLog(n.sys, Projection(n, ev).value);
    }
  }

  /** It comes closer to the next message. */
  lemma OnwardIsCloser(n: Net)
    requires Moving(n) && !n.sys.poller.Popping?
    ensures Distance(NetStep(n, Onward(n))) < Distance(n)
  {
    OnwardIsEnabled(n);
    if Projection(n, Onward(n)).Some? {
      ProjectedStep(n, Onward(n));
      if n.sys.poller.InCallback? || n.sys.poller.Processing? {
      } else if n.sys.poller.Sending? {
      } else if n.sys.poller.Reading? || n.sys.poller.Refilling? || n.sys.poller.Resending? {
      } else {
      }
    }
  }

  /** A refill that is due comes before the next message. */
  lemma OnwardRefills(n: Net)
    requires Moving(n) && !n.sys.poller.Popping? && (n.tagged || RefillDue(n))
    ensures NetStep(n, Onward(n)).tagged || RefillDue(NetStep(n, Onward(n)))
  {
    OnwardIsEnabled(n);
    if !n.tagged && Projection(n, Onward(n)).Some? {
      ProjectedStep(n, Onward(n));
      if RefillComing(n.sys) { ComingStays(n.sys, Projection(n, Onward(n)).value); }
    }
  }

  lemma OnwardWritesNothing(n: Net, f: Field)
    requires Moving(n) && !n.sys.poller.Popping? && !MayWrite(n.sys.poller, f)
    ensures var m := NetStep(n, Onward(n));
      SameOn(m.sys.client.synced, n.sys.client.synced, f) && !MayWrite(m.sys.poller, f)
  {
    var ev := Onward(n);
    OnwardIsEnabled(n);
    if Projection(n, ev).Some? {
      ProjectedStep(n, ev);
      OnlyRewriting(n.sys, Projection(n, ev).value, f);
    }
  }

  lemma ValueStays(s: Sys, e: Event, f: Field)
    requires Enabled(s, e) && HasValueOn(s.client.synced, f)
    ensures HasValueOn(Step(s, e).client.synced, f)
  {
    if !Rewrites(s, e, f) { OnlyRewriting(s, e, f); }
  }

  lemma OnwardKeepsValue(n: Net, f: Field)
    requires Moving(n) && !n.sys.poller.Popping? && HasValueOn(n.sys.client.synced, f)
    ensures HasValueOn(NetStep(n, Onward(n)).sys.client.synced, f)
  {
    OnwardIsEnabled(n);
    if Projection(n, Onward(n)).Some? {
      ProjectedStep(n, Onward(n));
      ValueStays(n.sys, Projection(n, Onward(n)).value, f);
    }
  }

  lemma CallbackRests(s: Sys, f: Field)
    requires s.poller.InCallback? && Restful(s, f) && (s.poller.after.ToAbort? ==> !s.started)
    ensures var v := Step(s, if s.poller.op.Done? then CallbackReturns else CallbackAdvances);
      (s.started ==> Restful(v, f)) && SameReport(v.client.next, s.client.next, f)
  {
  }

  lemma OnwardRests(n: Net, f: Field)
    requires Moving(n) && !n.sys.poller.Popping? && Restful(n.sys, f)
    ensures var m := NetStep(n, Onward(n));
      && m == n.(sys := m.sys) && Restful(m.sys, f)
      && SameReport(m.sys.client.next, n.sys.client.next, f)
  {
    OnwardIsEnabled(n);
    ProjectedStep(n, Onward(n));
    if n.sys.poller.InCallback? {
      CallbackRests(n.sys, f);
    } else if n.sys.poller.Processing? {
    } else {
      assert Step(n.sys, Projection(n, Onward(n)).value).client.next == n.sys.client.next;
    }
  }

  /** What a run of the polling thread leaves alone on its way to the next message. */
  ghost predicate Approached(n: Net, m: Net, f: Field) {
    && Moving(m) && m.sys.poller.Popping?
    && m.sys.threads == n.sys.threads && m.sys.log == n.sys.log
    && (n.tagged || RefillDue(n) ==> m.tagged)
    && (HasValueOn(n.sys.client.synced, f) ==> HasValueOn(m.sys.client.synced, f))
    && (!MayWrite(n.sys.poller, f) ==> SameOn(m.sys.client.synced, n.sys.client.synced, f))
    && (Restful(n.sys, f) ==>
          m == n.(sys := m.sys) && SameReport(m.sys.client.next, n.sys.client.next, f))
  }

  lemma {:induction false} Approach(n: Net, f: Field) returns (evs: seq<NetEvent>)
    requires Moving(n)
    ensures Continues(evs) && Approached(n, NetAfter(n, evs), f)
    decreases Distance(n)
  {
    if n.sys.poller.Popping? {
      evs := [];
    } else {
      var m := NetStep(n, Onward(n));
      OnwardIsEnabled(n);
      OnwardMoves(n);
      OnwardIsCloser(n);
      var rest := Approach(m, f);
      NetFirst(n, Onward(n), rest);
      evs := [Onward(n)] + rest;
      ApproachedBefore(n, NetAfter(m, rest), f);
    }
  }

  lemma ApproachedBefore(n: Net, v: Net, f: Field)
    requires Moving(n) && !n.sys.poller.Popping? && Approached(NetStep(n, Onward(n)), v, f)
    ensures Approached(n, v, f)
  {
    var m := NetStep(n, Onward(n));
    OnwardMoves(n);
    if n.tagged || RefillDue(n) { OnwardRefills(n); }
    if !MayWrite(n.sys.poller, f) {
      OnwardWritesNothing(n, f);
      SameOnTrans(n.sys.client.synced, m.sys.client.synced, v.sys.client.synced, f);
    }
    if HasValueOn(n.sys.client.synced, f) { OnwardKeepsValue(n, f); }
    if Restful(n.sys, f) { OnwardRests(n, f); }
  }

  lemma SameOnTrans(a: Data, b: Data, c: Data, f: Field)
    requires SameOn(a, b, f) && SameOn(c, b, f)
    ensures SameOn(c, a, f)
  {
  }

  /** One more poll, if need be, and a refilled message is about to be taken. */
  lemma ApproachTagged(n: Net, f: Field) returns (evs: seq<NetEvent>)
    requires Moving(n)
    ensures Continues(evs)
    ensures var m := NetAfter(n, evs);
      && Moving(m) && m.sys.poller.Popping? && m.tagged
      && m.sys.threads == n.sys.threads
      && (HasValueOn(n.sys.client.synced, f) ==> HasValueOn(m.sys.client.synced, f))
      && (!MayWrite(n.sys.poller, f) ==> SameOn(m.sys.client.synced, n.sys.client.synced, f))
  {
    var first := Approach(n, f);
    var p := NetAfter(n, first);
    if p.tagged {
      evs := first;
    } else {
      var second := PollAndApproach(p, f);
      NetAppend(n, first, second);
      evs := first + second;
      if !MayWrite(n.sys.poller, f) {
        SameOnTrans(n.sys.client.synced, p.sys.client.synced, NetAfter(p, second).sys.client.synced, f);
      }
    }
  }

  lemma PollAndApproach(n: Net, f: Field) returns (evs: seq<NetEvent>)
    requires Moving(n) && n.sys.poller.Popping?
    ensures Continues(evs)
    ensures var m := NetAfter(n, evs);
      && Moving(m) && m.sys.poller.Popping? && m.tagged
      && m.sys.threads == n.sys.threads && SameOn(m.sys.client.synced, n.sys.client.synced, f)
      && (HasValueOn(n.sys.client.synced, f) ==> HasValueOn(m.sys.client.synced, f))
  {
    PolledAsking(n);
    var q := NetStep(n, Local(Pop));
    var r := NetStep(q, Onward(q));
    var rest := Approach(r, f);
    NetFirst(q, Onward(q), rest);
    NetFirst(n, Local(Pop), [Onward(q)] + rest);
    evs := [Local(Pop)] + ([Onward(q)] + rest);
  }

  lemma PolledAsking(n: Net)
    requires Moving(n) && n.sys.poller.Popping?
    ensures NetEnabled(n, Local(Pop))
    ensures var q := NetStep(n, Local(Pop)); var r := NetStep(q, Onward(q));
      && NetEnabled(q, Onward(q)) && Continues([Onward(q)])
      && Moving(r) && RefillDue(r) && r.sys.poller.Sending?
      && r.sys.threads == n.sys.threads && r.sys.client.synced == n.sys.client.synced
  {
    assert AsksFullState(ASKING.flags);
    var q := NetStep(n, Local(Pop));
    NumbersKept(n, Local(Pop));
    NumbersKept(q, Onward(q));
  }

  // ----- From every endangering change a difference can come -----

  /** The server suspects nothing, no operation on the field is halfway, and its
      value neither waits in the next message nor is seen. */
  ghost predicate Missed(n: Net, f: Field) {
    && !NetAlarmed(n) && !Busy(n.sys, f)
    && !SettledOn(n.sys.client.next, n.sys.client.synced, NetSeen(n), f)
  }

  /** The waiting message has been received, and leaves the server with another
      value than the client. */
  ghost predicate Delivered(p: Net, m: Net, f: Field) {
    && Missed(m, f) && m.sys.poller.Sending?
    && m.sys.client.synced == p.sys.client.synced && m.sys.threads == p.sys.threads
    && m.sys.log == p.sys.log + [Stamp(p.sys.client.next)]
    && SameOn(m.server.view, Merge(p.server.view, p.sys.client.next), f)
    && (OthersElsewhere(p.sys, {}, f) ==> Stuck(m, f))
  }

  lemma PopMentionsNothing(s: Sys, f: Field)
    requires s.poller.Popping?
    ensures var v := Step(s, Pop);
      && !MentionsOn(v.client.next, f) && v.client.synced == s.client.synced && v.threads == s.threads
      && v.poller.Sending? && v.log == s.log + [Stamp(s.client.next)]
  {
  }

  lemma TakenAndReceived(n: Net)
    requires Moving(n) && n.sys.poller.Popping? && (n.tagged || !NetAlarmed(n))
    ensures var ev := Arrive(Next(n.server, Stamp(n.sys.client.next), false), PLAIN);
      && NetEnabled(n, Local(Pop)) && NetEnabled(NetStep(n, Local(Pop)), ev)
      && var m := NetStep(NetStep(n, Local(Pop)), ev);
        && m.sys == Step(n.sys, Pop) && m.server == Next(n.server, Stamp(n.sys.client.next), false)
        && m.flight.None? && m.answer == Some(PLAIN)
        && NetNumbered(m) && !NetAlarmed(m) && Owned(m.sys)
  {
    NumbersKept(n, Local(Pop));
    var q := NetStep(n, Local(Pop));
    NumbersKept(q, Arrive(Next(n.server, Stamp(n.sys.client.next), false), PLAIN));
  }

  lemma Deliver(n: Net, f: Field) returns (evs: seq<NetEvent>)
    requires Moving(n) && n.sys.poller.Popping? && (n.tagged || !NetAlarmed(n)) && !ThreadMidway(n.sys, f)
    requires !WillBeSeen(n.sys.client.next, n.sys.client.synced, n.server.view, f)
    ensures Continues(evs) && Delivered(n, NetAfter(n, evs), f)
  {
    var ev := Arrive(Next(n.server, Stamp(n.sys.client.next), false), PLAIN);
    TakenAndReceived(n);
    PopMentionsNothing(n.sys, f);
    NetOne(NetStep(n, Local(Pop)), ev);
    NetFirst(n, Local(Pop), [ev]);
    evs := [Local(Pop)] + [ev];
  }

  // ----- Threads that overlap -----

  /** About to put another value than the stored one. */
  predicate Stale(s: Sys, t: nat, f: Field) {
    t in s.threads && Midway(s.threads[t], f) && !Stored(s.client.synced, s.threads[t].c)
  }

  lemma NotBoth(before: Data, d: Data, c: Setter, b: Setter, f: Field)
    requires On(c, f) && On(b, f) && Stored(before, c) && !Stored(before, b)
    ensures !(Stored(d, c) && Stored(d, b))
  {
  }

  /** Of the overtaken thread and the writer, one has another value than the state,
      whatever a callback has stored meanwhile. */
  lemma SomeStale(s: Sys, e: Event, u: nat, p: Sys, f: Field) returns (v: nat)
    requires ThreadsCurrent(s, f) && Rewrites(s, e, f) && u in s.threads && Midway(s.threads[u], f)
    requires p.threads == Step(s, e).threads
    requires !MayWrite(Step(s, e).poller, f) ==> SameOn(p.client.synced, Step(s, e).client.synced, f)
    ensures Stale(p, v, f)
    ensures e.Advance? && !MayWrite(s.poller, f) ==> SameOn(Store(p.client.synced, p.threads[v].c), s.client.synced, f)
  {
    if e.Advance? {
      assert p.threads[e.thread] == Updating(s.threads[e.thread].c) && p.threads[u] == s.threads[u];
      NotBoth(s.client.synced, p.client.synced, s.threads[u].c, s.threads[e.thread].c, f);
      v := if Stored(p.client.synced, s.threads[u].c) then e.thread else u;
    } else {
      NotBoth(s.client.synced, p.client.synced, s.threads[u].c, s.poller.op.c, f);
      StoredStays(p.client.synced, Step(s, e).client.synced, s.poller.op.c, f);
      v := u;
    }
  }

  /** Only halfway threads have moved, and only the message has changed. */
  ghost predicate OnlyPut(s: Sys, w: Sys) {
    && w == s.(threads := w.threads, client := s.client.(next := w.client.next))
    && SameHeader(w.client.next, s.client.next)
    && w.threads.Keys == s.threads.Keys
    && (forall t :: t in s.threads ==> w.threads[t] == s.threads[t] || w.threads[t].Notifying?)
  }

  lemma OnlyPutTwice(s: Sys, w: Sys, v: Sys)
    requires OnlyPut(s, w) && OnlyPut(w, v)
    ensures OnlyPut(s, v)
  {
  }

  function AfterPut(s: Sys, t: nat): Sys
    requires t in s.threads && s.threads[t].Updating?
  {
    s.(threads := s.threads[t := Notifying], client := s.client.(next := Put(s.client.next, s.threads[t].c)))
  }

  lemma {:induction false} PutFirst(s: Sys, t: nat, rest: seq<Event>)
    requires t in s.threads && s.threads[t].Updating?
    ensures Interleaving.After(s, [Advance(t)] + rest) == Interleaving.After(AfterPut(s, t), rest)
  {
    assert Interleaving.After(s, []) == s;
    assert Interleaving.After(s, [Advance(t)]) == AfterPut(s, t);
    AfterAppend(s, [Advance(t)], rest);
  }

  lemma PutIsOnlyThat(s: Sys, t: nat, f: Field)
    requires t in s.threads && Midway(s.threads[t], f)
    ensures OnlyPut(s, AfterPut(s, t)) && MidwayThreads(AfterPut(s, t), f) == MidwayThreads(s, f) - {t}
  {
    PutKeepsHeader(s.client.next, s.threads[t].c);
  }

  /** The halfway threads have finished, and the value of `v` has come last. */
  ghost predicate Finishes(s: Sys, es: seq<Event>, v: nat, f: Field)
    requires v in s.threads && Midway(s.threads[v], f)
  {
    && (forall i :: 0 <= i < |es| ==> es[i].Advance?)
    && var w := Interleaving.After(s, es);
      && OnlyPut(s, w) && MidwayThreads(w, f) == {}
      && ReportsOn(w.client.next, Store(s.client.synced, s.threads[v].c), f)
  }

  lemma FinishedBefore(s: Sys, t: nat, v: nat, rest: seq<Event>, f: Field)
    requires t in s.threads && Midway(s.threads[t], f) && v in s.threads && Midway(s.threads[v], f) && t != v
    requires Finishes(AfterPut(s, t), rest, v, f)
    ensures Finishes(s, [Advance(t)] + rest, v, f)
  {
    PutFirst(s, t, rest);
    PutIsOnlyThat(s, t, f);
    OnlyPutTwice(s, AfterPut(s, t), Interleaving.After(AfterPut(s, t), rest));
  }

  lemma FinishLast(s: Sys, v: nat, f: Field) returns (es: seq<Event>)
    requires MidwayThreads(s, f) == {v} && v in s.threads && Midway(s.threads[v], f)
    ensures Finishes(s, es, v, f)
  {
    PutIsOnlyThat(s, v, f);
    PutFirst(s, v, []);
    PutReports(s.client.next, Store(s.client.synced, s.threads[v].c), s.threads[v].c, f);
    es := [Advance(v)] + [];
  }

  /** The threads that are halfway finish, the stale one last. */
  lemma {:induction false} FinishStale(s: Sys, v: nat, f: Field) returns (es: seq<Event>)
    requires v in s.threads && Midway(s.threads[v], f)
    ensures Finishes(s, es, v, f)
    decreases |MidwayThreads(s, f)|
  {
    if t :| t in MidwayThreads(s, f) && t != v {
      PutIsOnlyThat(s, t, f);
      var rest := FinishStale(AfterPut(s, t), v, f);
      FinishedBefore(s, t, v, rest, f);
      es := [Advance(t)] + rest;
    } else {
      assert MidwayThreads(s, f) == {v};
      es := FinishLast(s, v, f);
    }
  }

  lemma PutKeepsHeader(m: AgentToServer, c: Setter)
    ensures SameHeader(Put(m, c), m)
  {
  }

  ghost predicate OnlyMidway(s: Sys, f: Field) {
    forall t :: t in s.threads ==> Midway(s.threads[t], f) || Elsewhere(s.threads[t], f)
  }

  lemma NoneMidwayIsElsewhere(s: Sys, w: Sys, f: Field)
    requires OnlyPut(s, w) && MidwayThreads(w, f) == {} && OnlyMidway(s, f)
    ensures OthersElsewhere(w, {}, f)
  {
    forall t | t in w.threads ensures Elsewhere(w.threads[t], f) {
      assert t !in MidwayThreads(w, f);
    }
  }

  /** A refilled message with a stale value is received. */
  lemma DeliverStale(n: Net, v: nat, f: Field) returns (evs: seq<NetEvent>)
    requires Moving(n) && n.sys.poller.Popping? && n.tagged && Stale(n.sys, v, f) && HasValueOn(n.sys.client.synced, f)
    ensures Continues(evs)
    ensures var m := NetAfter(n, evs);
      && Missed(m, f) && (OnlyMidway(n.sys, f) ==> Stuck(m, f))
      && LastIsWrong(m.sys, f)
      && SameOn(m.server.view, Store(n.sys.client.synced, n.sys.threads[v].c), f)
      && m.sys.client.synced == n.sys.client.synced
  {
    var first := NetFinishStale(n, v, f);
    var p := NetAfter(n, first);
    StaleIsOther(p.sys.client.next, n.sys.client.synced, n.server.view, n.sys.threads[v].c, f);
    var poll := Deliver(p, f);
    NetAppend(n, first, poll);
    evs := first + poll;
  }

  lemma NetFinishStale(n: Net, v: nat, f: Field) returns (evs: seq<NetEvent>)
    requires Moving(n) && n.sys.poller.Popping? && v in n.sys.threads && Midway(n.sys.threads[v], f)
    ensures Continues(evs)
    ensures var p := NetAfter(n, evs);
      && p == n.(sys := p.sys) && Moving(p) && p.sys.poller.Popping? && !ThreadMidway(p.sys, f)
      && p.sys.client.synced == n.sys.client.synced
      && ReportsOn(p.sys.client.next, Store(n.sys.client.synced, n.sys.threads[v].c), f)
      && (OnlyMidway(n.sys, f) ==> OthersElsewhere(p.sys, {}, f))
  {
    var es, w := StaleComesLast(n.sys, v, f);
    LocalRun(n, es);
    evs := Locals(es);
  }

  lemma StaleComesLast(s: Sys, v: nat, f: Field) returns (es: seq<Event>, w: Sys)
    requires Owned(s) && v in s.threads && Midway(s.threads[v], f)
    ensures forall i :: 0 <= i < |es| ==> es[i].Advance?
    ensures w == Interleaving.After(s, es) && OnlyPut(s, w) && Owned(w)
    ensures !ThreadMidway(w, f)
    ensures ReportsOn(w.client.next, Store(s.client.synced, s.threads[v].c), f)
    ensures OnlyMidway(s, f) ==> OthersElsewhere(w, {}, f)
  {
    es := FinishStale(s, v, f);
    w := Interleaving.After(s, es);
    OwnedAfter(s, es);
    NoneMidway(w, f);
    if OnlyMidway(s, f) { NoneMidwayIsElsewhere(s, w, f); }
  }

  /** The latest message has a report of the field, and not of the stored value. */
  ghost predicate LastIsWrong(s: Sys, f: Field) {
    && s.poller.Sending? && s.log != [] && MentionsOn(s.log[|s.log| - 1], f)
    && HasValueOn(s.client.synced, f) && !ReportsOn(s.log[|s.log| - 1], s.client.synced, f)
  }

  lemma StaleIsOther(next: AgentToServer, synced: Data, view: Data, c: Setter, f: Field)
    requires On(c, f) && !Stored(synced, c) && HasValueOn(synced, f) && ReportsOn(next, Store(synced, c), f)
    ensures !WillBeSeen(next, synced, view, f)
    ensures SameOn(Merge(view, next), Store(synced, c), f)
    ensures MentionsOn(Stamp(next), f) && !ReportsOn(Stamp(next), synced, f)
  {
  }

  /** A thread is midway on the field, and another thread or a callback changes it:
      alarmed or not, with nothing lost, the server can be left with a value that
      is not the client's. */
  lemma OverlapIsMissed(n: Net, e: Event, f: Field) returns (evs: seq<NetEvent>)
    requires Owned(n.sys) && NetNumbered(n) && (n.sys.poller.Sending? ==> n.flight.Some? || n.answer.Some?)
    requires ThreadsCurrent(n.sys, f) && ThreadMidway(n.sys, f) && Rewrites(n.sys, e, f)
    ensures NetEnabled(n, Local(e)) && Continues(evs)
    ensures var m := NetAfter(NetStep(n, Local(e)), evs);
      && Missed(m, f) && LastIsWrong(m.sys, f)
      && (OnlyMidway(Step(n.sys, e), f) ==> Stuck(m, f))
      && (e.Advance? && !MayWrite(n.sys.poller, f) ==>
            && SameOn(m.sys.client.synced, Step(n.sys, e).client.synced, f)
            && SameOn(m.server.view, n.sys.client.synced, f))
  {
    var u :| u in n.sys.threads && Midway(n.sys.threads[u], f);
    Rewritten(n, e, f);
    evs := FinishOverlap(n.sys, e, u, NetStep(n, Local(e)), f);
  }

  lemma FinishOverlap(s: Sys, e: Event, u: nat, n: Net, f: Field) returns (evs: seq<NetEvent>)
    requires ThreadsCurrent(s, f) && Rewrites(s, e, f) && u in s.threads && Midway(s.threads[u], f)
    requires n.sys == Step(s, e) && Moving(n) && HasValueOn(n.sys.client.synced, f)
    ensures Continues(evs)
    ensures var m := NetAfter(n, evs);
      && Missed(m, f) && LastIsWrong(m.sys, f)
      && (OnlyMidway(n.sys, f) ==> Stuck(m, f))
      && (e.Advance? && !MayWrite(s.poller, f) ==>
            SameOn(m.sys.client.synced, n.sys.client.synced, f) && SameOn(m.server.view, s.client.synced, f))
  {
    var first := ApproachTagged(n, f);
    var p := NetAfter(n, first);
    var v := SomeStale(s, e, u, p.sys, f);
    var rest := DeliverStale(p, v, f);
    NetAppend(n, first, rest);
    evs := first + rest;
  }

  lemma Rewritten(n: Net, e: Event, f: Field)
    requires Owned(n.sys) && NetNumbered(n) && (n.sys.poller.Sending? ==> n.flight.Some? || n.answer.Some?)
    requires Rewrites(n.sys, e, f) && ThreadMidway(n.sys, f)
    ensures NetEnabled(n, Local(e))
    ensures var m := NetStep(n, Local(e));
      && Moving(m) && m.sys == Step(n.sys, e) && HasValueOn(m.sys.client.synced, f)
  {
    NumbersKept(n, Local(e));
  }

  // ----- A thread and a refill, or a thread and a callback -----

  /** The writer has stored its value and put it into the message. */
  function Written(n: Net, t: nat): Net
    requires t in n.sys.threads && n.sys.threads[t].Writing?
  {
    var b := n.sys.threads[t].c;
    n.(sys := n.sys.(
         threads := n.sys.threads[t := Notifying],
         client := n.sys.client.(synced := Store(n.sys.client.synced, b), next := Put(n.sys.client.next, b))))
  }

  lemma {:induction false} WritesFirst(n: Net, t: nat, rest: seq<NetEvent>, f: Field)
    requires t in n.sys.threads && Changes(n.sys.client.synced, n.sys.threads[t], f)
    ensures NetEnabled(n, Local(Advance(t)))
    ensures NetAfter(NetStep(n, Local(Advance(t))), [Local(Advance(t))] + rest) == NetAfter(Written(n, t), rest)
    ensures NetStep(n, Local(Advance(t))).sys.log == n.sys.log
    ensures NetStep(n, Local(Advance(t))).sys.client.synced == Store(n.sys.client.synced, n.sys.threads[t].c)
  {
    var q := NetStep(n, Local(Advance(t)));
    assert NetStep(q, Local(Advance(t))) == Written(n, t);
    NetFirst(q, Local(Advance(t)), rest);
  }

  lemma WrittenMoves(n: Net, t: nat, f: Field)
    requires Tracked(n) && t in n.sys.threads && Changes(n.sys.client.synced, n.sys.threads[t], f)
    requires !ThreadMidway(n.sys, f)
    ensures var m := Written(n, t);
      && Moving(m) && !ThreadMidway(m.sys, f)
      && (NetAlarmed(m) <==> NetAlarmed(n))
      && (OthersElsewhere(n.sys, {t}, f) ==> OthersElsewhere(m.sys, {}, f))
      && HasValueOn(m.sys.client.synced, f) && !SameOn(n.sys.client.synced, m.sys.client.synced, f)
  {
    var m := Written(n, t);
    PutKeepsHeader(n.sys.client.next, n.sys.threads[t].c);
    StoredIsNew(n.sys.client.synced, n.sys.threads[t].c, f);
    assert m.sys.threads[t].Notifying?;
    NetAlarmIffOwed(n);
    NetAlarmIffOwed(m);
  }

  /** What was read is what the message reports of the field, if anything. */
  predicate TellsOf(m: AgentToServer, d: Data, f: Field) {
    if HasValueOn(d, f) then ReportsOn(m, d, f) else !MentionsOn(m, f)
  }

  /** A full-state answer that has read the field comes to its refill. */
  lemma {:induction false} NetFinishRefill(n: Net, f: Field) returns (evs: seq<NetEvent>)
    requires Moving(n) && HasRead(n.sys.poller, f)
    ensures Continues(evs)
    ensures var m := NetAfter(n, evs);
      && m == n.(sys := m.sys, tagged := true) && Moving(m) && m.sys.poller.Resending?
      && m.sys.threads == n.sys.threads && m.sys.client.synced == n.sys.client.synced && m.sys.log == n.sys.log
      && TellsOf(m.sys.client.next, ReadData(n.sys.poller), f)
    decreases Distance(n)
  {
    OnwardIsEnabled(n);
    OnwardMoves(n);
    OnwardIsCloser(n);
    var m := NetStep(n, Onward(n));
    if n.sys.poller.Refilling? {
      RefillPutsRead(n.sys, None, f);
      NetOne(n, Onward(n));
      evs := [Onward(n)];
    } else {
      ReadingGoesOn(n.sys, f);
      var rest := NetFinishRefill(m, f);
      NetFirst(n, Onward(n), rest);
      evs := [Onward(n)] + rest;
      SameTelling(NetAfter(m, rest).sys.client.next, ReadData(n.sys.poller), ReadData(m.sys.poller), f);
    }
  }

  lemma SameTelling(m: AgentToServer, a: Data, b: Data, f: Field)
    requires SameOn(b, a, f)
    ensures TellsOf(m, a, f) == TellsOf(m, b, f)
  {
  }

  lemma TellingStays(m: AgentToServer, n: AgentToServer, d: Data, f: Field)
    requires SameReport(n, m, f)
    ensures TellsOf(m, d, f) == TellsOf(n, d, f) && MentionsOn(m, f) == MentionsOn(n, f)
  {
  }

  /** What the server has after a message that tells of `d`. */
  lemma TellingIsSeen(next: AgentToServer, view: Data, d: Data, synced: Data, f: Field)
    requires TellsOf(next, d, f) && HasValueOn(synced, f) && !SameOn(d, synced, f)
    requires HasValueOn(d, f) || !SameOn(view, synced, f)
    ensures !WillBeSeen(next, synced, view, f)
    ensures SameOn(Merge(view, next), if HasValueOn(d, f) then d else view, f)
  {
  }

  /** The polling thread takes the message as it is, and the server receives it. */
  lemma ApproachAndDeliver(n: Net, d: Data, f: Field) returns (evs: seq<NetEvent>)
    requires Moving(n) && Restful(n.sys, f) && (n.tagged || !NetAlarmed(n)) && !ThreadMidway(n.sys, f)
    requires TellsOf(n.sys.client.next, d, f)
    requires HasValueOn(n.sys.client.synced, f) && !SameOn(d, n.sys.client.synced, f)
    requires HasValueOn(d, f) || !SameOn(n.server.view, n.sys.client.synced, f)
    ensures Continues(evs)
    ensures var m := NetAfter(n, evs);
      && Missed(m, f) && (OthersElsewhere(n.sys, {}, f) ==> Stuck(m, f))
      && LastTells(n.sys, m.sys, d, f)
      && SameOn(m.server.view, if HasValueOn(d, f) then d else n.server.view, f)
  {
    var first := Approach(n, f);
    var p := NetAfter(n, first);
    NetAlarmIffOwed(n);
    NetAlarmIffOwed(p);
    TellingStays(n.sys.client.next, p.sys.client.next, d, f);
    SameOnTrans(p.sys.client.synced, n.sys.client.synced, n.sys.client.synced, f);
    NotSameOn(d, n.sys.client.synced, p.sys.client.synced, n.server.view, f);
    TellingIsSeen(p.sys.client.next, p.server.view, d, p.sys.client.synced, f);
    var poll := Deliver(p, f);
    NetAppend(n, first, poll);
    evs := first + poll;
  }

  lemma NotSameOn(d: Data, a: Data, b: Data, view: Data, f: Field)
    requires SameOn(b, a, f)
    ensures SameOn(d, a, f) == SameOn(d, b, f) && SameOn(view, a, f) == SameOn(view, b, f)
  {
  }

  /** One message has been handed out, which tells of `d`, and the state has another
      value. */
  ghost predicate LastTells(s: Sys, v: Sys, d: Data, f: Field) {
    && |v.log| == |s.log| + 1 && v.log[..|s.log|] == s.log
    && TellsOf(v.log[|s.log|], d, f)
    && SameOn(v.client.synced, s.client.synced, f) && v.poller.Sending?
  }

  /** A refill has read the field, and a thread changes it: the refilled message
      tells of what was read. If that is nothing, and the server should happen to
      remember the very value now set, a restart makes the difference. */
  lemma RefillIsMissed(n: Net, t: nat, f: Field) returns (evs: seq<NetEvent>)
    requires Tracked(n) && HasRead(n.sys.poller, f) && ReadIsCurrent(n.sys, f) && !ThreadMidway(n.sys, f)
    requires t in n.sys.threads && Changes(n.sys.client.synced, n.sys.threads[t], f)
    ensures NetEnabled(n, Local(Advance(t))) && CallFree(evs)
    ensures var b := Store(n.sys.client.synced, n.sys.threads[t].c);
      HasValueOn(n.sys.client.synced, f) || !SameOn(n.server.view, b, f) ==>
        && Lossless(evs)
        && SameOn(NetAfter(NetStep(n, Local(Advance(t))), evs).server.view,
                  if HasValueOn(n.sys.client.synced, f) then n.sys.client.synced else n.server.view, f)
    ensures var (q, m) := (NetStep(n, Local(Advance(t))), NetAfter(NetStep(n, Local(Advance(t))), evs));
      && Missed(m, f) && (OthersElsewhere(n.sys, {t}, f) ==> Stuck(m, f))
      && LastTells(q.sys, m.sys, n.sys.client.synced, f)
  {
    WrittenMoves(n, t, f);
    var rest := FromRefill(Written(n, t), n.sys.client.synced, f);
    WritesFirst(n, t, rest, f);
    evs := [Local(Advance(t))] + rest;
  }

  lemma StoredIsNew(synced: Data, b: Setter, f: Field)
    requires On(b, f) && !Stored(synced, b)
    ensures HasValueOn(Store(synced, b), f) && !SameOn(synced, Store(synced, b), f)
  {
  }

  lemma FromRefill(n: Net, d: Data, f: Field) returns (evs: seq<NetEvent>)
    requires Moving(n) && HasRead(n.sys.poller, f) && SameOn(ReadData(n.sys.poller), d, f)
    requires !ThreadMidway(n.sys, f) && HasValueOn(n.sys.client.synced, f) && !SameOn(d, n.sys.client.synced, f)
    ensures CallFree(evs)
    ensures HasValueOn(d, f) || !SameOn(n.server.view, n.sys.client.synced, f) ==>
      && Lossless(evs)
      && SameOn(NetAfter(n, evs).server.view, if HasValueOn(d, f) then d else n.server.view, f)
    ensures var m := NetAfter(n, evs);
      && Missed(m, f) && (OthersElsewhere(n.sys, {}, f) ==> Stuck(m, f))
      && LastTells(n.sys, m.sys, d, f)
  {
    if HasValueOn(d, f) || !SameOn(n.server.view, n.sys.client.synced, f) {
      evs := FromRefillWith(n, d, f);
    } else {
      var m := NetStep(n, Reboot(NO_DATA));
      NumbersKept(n, Reboot(NO_DATA));
      var rest := FromRefillWith(m, d, f);
      NetFirst(n, Reboot(NO_DATA), rest);
      evs := [Reboot(NO_DATA)] + rest;
    }
  }

  lemma FromRefillWith(n: Net, d: Data, f: Field) returns (evs: seq<NetEvent>)
    requires Moving(n) && HasRead(n.sys.poller, f) && SameOn(ReadData(n.sys.poller), d, f)
    requires !ThreadMidway(n.sys, f) && HasValueOn(n.sys.client.synced, f) && !SameOn(d, n.sys.client.synced, f)
    requires HasValueOn(d, f) || !SameOn(n.server.view, n.sys.client.synced, f)
    ensures Continues(evs)
    ensures var m := NetAfter(n, evs);
      && Missed(m, f) && (OthersElsewhere(n.sys, {}, f) ==> Stuck(m, f))
      && LastTells(n.sys, m.sys, d, f)
      && SameOn(m.server.view, if HasValueOn(d, f) then d else n.server.view, f)
  {
    var fill := NetFinishRefill(n, f);
    var m := NetAfter(n, fill);
    SameTelling(m.sys.client.next, d, ReadData(n.sys.poller), f);
    var rest := ApproachAndDeliver(m, d, f);
    NetAppend(n, fill, rest);
    evs := fill + rest;
  }

  /** A callback is midway on the field, the server suspects nothing, no full state
      has been asked for, and a thread changes the field: the callback's older
      value comes last. */
  lemma CallbackIsMissed(n: Net, t: nat, f: Field) returns (evs: seq<NetEvent>)
    requires Tracked(n) && PollerMidway(n.sys.poller, f) && PollerCurrent(n.sys, f) && !ThreadMidway(n.sys, f)
    requires !RefillComing(n.sys) && (n.tagged || !NetAlarmed(n))
    requires t in n.sys.threads && Changes(n.sys.client.synced, n.sys.threads[t], f)
    ensures NetEnabled(n, Local(Advance(t))) && Continues(evs)
    ensures var (q, m) := (NetStep(n, Local(Advance(t))), NetAfter(NetStep(n, Local(Advance(t))), evs));
      && Missed(m, f) && (OthersElsewhere(n.sys, {t}, f) ==> Stuck(m, f))
      && LastTells(q.sys, m.sys, n.sys.client.synced, f)
  {
    WrittenMoves(n, t, f);
    var rest := FromCallback(Written(n, t), n.sys.client.synced, f);
    WritesFirst(n, t, rest, f);
    evs := [Local(Advance(t))] + rest;
  }

  lemma FromCallback(n: Net, d: Data, f: Field) returns (evs: seq<NetEvent>)
    requires Moving(n) && PollerMidway(n.sys.poller, f) && Stored(d, n.sys.poller.op.c) && !RefillComing(n.sys)
    requires (n.tagged || !NetAlarmed(n)) && !ThreadMidway(n.sys, f)
    requires HasValueOn(n.sys.client.synced, f) && !SameOn(d, n.sys.client.synced, f)
    ensures Continues(evs)
    ensures var m := NetAfter(n, evs);
      && Missed(m, f) && (OthersElsewhere(n.sys, {}, f) ==> Stuck(m, f))
      && LastTells(n.sys, m.sys, d, f)
  {
    CallbackPuts(n, d, f);
    var rest := ApproachAndDeliver(WithCallbackPut(n), d, f);
    CallbackFirst(n, rest);
    evs := [Local(CallbackAdvances)] + rest;
  }

  /** The callback's operation has put its value into the message. */
  function WithCallbackPut(n: Net): Net
    requires n.sys.poller.InCallback? && n.sys.poller.op.Updating?
  {
    n.(sys := n.sys.(
         poller := n.sys.poller.(op := Notifying),
         client := n.sys.client.(next := Put(n.sys.client.next, n.sys.poller.op.c))))
  }

  lemma {:induction false} CallbackFirst(n: Net, rest: seq<NetEvent>)
    requires n.sys.poller.InCallback? && n.sys.poller.op.Updating?
    ensures NetAfter(n, [Local(CallbackAdvances)] + rest) == NetAfter(WithCallbackPut(n), rest)
  {
    assert NetStep(n, Local(CallbackAdvances)) == WithCallbackPut(n);
    NetFirst(n, Local(CallbackAdvances), rest);
  }

  lemma CallbackPuts(n: Net, d: Data, f: Field)
    requires Moving(n) && PollerMidway(n.sys.poller, f) && Stored(d, n.sys.poller.op.c) && !RefillComing(n.sys)
    ensures var p := WithCallbackPut(n);
      && Moving(p) && Restful(p.sys, f)
      && TellsOf(p.sys.client.next, d, f) && HasValueOn(d, f)
      && (NetAlarmed(p) <==> NetAlarmed(n))
  {
    PutKeepsHeader(n.sys.client.next, n.sys.poller.op.c);
    PutReports(n.sys.client.next, d, n.sys.poller.op.c, f);
    NetAlarmIffOwed(n);
    NetAlarmIffOwed(WithCallbackPut(n));
  }

  // ----- The condition is exact -----

  /** Every endangering change can be continued, without a new call, to a difference
      that goes unnoticed. */
  lemma EndangeredIsMissed(n: Net, ev: NetEvent, f: Field) returns (evs: seq<NetEvent>)
    requires NetInv(n, f) && Endangers(n, ev, f)
    ensures NetEnabled(n, ev) && CallFree(evs) && CallFree([ev] + evs) && Missed(NetAfter(n, [ev] + evs), f)
  {
    if ThreadMidway(n.sys, f) {
      evs := OverlapIsMissed(n, ev.e, f);
    } else if HasRead(n.sys.poller, f) {
      evs := RefillIsMissed(n, ev.e.thread, f);
    } else {
      NetAlarmIffOwed(n);
      evs := CallbackIsMissed(n, ev.e.thread, f);
    }
    NetFirst(n, ev, evs);
  }

  ghost predicate CanBeMissed(n: Net, f: Field) {
    exists evs :: CallFree(evs) && Missed(NetAfter(n, evs), f)
  }

  ghost predicate CanBeEndangered(n: Net, f: Field) {
    exists evs :: CallFree(evs) && !NetSafe(n, evs, f)
  }

  /** The first endangering change of a schedule that has one. */
  lemma {:induction false} FirstEndangering(n: Net, evs: seq<NetEvent>, f: Field) returns (k: nat)
    requires !NetSafe(n, evs, f)
    ensures k < |evs| && NetSafe(n, evs[..k], f) && Endangers(NetAfter(n, evs[..k]), evs[k], f)
    decreases |evs|
  {
    var init := evs[..|evs| - 1];
    if NetSafe(n, init, f) {
      k := |init|;
    } else {
      k := FirstEndangering(n, init, f);
      assert init[..k] == evs[..k];
    }
  }

  lemma {:induction false} UnsafeCanBeMissed(n: Net, evs: seq<NetEvent>, f: Field)
    requires NetInv(n, f) && CallFree(evs) && !NetSafe(n, evs, f)
    ensures CanBeMissed(n, f)
  {
    var k := FirstEndangering(n, evs, f);
    var m := NetAfter(n, evs[..k]);
    NetRunKeepsInv(n, evs[..k], f);
    var rest := EndangeredIsMissed(m, evs[k], f);
    NetAppend(n, evs[..k], [evs[k]] + rest);
    assert CallFree(evs[..k] + ([evs[k]] + rest));
  }

  /** Gap completeness of a field, exactly: from any state with the invariant, hence
      from any that is reached safely, the calls under way can lead to a
      difference that goes unnoticed if and only if they can interleave with an
      endangering change. */
  lemma MissedIffEndangered(n: Net, f: Field)
    requires NetInv(n, f)
    ensures CanBeMissed(n, f) <==> CanBeEndangered(n, f)
  {
    if CanBeEndangered(n, f) {
      var evs :| CallFree(evs) && !NetSafe(n, evs, f);
      UnsafeCanBeMissed(n, evs, f);
    }
    if CanBeMissed(n, f) {
      var evs :| CallFree(evs) && Missed(NetAfter(n, evs), f);
      if NetSafe(n, evs, f) { NetRunKeepsInv(n, evs, f); }
    }
  }

  /** The same for whole runs: from the first endangering change of any schedule the
      calls under way can lead to a difference that goes unnoticed. */
  lemma EndangeredRunIsMissed(settings: StartSettings, memory: Data, evs: seq<NetEvent>, f: Field)
    returns (k: nat, more: seq<NetEvent>)
    requires !NetSafe(NetInit(settings, memory), evs, f)
    ensures k < |evs| && NetSafe(NetInit(settings, memory), evs[..k], f) && CallFree(more)
    ensures Missed(NetAfter(NetInit(settings, memory), evs[..k] + ([evs[k]] + more)), f)
  {
    var init := NetInit(settings, memory);
    k := FirstEndangering(init, evs, f);
    NetReachable(settings, memory, evs[..k], f);
    more := EndangeredIsMissed(NetAfter(init, evs[..k]), evs[k], f);
    NetAppend(init, evs[..k], [evs[k]] + more);
  }
}
