/** Any number of threads calling setters, together with the polling thread, one
    lock acquisition or channel operation at a time. The polling thread tries its
    three channels one after another: exit, pending message, ticker. A setter checks the synced
    state, writes it, updates the next message and notifies, in four steps; the
    answer to a full-state request reads the five fields one by one before it
    updates the message. */
module Interleaving {
  import opened Proto
  import opened Capabilities
  import opened Compression
  import opened Settings
  import opened Status

  /** What a running setter does next. */
  datatype Op = Done | Checking(c: Setter) | Writing(c: Setter) | Updating(c: Setter) | Notifying

  /** Where the polling thread goes when a callback returns. */
  datatype Continuation = ToSelect | ToAbort | ToProcess(resp: ServerToAgent) | ToFlags(flags: bv64)

  /** `Selecting`, `AtPending` and `AtTicker`: about to try the exit channel, the
      notifications, the ticker. */
  datatype Poller =
    | Selecting
    | AtPending
    | AtTicker
    | Popping
    | Sending
    | Processing(resp: ServerToAgent)
    | InCallback(after: Continuation, op: Op)
    | Reading(count: nat, read: Data)
    | Refilling(full: Data)
    | Resending
    | Stopped

  /** `closing` once the owner of the client has called `stop` or gone away;
      `sent` and `taken` count the notifications put into and taken from the
      channel; `log` holds the messages handed out, oldest first. */
  datatype Sys = Sys(
    client: Client,
    threads: map<nat, Op>,
    poller: Poller,
    log: seq<AgentToServer>,
    sent: nat,
    taken: nat,
    started: bool,
    closing: bool,
    dropped: bool)

  datatype Event =
    | Begin(thread: nat, call: Setter)
    | Advance(thread: nat)
    | PassExit
    | TakeToken
    | PassPending
    | Tick
    | Retry
    | Exit
    | Pop
    | SendFails
    | Respond(resp: ServerToAgent)
    | Dispatch
    | CallbackSets(call: Setter)
    | CallbackAdvances
    | CallbackReturns
    | ReadField
    | PutFull(config: Option<EffectiveConfig>)
    | Resend
    | StartFails
    | Close
    | Drop

  /** The first poll is made by `start` itself, before the thread is spawned; if it
      fails and the startup check is on, the client goes away again. */
  function Init(settings: StartSettings): Sys {
    Sys(Start(settings), map[], Popping, [], 0, 0, false, false, false)
  }

  // ----- One setter -----

  function Begun(caps: Capabilities, c: Setter): Op {
    if Refusal(caps, c).Some? then Done
    else if c.UpdateEffectiveConfig? then Updating(c)
    else Checking(c)
  }

  function OpNext(s: Client, op: Op): Op
    requires !op.Done?
  {
    match op
    case Checking(c) => if Unchanged(s.synced, c) then Done else Writing(c)
    case Writing(c) => if Malformed(c) then Done else Updating(c)
    case Updating(_) => Notifying
    case Notifying => Done
  }

  function OpEffect(s: Client, op: Op): Client
    requires !op.Done?
  {
    match op
    case Checking(_) => s
    case Writing(c) => if Malformed(c) then s else s.(synced := Store(s.synced, c))
    case Updating(c) => s.(next := Put(s.next, c))
    case Notifying => s.(mailbox := s.mailbox.TrySend())
  }

  /** The effect of one step of `op` on the whole system. */
  function Effect(s: Sys, op: Op): Sys
    requires !op.Done?
  {
    var client := OpEffect(s.client, op);
    s.(client := client,
       sent := s.sent + if client.mailbox.tokens > s.client.mailbox.tokens then 1 else 0)
  }

  // ----- Steps -----

  predicate AllDone(s: Sys) {
    forall t :: t in s.threads ==> s.threads[t].Done?
  }

  const FIELDS := 5

  function ReadNext(read: Data, synced: Data, count: nat): Data {
    match count
    case 0 => read.(agentDescription := synced.agentDescription)
    case 1 => read.(health := synced.health)
    case 2 => read.(remoteConfigStatus := synced.remoteConfigStatus)
    case 3 => read.(packageStatuses := synced.packageStatuses)
    case 4 => read.(customCapabilities := synced.customCapabilities)
    case _ => read
  }

  /** `select_biased!` tries exit, then the notifications, then the ticker, and
      starts again; the channels may change between two tries. */
  predicate Enabled(s: Sys, e: Event) {
    match e
    case Begin(t, _) => s.started && !s.closing && (t in s.threads ==> s.threads[t].Done?)
    case Advance(t) => t in s.threads && !s.threads[t].Done?
    case PassExit => s.poller.Selecting? && !s.closing
    case TakeToken => s.poller.AtPending? && s.client.mailbox.tokens > 0
    case PassPending => s.poller.AtPending? && s.client.mailbox.tokens == 0
    case Tick => s.poller.AtTicker?
    case Retry => s.poller.AtTicker?
    case Exit => s.poller.Selecting? && s.closing
    case Pop => s.poller.Popping?
    case SendFails => s.poller.Sending?
    case Respond(_) => s.poller.Sending?
    case Dispatch => s.poller.Processing?
    case CallbackSets(_) => s.poller.InCallback? && s.poller.op.Done?
    case CallbackAdvances => s.poller.InCallback? && !s.poller.op.Done?
    case CallbackReturns => s.poller.InCallback? && s.poller.op.Done?
    case ReadField => s.poller.Reading?
    case PutFull(_) => s.poller.Refilling?
    case Resend => s.poller.Resending?
    case StartFails => s.poller.Sending? && !s.started
    case Close => s.started && !s.closing && AllDone(s)
    case Drop => s.closing && s.poller.Stopped? && !s.dropped
  }

  function Select(s: Sys): Sys {
    s.(poller := Selecting, started := true)
  }

  function Stop(s: Sys): Sys {
    s.(poller := Stopped, client := s.client.(mailbox := s.client.mailbox.(connected := false)))
  }

  function Handle(s: Sys, resp: ServerToAgent): Sys {
    if ObeysCommand(s.client.capabilities, resp) then s.(poller := InCallback(ToSelect, Done))
    else s.(client := s.client.(next := Identify(s.client.next, resp)), poller := InCallback(ToFlags(resp.flags), Done))
  }

  function Return(s: Sys, k: Continuation): Sys {
    match k
    case ToSelect => Select(s)
    case ToAbort => Stop(s.(closing := true))
    case ToProcess(resp) => s.(poller := Processing(resp))
    case ToFlags(flags) => if AsksFullState(flags) then s.(poller := Reading(0, NO_DATA)) else Select(s)
  }

  function Step(s: Sys, e: Event): Sys
    requires Enabled(s, e)
  {
    match e
    case Begin(t, c) => s.(threads := s.threads[t := Begun(s.client.capabilities, c)])
    case Advance(t) => Effect(s, s.threads[t]).(threads := s.threads[t := OpNext(s.client, s.threads[t])])
    case PassExit => s.(poller := AtPending)
    case PassPending => s.(poller := AtTicker)
    case Retry => s.(poller := Selecting)
    case TakeToken =>
      s.(client := s.client.(mailbox := s.client.mailbox.(tokens := s.client.mailbox.tokens - 1)),
         taken := s.taken + 1, poller := Popping)
    case Tick => s.(poller := Popping)
    case Exit => Stop(s)
    case Pop => s.(log := s.log + [Stamp(s.client.next)], client := AfterPop(s.client), poller := Sending)
    case SendFails => s.(poller := InCallback(ToSelect, Done))
    case Respond(resp) => s.(poller := InCallback(ToProcess(resp), Done))
    case Dispatch => Handle(s, s.poller.resp)
    case CallbackSets(c) => s.(poller := s.poller.(op := Begun(s.client.capabilities, c)))
    case CallbackAdvances => Effect(s, s.poller.op).(poller := s.poller.(op := OpNext(s.client, s.poller.op)))
    case CallbackReturns => Return(s, s.poller.after)
    case ReadField =>
      var read := ReadNext(s.poller.read, s.client.synced, s.poller.count);
      s.(poller := if s.poller.count + 1 < FIELDS then Reading(s.poller.count + 1, read) else Refilling(read))
    case PutFull(config) =>
      s.(client := s.client.(next := Refill(s.client.next, s.poller.full, config)), poller := Resending)
    case Resend => Select(Effect(s, Notifying))
    case StartFails => s.(poller := InCallback(ToAbort, Done))
    case Close => s.(closing := true)
    case Drop =>
      s.(log := s.log + [Stamp(s.client.next).(agentDisconnect := Some(AgentDisconnect))],
         client := AfterPop(s.client), dropped := true)
  }

  function Try(s: Sys, e: Event): Sys {
    if Enabled(s, e) then Step(s, e) else s
  }

  /** The state after a schedule; an event that cannot happen changes nothing. */
  function After(s: Sys, es: seq<Event>): Sys
    decreases |es|
  {
    if es == [] then s else Try(After(s, es[..|es| - 1]), es[|es| - 1])
  }

  // ----- Ownership and the channel -----

  ghost predicate Owned(s: Sys) {
    && (!s.started ==> s.threads == map[])
    && (s.closing ==> AllDone(s))
    && (s.dropped ==> s.closing && s.poller.Stopped?)
    && (s.poller.Stopped? <==> !s.client.mailbox.connected)
    && (s.poller.Stopped? ==> s.closing)
    && (s.poller.InCallback? && s.poller.after.ToAbort? ==> !s.started)
  }

  lemma StepKeepsOwned(s: Sys, e: Event)
    requires Owned(s) && Enabled(s, e)
    ensures Owned(Step(s, e))
  {
    if e.Begin? || e.Advance? {
    } else if e.CallbackAdvances? || e.Resend? {
    } else if e.CallbackReturns? || e.Exit? {
    } else if e.Close? || e.Drop? {
    } else {
      assert Step(s, e).threads == s.threads && Step(s, e).closing == s.closing;
    }
  }

  /** Notifications taken and notifications waiting add up to those that were put
      in, and at most one ever waits. */
  ghost predicate Conserved(s: Sys) {
    s.sent == s.taken + s.client.mailbox.tokens && s.client.mailbox.tokens <= CAPACITY
  }

  lemma StepKeepsConserved(s: Sys, e: Event)
    requires Conserved(s) && Enabled(s, e)
    ensures Conserved(Step(s, e))
  {
    if e.Advance? {
    } else if e.CallbackAdvances? || e.Resend? {
    } else if e.TakeToken? {
    } else if e.Dispatch? || e.CallbackReturns? {
    } else {
      assert Step(s, e).client.mailbox.tokens == s.client.mailbox.tokens;
    }
  }

  // ----- No lost wake-up -----

  predicate HasUnsent(m: AgentToServer) {
    || m.agentDescription.Some? || m.health.Some? || m.effectiveConfig.Some?
    || m.remoteConfigStatus.Some? || m.packageStatuses.Some? || m.customCapabilities.Some?
  }

  ghost predicate SomeoneNotifies(s: Sys) {
    || (exists t :: t in s.threads && s.threads[t].Notifying?)
    || (s.poller.InCallback? && s.poller.op.Notifying?)
    || s.poller.Resending?
  }

  ghost predicate Awake(s: Sys) {
    HasUnsent(s.client.next) ==>
      s.client.mailbox.tokens > 0 || SomeoneNotifies(s) || s.poller.Popping? || s.poller.Stopped?
  }

  lemma StepKeepsAwake(s: Sys, e: Event)
    requires Owned(s) && Awake(s) && Enabled(s, e)
    ensures Awake(Step(s, e))
  {
    match e {
      case Begin(t, c) =>
        var v := Step(s, e);
        assert forall u :: u in s.threads && u != t ==> u in v.threads && v.threads[u] == s.threads[u];
      case Advance(t) =>
        var v := Step(s, e);
        assert t in v.threads && v.threads[t] == OpNext(s.client, s.threads[t]);
        assert forall u :: u in s.threads && u != t ==> u in v.threads && v.threads[u] == s.threads[u];
      case _ =>
    }
  }

  // ----- Numbers and the disconnect mark -----

  predicate HandsOut(s: Sys, e: Event) {
    Enabled(s, e) && (e.Pop? || e.Drop?)
  }

  /** What no setter may touch. */
  predicate SameHeader(m: AgentToServer, n: AgentToServer) {
    && m.sequenceNum == n.sequenceNum
    && m.instanceUid == n.instanceUid
    && m.capabilities == n.capabilities
    && m.agentDisconnect == n.agentDisconnect
  }

  lemma OpKeepsHeader(s: Client, op: Op)
    requires !op.Done?
    ensures SameHeader(OpEffect(s, op).next, s.next)
    ensures OpEffect(s, op).capabilities == s.capabilities
  {
  }

  /** Only handing out a message touches the log. */
  lemma StepLog(s: Sys, e: Event)
    requires Enabled(s, e)
    ensures Step(s, e).log == s.log + (if HandsOut(s, e) then [Handed(s, e)] else [])
    ensures Step(s, e).dropped == (s.dropped || e.Drop?)
  {
    if e.Pop? || e.Drop? {
    } else if e.CallbackReturns? || e.Dispatch? {
    } else {
    }
  }

  /** The message that the event hands out. */
  function Handed(s: Sys, e: Event): AgentToServer {
    if e.Drop? then Stamp(s.client.next).(agentDisconnect := Some(AgentDisconnect)) else Stamp(s.client.next)
  }

  /** Only handing out a message moves the number of the next one. */
  lemma StepHeader(s: Sys, e: Event)
    requires Enabled(s, e)
    ensures var (m, n) := (s.client.next, Step(s, e).client.next);
      && n.sequenceNum == (if HandsOut(s, e) then Successor(m.sequenceNum) else m.sequenceNum)
      && n.capabilities == m.capabilities
      && n.agentDisconnect == m.agentDisconnect
  {
    if e.Advance? {
      OpKeepsHeader(s.client, s.threads[e.thread]);
    } else if e.CallbackAdvances? {
      OpKeepsHeader(s.client, s.poller.op);
    } else if e.Pop? || e.Drop? {
    } else if e.Dispatch? || e.PutFull? {
    } else {
      assert Step(s, e).client.next == s.client.next;
    }
  }

  ghost predicate Sequenced(s: Sys, settings: StartSettings) {
    && s.client.next.sequenceNum == |s.log| % U64_RANGE
    && s.client.next.capabilities == settings.capabilities.ToU64()
    && (forall k :: 0 <= k < |s.log| ==>
          && s.log[k].sequenceNum == (k + 1) % U64_RANGE
          && s.log[k].capabilities == settings.capabilities.ToU64())
  }

  lemma StepKeepsSequenced(s: Sys, e: Event, settings: StartSettings)
    requires Sequenced(s, settings) && Enabled(s, e)
    ensures Sequenced(Step(s, e), settings)
  {
    StepLog(s, e);
    StepHeader(s, e);
  }

  ghost predicate Marked(s: Sys) {
    && s.client.next.agentDisconnect.None?
    && (s.dropped ==> |s.log| > 0)
    && (forall k :: 0 <= k < |s.log| ==>
          (s.log[k].agentDisconnect.Some? <==> s.dropped && k == |s.log| - 1))
  }

  lemma StepKeepsMarked(s: Sys, e: Event)
    requires Owned(s) && Marked(s) && Enabled(s, e)
    ensures Marked(Step(s, e))
  {
    StepLog(s, e);
    StepHeader(s, e);
  }

  // ----- All schedules -----

  ghost predicate Inv(s: Sys, settings: StartSettings) {
    Owned(s) && Conserved(s) && Awake(s) && Sequenced(s, settings) && Marked(s)
  }

  lemma {:induction false} Reachable(settings: StartSettings, es: seq<Event>)
    ensures Inv(After(Init(settings), es), settings)
    decreases |es|
  {
    if es != [] {
      var s, e := After(Init(settings), es[..|es| - 1]), es[|es| - 1];
      Reachable(settings, es[..|es| - 1]);
      if Enabled(s, e) {
        StepKeepsOwned(s, e);
        StepKeepsConserved(s, e);
        StepKeepsAwake(s, e);
        StepKeepsSequenced(s, e, settings);
        StepKeepsMarked(s, e);
      }
    }
  }

  /** Some schedule of some number of threads leads to the state. */
  ghost predicate Reached(settings: StartSettings, s: Sys) {
    exists es :: s == After(Init(settings), es)
  }

  lemma ReachedHasInv(settings: StartSettings, s: Sys)
    requires Reached(settings, s)
    ensures Inv(s, settings)
  {
    var es :| s == After(Init(settings), es);
    Reachable(settings, es);
  }

  /** In every interleaving, an unsent report is never forgotten: a notification
      waits, or some thread is about to notify, or the polling thread is about
      to take the message, or it has stopped. */
  lemma NoLostWakeup(settings: StartSettings, s: Sys)
    requires Reached(settings, s) && HasUnsent(s.client.next)
    ensures s.client.mailbox.tokens > 0 || SomeoneNotifies(s) || s.poller.Popping? || s.poller.Stopped?
  {
    ReachedHasInv(settings, s);
  }

  /** In every interleaving the k-th message handed out has number k, in 64-bit
      arithmetic, and the capabilities of the start. */
  lemma SequenceNumbers(settings: StartSettings, s: Sys, k: nat)
    requires Reached(settings, s) && k < |s.log|
    ensures s.log[k].sequenceNum == (k + 1) % 0x1_0000_0000_0000_0000
    ensures s.log[k].capabilities == settings.capabilities.ToU64()
  {
    ReachedHasInv(settings, s);
  }

  /** Notification-driven polls and the waiting notification are exactly the
      notifications that went in; the channel never holds two. */
  lemma TokenConservation(settings: StartSettings, s: Sys)
    requires Reached(settings, s)
    ensures s.sent == s.taken + s.client.mailbox.tokens && s.client.mailbox.tokens <= 1
  {
    ReachedHasInv(settings, s);
  }

  // ----- Bursts -----

  predicate Notifies(s: Sys, e: Event) {
    && Enabled(s, e)
    && match e
       case Advance(t) => s.threads[t].Notifying?
       case CallbackAdvances => s.poller.op.Notifying?
       case Resend => true
       case _ => false
  }

  predicate SomeNotification(s: Sys, es: seq<Event>) {
    es != [] && (SomeNotification(s, es[..|es| - 1]) || Notifies(After(s, es[..|es| - 1]), es[|es| - 1]))
  }

  lemma BurstStep(s: Sys, e: Event)
    requires Owned(s) && Conserved(s) && Enabled(s, e) && !e.TakeToken? && !Step(s, e).poller.Stopped?
    ensures Owned(Step(s, e)) && Conserved(Step(s, e)) && !s.poller.Stopped?
    ensures Step(s, e).taken == s.taken
    ensures Step(s, e).client.mailbox.tokens == if Notifies(s, e) then 1 else s.client.mailbox.tokens
  {
    StepKeepsOwned(s, e);
    StepKeepsConserved(s, e);
    match e { case _ => }
  }

  /** However many notifications arrive until the polling thread looks again,
      exactly one poll is owed for them. */
  lemma {:induction false} BurstIsOneToken(s: Sys, es: seq<Event>)
    requires Owned(s) && Conserved(s)
    requires forall i :: 0 <= i < |es| ==> !es[i].TakeToken?
    requires !After(s, es).poller.Stopped?
    ensures Owned(After(s, es)) && Conserved(After(s, es)) && After(s, es).taken == s.taken
    ensures After(s, es).client.mailbox.tokens == if SomeNotification(s, es) then 1 else s.client.mailbox.tokens
    decreases |es|
  {
    if es != [] {
      var init, e := es[..|es| - 1], es[|es| - 1];
      var p := After(s, init);
      OwnedAfter(s, init);
      if p.poller.Stopped? {
        StoppedIsFinal(p, e);
      }
      BurstIsOneToken(s, init);
      if Enabled(p, e) {
        BurstStep(p, e);
      }
    }
  }

  lemma {:induction false} OwnedAfter(s: Sys, es: seq<Event>)
    requires Owned(s)
    ensures Owned(After(s, es))
    decreases |es|
  {
    if es != [] {
      OwnedAfter(s, es[..|es| - 1]);
      if Enabled(After(s, es[..|es| - 1]), es[|es| - 1]) {
        StepKeepsOwned(After(s, es[..|es| - 1]), es[|es| - 1]);
      }
    }
  }

  lemma {:induction false} AfterAppend(s: Sys, es: seq<Event>, fs: seq<Event>)
    ensures After(s, es + fs) == After(After(s, es), fs)
    decreases |fs|
  {
    if fs == [] {
      assert es + fs == es;
    } else {
      assert (es + fs)[..|es + fs| - 1] == es + fs[..|fs| - 1];
      AfterAppend(s, es, fs[..|fs| - 1]);
    }
  }

  /** Where nothing notifies, tokens only move from the channel to the poller. */
  lemma {:induction false} TokensOnlyMove(s: Sys, es: seq<Event>)
    requires Owned(s) && Conserved(s) && !SomeNotification(s, es)
    ensures var v := After(s, es);
      Owned(v) && Conserved(v) && v.taken + v.client.mailbox.tokens == s.taken + s.client.mailbox.tokens
    decreases |es|
  {
    if es != [] {
      var p, e := After(s, es[..|es| - 1]), es[|es| - 1];
      TokensOnlyMove(s, es[..|es| - 1]);
      if Enabled(p, e) {
        StepKeepsOwned(p, e);
        StepKeepsConserved(p, e);
        match e { case _ => }
      }
    }
  }

  /** A burst of notifications is answered by one poll: until something notifies
      again, at most one more notification is taken, and it has been taken
      exactly when none waits any more. */
  lemma {:induction false} BurstIsOnePoll(s: Sys, burst: seq<Event>, later: seq<Event>)
    requires Owned(s) && Conserved(s) && SomeNotification(s, burst)
    requires forall i :: 0 <= i < |burst| ==> !burst[i].TakeToken?
    requires !After(s, burst).poller.Stopped?
    requires !SomeNotification(After(s, burst), later)
    ensures var v := After(s, burst + later);
      && s.taken <= v.taken <= s.taken + 1
      && (v.taken == s.taken + 1 <==> v.client.mailbox.tokens == 0)
  {
    BurstIsOneToken(s, burst);
    TokensOnlyMove(After(s, burst), later);
    AfterAppend(s, burst, later);
  }

  // ----- An unsent report is handed out -----

  function OpRank(op: Op): nat {
    match op
    case Done => 0
    case Notifying => 1
    case Updating(_) => 2
    case Writing(_) => 3
    case Checking(_) => 4
  }

  /** At most so many steps of the polling thread lead to the next message, when a
      notification waits. */
  function Rank(p: Poller): nat {
    match p
    case Stopped => 0
    case Popping => 1
    case AtPending => 2
    case Selecting => 3
    case AtTicker => 4
    case Resending => 4
    case Refilling(_) => 5
    case Reading(count, _) => if count < FIELDS then 5 + FIELDS - count else 6
    case InCallback(k, op) => OpRank(op) + ReturnRank(k)
    case Processing(_) => 12
    case Sending => 14
  }

  function ReturnRank(k: Continuation): nat {
    match k
    case ToAbort => 1
    case ToSelect => 4
    case ToFlags(_) => 11
    case ToProcess(_) => 13
  }

  const MAX_RANK := 17

  /** A step of the polling thread, other than a new call from a callback. */
  predicate Polls(e: Event) {
    !e.Begin? && !e.Advance? && !e.CallbackSets? && !e.Close? && !e.Drop?
  }

  /** The polling thread's steps in a schedule; each call that a callback makes is
      allowed for by the four steps that it takes at most. */
  function Spent(s: Sys, es: seq<Event>): int
    decreases |es|
  {
    if es == [] then 0
    else
      var (p, e) := (After(s, es[..|es| - 1]), es[|es| - 1]);
      Spent(s, es[..|es| - 1])
        + if !Enabled(p, e) then 0 else if Polls(e) then 1 else if e.CallbackSets? then -4 else 0
  }

  ghost predicate PollDue(s: Sys) {
    s.client.mailbox.tokens == 1 || s.poller.Popping?
  }

  lemma StepKeepsPollDue(s: Sys, e: Event)
    requires Owned(s) && Conserved(s) && PollDue(s) && !s.poller.Stopped? && Enabled(s, e) && !HandsOut(s, e)
    ensures var v := Step(s, e);
      && (v.poller.Stopped? || PollDue(v))
      && Rank(v.poller) <= Rank(s.poller) + (if Polls(e) then -1 else if e.CallbackSets? then 4 else 0)
  {
    if e.Begin? || e.Advance? || e.Close? {
      assert Step(s, e).poller == s.poller;
    } else if e.CallbackSets? || e.CallbackAdvances? {
    } else if e.CallbackReturns? || e.Dispatch? {
    } else if e.ReadField? || e.PutFull? || e.Resend? {
    } else {
    }
  }

  lemma {:induction false} DueAfter(s: Sys, es: seq<Event>)
    requires Owned(s) && Conserved(s) && PollDue(s) && !s.poller.Stopped?
    ensures var v := After(s, es);
      && Owned(v) && Conserved(v) && |s.log| <= |v.log|
      && (|v.log| > |s.log| || v.poller.Stopped?
          || (PollDue(v) && Rank(v.poller) + Spent(s, es) <= Rank(s.poller)))
    decreases |es|
  {
    if es != [] {
      var p, e := After(s, es[..|es| - 1]), es[|es| - 1];
      DueAfter(s, es[..|es| - 1]);
      if Enabled(p, e) {
        StepKeepsOwned(p, e);
        StepKeepsConserved(p, e);
        StepLog(p, e);
        if p.poller.Stopped? {
          StoppedIsFinal(p, e);
        } else if !HandsOut(p, e) && |p.log| == |s.log| {
          StepKeepsPollDue(p, e);
        }
      }
    }
  }

  lemma RankBound(p: Poller)
    ensures Rank(p) <= MAX_RANK
  {
  }

  /** Progress: from any reachable state with an unsent report, one notification of
      the thread that owes it, if no poll is due already, and then every
      schedule at all in which the polling thread makes more than 17 steps (four
      more for each new call from a callback) hands out a message or ends the
      loop. */
  lemma UnsentIsHandedOut(settings: StartSettings, s: Sys) returns (wake: seq<Event>)
    requires Reached(settings, s) && HasUnsent(s.client.next) && !s.poller.Stopped?
    ensures wake == [] || (|wake| == 1 && Notifies(s, wake[0]))
    ensures forall es :: Spent(After(s, wake), es) > MAX_RANK ==>
      |After(After(s, wake), es).log| > |s.log| || After(After(s, wake), es).poller.Stopped?
  {
    ReachedHasInv(settings, s);
    wake := [];
    if !PollDue(s) {
      assert SomeoneNotifies(s);
      if s.poller.Resending? {
        wake := [Resend];
      } else if s.poller.InCallback? && s.poller.op.Notifying? {
        wake := [CallbackAdvances];
      } else {
        var t :| t in s.threads && s.threads[t].Notifying?;
        wake := [Advance(t)];
      }
      WakeMakesPollDue(s, wake[0]);
      assert After(s, wake) == Step(s, wake[0]);
    }
    var w := After(s, wake);
    forall es | Spent(w, es) > MAX_RANK
      ensures |After(w, es).log| > |s.log| || After(w, es).poller.Stopped?
    {
      DueAfter(w, es);
      RankBound(w.poller);
    }
  }

  lemma WakeMakesPollDue(s: Sys, e: Event)
    requires Owned(s) && Conserved(s) && Notifies(s, e) && !s.poller.Stopped?
    ensures var v := Step(s, e);
      Owned(v) && Conserved(v) && PollDue(v) && !v.poller.Stopped? && v.log == s.log
  {
    StepKeepsOwned(s, e);
    StepKeepsConserved(s, e);
  }

  // ----- Shutdown -----

  /** Once the polling thread has ended, which is when `stop` returns, no setter
      and no callback runs; all that is left is the final disconnect, once. */
  lemma StoppedIsFinal(s: Sys, e: Event)
    requires Owned(s) && s.poller.Stopped?
    ensures Enabled(s, e) <==> e.Drop? && !s.dropped
  {
  }

  /** Exit is preferred: a closing client that looks at its channels leaves the
      loop, whatever else is waiting. */
  lemma ClosingLeaves(s: Sys, e: Event)
    requires Owned(s) && s.closing && s.poller.Selecting?
    ensures Enabled(s, e) <==> e == Exit
    ensures Step(s, Exit).poller.Stopped?
  {
  }

  /** The exit channel has been tried since the last poll, and was empty. */
  predicate PastExit(p: Poller) {
    p.AtPending? || p.AtTicker?
  }

  function PollsLeft(s: Sys): nat {
    (if s.poller.Popping? || PastExit(s.poller) then 1 else 0) + (if s.dropped then 0 else 1)
  }

  function TokensLeft(s: Sys): nat {
    if s.poller.AtPending? then 1 else 0
  }

  /** After the exit signal at most one more message is polled, and only if the
      polling thread had already selected that poll or tried the exit channel;
      only in the latter case may it still take a notification, and one at most.
      One more message, the disconnect, may follow. */
  lemma {:induction false} Shutdown(s: Sys, es: seq<Event>)
    requires Owned(s) && s.closing
    ensures var v := After(s, es);
      && Owned(v) && v.closing
      && s.taken <= v.taken && v.taken + TokensLeft(v) <= s.taken + TokensLeft(s)
      && |s.log| <= |v.log| && |v.log| + PollsLeft(v) <= |s.log| + PollsLeft(s)
    decreases |es|
  {
    if es != [] {
      var p, e := After(s, es[..|es| - 1]), es[|es| - 1];
      Shutdown(s, es[..|es| - 1]);
      if Enabled(p, e) {
        StepKeepsOwned(p, e);
        match e { case _ => }
      }
    }
  }

  /** The disconnect is in the last message and in no other; once it is out
      nothing can happen any more. */
  lemma DisconnectIsLast(settings: StartSettings, s: Sys, k: nat, e: Event)
    requires Reached(settings, s) && k < |s.log|
    ensures s.log[k].agentDisconnect.Some? <==> s.dropped && k == |s.log| - 1
    ensures s.dropped ==> !Enabled(s, e)
  {
    ReachedHasInv(settings, s);
    if s.dropped {
      StoppedIsFinal(s, e);
    }
  }

  // ----- Identity -----

  /** The uid that this event makes the client adopt: a non-empty one, from a
      response that is not an obeyed command. */
  function Adopts(s: Sys, e: Event): Option<Bytes> {
    if e.Dispatch? && s.poller.Processing? then
      var resp := s.poller.resp;
      if resp.command.Some? && s.client.capabilities.Has(AcceptsRestartCommand) then None
      else if resp.agentIdentification.Some? && |resp.agentIdentification.value.newInstanceUid| > 0
      then Some(resp.agentIdentification.value.newInstanceUid)
      else None
    else None
  }

  function CurrentUid(settings: StartSettings, es: seq<Event>): Bytes
    decreases |es|
  {
    if es == [] then settings.instanceUid
    else
      match Adopts(After(Init(settings), es[..|es| - 1]), es[|es| - 1])
      case Some(uid) => uid
      case None => CurrentUid(settings, es[..|es| - 1])
  }

  lemma StepAdopts(s: Sys, e: Event)
    requires Enabled(s, e)
    ensures Step(s, e).client.next.instanceUid ==
      match Adopts(s, e)
      case Some(uid) => uid
      case None => s.client.next.instanceUid
  {
    if e.Advance? {
      OpKeepsHeader(s.client, s.threads[e.thread]);
    } else if e.CallbackAdvances? {
      OpKeepsHeader(s.client, s.poller.op);
    } else if e.Dispatch? {
    } else if e.Pop? || e.Drop? || e.PutFull? {
    } else {
      assert Step(s, e).client.next == s.client.next;
    }
  }

  lemma {:induction false} NextCarriesCurrentUid(settings: StartSettings, es: seq<Event>)
    ensures After(Init(settings), es).client.next.instanceUid == CurrentUid(settings, es)
    decreases |es|
  {
    if es != [] {
      var s, e := After(Init(settings), es[..|es| - 1]), es[|es| - 1];
      NextCarriesCurrentUid(settings, es[..|es| - 1]);
      if Enabled(s, e) {
        StepAdopts(s, e);
      }
    }
  }

  /** Every message, the disconnect included, carries the last uid adopted before
      it, or the one of the start; refills, resets and setters never touch it. */
  lemma {:induction false} Identity(settings: StartSettings, es: seq<Event>, e: Event)
    ensures var s := After(Init(settings), es);
      HandsOut(s, e) ==>
        Step(s, e).log == s.log + [Handed(s, e)] && Handed(s, e).instanceUid == CurrentUid(settings, es)
  {
    NextCarriesCurrentUid(settings, es);
  }

  // ----- No report is dropped before it is handed out -----

  /** The message carries exactly the report of the call. */
  predicate Holds(m: AgentToServer, c: Setter) {
    match c
    case SetAgentDescription(d) => m.agentDescription == Some(d)
    case SetHealth(h) => m.health == Some(h)
    case UpdateEffectiveConfig(fetched) => m.effectiveConfig == fetched
    case SetRemoteConfigStatus(s) => m.remoteConfigStatus == Some(s)
    case SetCustomCapabilities(custom) => m.customCapabilities == Some(custom)
  }

  /** The event replaces the waiting report of `c` by another one; a refill does so
      only if the state that it has read differs from the report. */
  ghost predicate Replaces(s: Sys, e: Event, c: Setter) {
    && Enabled(s, e)
    && match e
       case Advance(t) => s.threads[t].Updating? && SameKind(s.threads[t].c, c)
       case CallbackAdvances => s.poller.op.Updating? && SameKind(s.poller.op.c, c)
       case PutFull(config) => !Holds(Refill(s.client.next, s.poller.full, config), c)
       case _ => false
  }

  lemma OpHoldsUnless(s: Client, op: Op, c: Setter)
    requires !op.Done? && Holds(s.next, c)
    ensures (op.Updating? && SameKind(op.c, c)) || Holds(OpEffect(s, op).next, c)
  {
  }

  lemma HoldsUnless(s: Sys, e: Event, c: Setter)
    requires Holds(s.client.next, c) && Enabled(s, e)
    ensures HandsOut(s, e) ==> Holds(Handed(s, e), c)
    ensures HandsOut(s, e) || Replaces(s, e, c) || Holds(Step(s, e).client.next, c)
  {
    if e.Advance? {
      OpHoldsUnless(s.client, s.threads[e.thread], c);
    } else if e.CallbackAdvances? {
      OpHoldsUnless(s.client, s.poller.op, c);
    } else if e.Pop? || e.Drop? {
    } else if e.Dispatch? || e.PutFull? {
    } else {
      assert Step(s, e).client.next == s.client.next;
    }
  }

  ghost predicate Kept(s: Sys, es: seq<Event>, c: Setter) {
    es == [] || (
      var p := After(s, es[..|es| - 1]);
      Kept(s, es[..|es| - 1], c) && !HandsOut(p, es[|es| - 1]) && !Replaces(p, es[|es| - 1], c))
  }

  /** A report that has been put into the next message is in the next message
      handed out, be it the disconnect, unless a newer report of its kind, or a
      refill that had read something else, replaced it first. */
  lemma {:induction false} ReportIsHandedOut(s: Sys, es: seq<Event>, c: Setter, e: Event)
    requires Holds(s.client.next, c) && Kept(s, es, c)
    ensures Holds(After(s, es).client.next, c)
    ensures HandsOut(After(s, es), e) ==> Holds(Handed(After(s, es), e), c)
    decreases |es|
  {
    if es != [] {
      var p := After(s, es[..|es| - 1]);
      ReportIsHandedOut(s, es[..|es| - 1], c, es[|es| - 1]);
      if Enabled(p, es[|es| - 1]) {
        HoldsUnless(p, es[|es| - 1], c);
      }
    }
    if HandsOut(After(s, es), e) {
      HoldsUnless(After(s, es), e, c);
    }
  }

  /** The event makes a call, of a thread or from a callback, update the message. */
  predicate Updates(s: Sys, e: Event, c: Setter) {
    && Enabled(s, e)
    && match e
       case Advance(t) => s.threads[t] == Updating(c)
       case CallbackAdvances => s.poller.op == Updating(c)
       case _ => false
  }

  /** From the update on: what a call puts into the message, be it an effective
      config, which is stored nowhere else, is in the message handed out next,
      unless it is replaced as above. */
  lemma {:induction false} UpdateIsHandedOut(s: Sys, e: Event, c: Setter, es: seq<Event>, out: Event)
    requires Updates(s, e, c) && Kept(Step(s, e), es, c)
    ensures Holds(After(Step(s, e), es).client.next, c)
    ensures HandsOut(After(Step(s, e), es), out) ==> Holds(Handed(After(Step(s, e), es), out), c)
  {
    assert Holds(Step(s, e).client.next, c);
    ReportIsHandedOut(Step(s, e), es, c, out);
  }

  // ----- The capabilities of the client -----

  lemma CapabilitiesStay(s: Sys, e: Event)
    requires Enabled(s, e)
    ensures Step(s, e).client.capabilities == s.client.capabilities
  {
    if e.Advance? {
      OpKeepsHeader(s.client, s.threads[e.thread]);
    } else if e.CallbackAdvances? {
      OpKeepsHeader(s.client, s.poller.op);
    } else {
      match e { case _ => }
    }
  }

  lemma {:induction false} RunKeepsCapabilities(s: Sys, es: seq<Event>)
    ensures After(s, es).client.capabilities == s.client.capabilities
    decreases |es|
  {
    if es != [] {
      RunKeepsCapabilities(s, es[..|es| - 1]);
      if Enabled(After(s, es[..|es| - 1]), es[|es| - 1]) {
        CapabilitiesStay(After(s, es[..|es| - 1]), es[|es| - 1]);
      }
    }
  }
}
