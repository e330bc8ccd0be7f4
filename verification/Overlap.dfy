/** When concurrent setters keep the two copies of the status coupled, and when
    they do not. A setter writes the synced state and the next message under two
    different locks, so the order of the writes may differ between the copies. */
module Overlap {
  import opened Proto
  import opened Health
  import opened Settings
  import opened Status
  import opened Interleaving

  datatype Field = Description | Custom | HealthField | RemoteConfig

  predicate On(c: Setter, f: Field) {
    match c
    case SetAgentDescription(_) => f.Description?
    case SetHealth(_) => f.HealthField?
    case SetRemoteConfigStatus(_) => f.RemoteConfig?
    case SetCustomCapabilities(_) => f.Custom?
    case UpdateEffectiveConfig(_) => false
  }

  /** The order in which a full-state answer reads the fields. */
  function Index(f: Field): nat {
    match f
    case Description => 0
    case HealthField => 1
    case RemoteConfig => 2
    case Custom => 4
  }

  predicate SameOn(a: Data, b: Data, f: Field) {
    match f
    case Description => a.agentDescription == b.agentDescription
    case HealthField => a.health == b.health
    case RemoteConfig => a.remoteConfigStatus == b.remoteConfigStatus
    case Custom => a.customCapabilities == b.customCapabilities
  }

  /** A value of the field is present. */
  predicate HasValueOn(d: Data, f: Field) {
    match f
    case Description => d.agentDescription.Some?
    case HealthField => d.health.Some?
    case RemoteConfig => d.remoteConfigStatus.Some?
    case Custom => d.customCapabilities.Some?
  }

  ghost predicate CoupledOn(next: AgentToServer, synced: Data, f: Field) {
    match f
    case Description =>
      || Follows(next.agentDescription, synced.agentDescription)
      || EmptyStart(next.agentDescription, synced.agentDescription)
    case HealthField => Follows(next.health, synced.health)
    case RemoteConfig => Follows(next.remoteConfigStatus, synced.remoteConfigStatus)
    case Custom => Follows(next.customCapabilities, synced.customCapabilities)
  }

  predicate Stored(synced: Data, c: Setter) {
    Store(synced, c) == synced
  }

  /** Between its write of the state and its update of the message. */
  predicate Midway(op: Op, f: Field) {
    op.Updating? && On(op.c, f)
  }

  predicate PollerMidway(p: Poller, f: Field) {
    p.InCallback? && Midway(p.op, f)
  }

  /** A full-state answer holds a value of the field that it has not yet put into
      the message. */
  predicate HasRead(p: Poller, f: Field) {
    p.Refilling? || (p.Reading? && p.count > Index(f))
  }

  function ReadData(p: Poller): Data
    requires p.Refilling? || p.Reading?
  {
    if p.Refilling? then p.full else p.read
  }

  ghost predicate ThreadMidway(s: Sys, f: Field) {
    exists t :: t in s.threads && Midway(s.threads[t], f)
  }

  ghost predicate Busy(s: Sys, f: Field) {
    ThreadMidway(s, f) || PollerMidway(s.poller, f)
  }

  /** The operation is about to change the stored value of the field. */
  predicate Changes(synced: Data, op: Op, f: Field) {
    op.Writing? && On(op.c, f) && !Malformed(op.c) && !Stored(synced, op.c)
  }

  /** The event changes the stored value of the field. */
  predicate Rewrites(s: Sys, e: Event, f: Field) {
    && Enabled(s, e)
    && match e
       case Advance(t) => Changes(s.client.synced, s.threads[t], f)
       case CallbackAdvances => Changes(s.client.synced, s.poller.op, f)
       case _ => false
  }

  /** A full-state answer holds a value of the field, not just its absence. */
  predicate HoldsRead(p: Poller, f: Field) {
    HasRead(p, f) && HasValueOn(ReadData(p), f)
  }

  /** The event changes the stored value while another operation on the field is
      midway, or while a full-state answer holds the old one. */
  ghost predicate Clobbers(s: Sys, e: Event, f: Field) {
    Rewrites(s, e, f) && (Busy(s, f) || HoldsRead(s.poller, f))
  }

  /** The event changes the stored value after a full-state answer has found that
      there was none: the answer will erase the report of the new one. */
  predicate Erases(s: Sys, e: Event, f: Field) {
    Rewrites(s, e, f) && HasRead(s.poller, f) && !HasValueOn(ReadData(s.poller), f)
  }

  ghost predicate NoClobber(s: Sys, es: seq<Event>, f: Field)
    decreases |es|
  {
    es == [] || (
      NoClobber(s, es[..|es| - 1], f) && !Clobbers(After(s, es[..|es| - 1]), es[|es| - 1], f))
  }

  /** Every thread that is halfway is about to put the stored value. */
  ghost predicate ThreadsCurrent(s: Sys, f: Field) {
    forall t :: t in s.threads && Midway(s.threads[t], f) ==> Stored(s.client.synced, s.threads[t].c)
  }

  /** So is a callback. */
  predicate PollerCurrent(s: Sys, f: Field) {
    PollerMidway(s.poller, f) ==> Stored(s.client.synced, s.poller.op.c)
  }

  ghost predicate Orderly(s: Sys, f: Field) {
    && ThreadsCurrent(s, f) && PollerCurrent(s, f)
    && (HoldsRead(s.poller, f) ==> SameOn(ReadData(s.poller), s.client.synced, f))
    && (Busy(s, f) || CoupledOn(s.client.next, s.client.synced, f))
  }

  // ----- One operation on one field -----

  lemma OpOnField(s: Client, op: Op, f: Field)
    requires !op.Done? && (Midway(op, f) ==> Stored(s.synced, op.c))
    ensures var t := OpEffect(s, op);
      && (Changes(s.synced, op, f) || SameOn(t.synced, s.synced, f))
      && (Midway(OpNext(s, op), f) ==> Stored(t.synced, OpNext(s, op).c))
      && (if Midway(op, f) then CoupledOn(t.next, t.synced, f)
          else CoupledOn(s.next, s.synced, f) && !Midway(OpNext(s, op), f) ==> CoupledOn(t.next, t.synced, f))
  {
  }

  lemma StoredStays(a: Data, b: Data, c: Setter, f: Field)
    requires On(c, f) && SameOn(a, b, f)
    ensures Stored(a, c) <==> Stored(b, c)
  {
  }

  /** A thread's own step does not make another thread busy or idle. */
  lemma OthersStay(s: Sys, e: Event, t: nat, f: Field)
    requires Enabled(s, e) && (e.Advance? || e.Begin?) && t == e.thread
    ensures var v := Step(s, e);
      && t in v.threads && v.poller == s.poller
      && (forall u :: u in s.threads && u != t ==> u in v.threads && v.threads[u] == s.threads[u])
      && (forall u :: u in v.threads && u != t ==> u in s.threads)
  {
  }

  lemma AdvanceKeepsOrderly(s: Sys, t: nat, f: Field)
    requires Orderly(s, f) && Enabled(s, Advance(t)) && !Clobbers(s, Advance(t), f)
    ensures Orderly(Step(s, Advance(t)), f)
  {
    var v := Step(s, Advance(t));
    OthersStay(s, Advance(t), t, f);
    OpOnField(s.client, s.threads[t], f);
    if Changes(s.client.synced, s.threads[t], f) {
      assert !Busy(s, f) && !HoldsRead(s.poller, f);
    } else {
      forall u | u in v.threads && u != t && Midway(v.threads[u], f) ensures Stored(v.client.synced, v.threads[u].c) {
        StoredStays(s.client.synced, v.client.synced, v.threads[u].c, f);
      }
      if PollerMidway(s.poller, f) {
        StoredStays(s.client.synced, v.client.synced, s.poller.op.c, f);
      }
    }
  }

  lemma CallbackKeepsOrderly(s: Sys, f: Field)
    requires Orderly(s, f) && Enabled(s, CallbackAdvances) && !Clobbers(s, CallbackAdvances, f)
    ensures Orderly(Step(s, CallbackAdvances), f)
  {
    var v := Step(s, CallbackAdvances);
    OpOnField(s.client, s.poller.op, f);
    if Changes(s.client.synced, s.poller.op, f) {
      assert !Busy(s, f);
    } else {
      forall u | u in v.threads && Midway(v.threads[u], f) ensures Stored(v.client.synced, v.threads[u].c) {
        StoredStays(s.client.synced, v.client.synced, v.threads[u].c, f);
      }
    }
  }

  predicate Quiet(e: Event) {
    !e.Begin? && !e.Advance? && !e.CallbackAdvances? && !e.ReadField? && !e.PutFull?
  }

  lemma QuietShared(s: Sys, e: Event)
    requires Enabled(s, e) && Quiet(e)
    ensures Step(s, e).client.synced == s.client.synced && Step(s, e).threads == s.threads
  {
    if e.Pop? || e.Drop? {
    } else if e.Dispatch? || e.CallbackReturns? {
    } else if e.Exit? || e.Resend? {
    } else {
    }
  }

  /** The thread has read no field yet, and is midway on none. */
  predicate Unburdened(p: Poller) {
    match p
    case Reading(count, _) => count == 0
    case Refilling(_) => false
    case InCallback(_, op) => op.Updating? ==> op.c.UpdateEffectiveConfig?
    case _ => true
  }

  lemma QuietPoller(s: Sys, e: Event)
    requires Enabled(s, e) && Quiet(e)
    ensures Step(s, e).poller == s.poller || (Unburdened(Step(s, e).poller) && Unburdened(s.poller))
  {
    match e { case _ => }
  }

  predicate KeptOrGone<T(==)>(before: Option<T>, after: Option<T>) {
    after == before || after.None?
  }

  /** Such an event only ever removes reports from the message. */
  lemma QuietMessage(s: Sys, e: Event)
    requires Enabled(s, e) && Quiet(e)
    ensures var (m, n) := (s.client.next, Step(s, e).client.next);
      && KeptOrGone(m.agentDescription, n.agentDescription)
      && KeptOrGone(m.health, n.health)
      && KeptOrGone(m.remoteConfigStatus, n.remoteConfigStatus)
      && KeptOrGone(m.customCapabilities, n.customCapabilities)
  {
    if e.Pop? || e.Drop? {
    } else if e.Dispatch? {
    } else {
      assert Step(s, e).client.next == s.client.next;
    }
  }

  lemma RefillKeepsOrderly(s: Sys, config: Option<EffectiveConfig>, f: Field)
    requires Orderly(s, f) && Enabled(s, PutFull(config))
    ensures Orderly(Step(s, PutFull(config)), f)
  {
  }

  lemma ReadKeepsOrderly(s: Sys, f: Field)
    requires Orderly(s, f) && Enabled(s, ReadField)
    ensures Orderly(Step(s, ReadField), f)
  {
  }

  lemma CoupledWithFewer(m: AgentToServer, n: AgentToServer, synced: Data, f: Field)
    requires CoupledOn(m, synced, f)
    requires KeptOrGone(m.agentDescription, n.agentDescription) && KeptOrGone(m.health, n.health)
    requires KeptOrGone(m.remoteConfigStatus, n.remoteConfigStatus)
    requires KeptOrGone(m.customCapabilities, n.customCapabilities)
    ensures CoupledOn(n, synced, f)
  {
  }

  /** Fewer reports, and at most an unburdened poller moved. */
  lemma FewerIsOrderly(s: Sys, v: Sys, f: Field)
    requires Orderly(s, f) && v.client.synced == s.client.synced && v.threads == s.threads
    requires v.poller == s.poller || (Unburdened(v.poller) && Unburdened(s.poller))
    requires CoupledOn(s.client.next, s.client.synced, f) ==> CoupledOn(v.client.next, s.client.synced, f)
    ensures Orderly(v, f)
  {
  }

  lemma QuietKeepsOrderly(s: Sys, e: Event, f: Field)
    requires Orderly(s, f) && Enabled(s, e) && Quiet(e)
    ensures Orderly(Step(s, e), f)
  {
    var v := Step(s, e);
    QuietShared(s, e);
    QuietPoller(s, e);
    QuietMessage(s, e);
    if CoupledOn(s.client.next, s.client.synced, f) {
      CoupledWithFewer(s.client.next, v.client.next, s.client.synced, f);
    }
    FewerIsOrderly(s, v, f);
  }

  lemma BeginKeepsOrderly(s: Sys, t: nat, c: Setter, f: Field)
    requires Orderly(s, f) && Enabled(s, Begin(t, c))
    ensures Orderly(Step(s, Begin(t, c)), f)
  {
    OthersStay(s, Begin(t, c), t, f);
  }

  lemma StepKeepsOrderly(s: Sys, e: Event, f: Field)
    requires Orderly(s, f) && Enabled(s, e) && !Clobbers(s, e, f)
    ensures Orderly(Step(s, e), f)
  {
    match e {
      case Begin(t, c) => BeginKeepsOrderly(s, t, c, f);
      case Advance(t) => AdvanceKeepsOrderly(s, t, f);
      case CallbackAdvances => CallbackKeepsOrderly(s, f);
      case ReadField => ReadKeepsOrderly(s, f);
      case PutFull(config) => RefillKeepsOrderly(s, config, f);
      case _ => QuietKeepsOrderly(s, e, f);
    }
  }

  lemma {:induction false} StaysOrderly(s: Sys, es: seq<Event>, f: Field)
    requires Orderly(s, f) && NoClobber(s, es, f)
    ensures Orderly(After(s, es), f)
    decreases |es|
  {
    if es != [] {
      StaysOrderly(s, es[..|es| - 1], f);
      if Enabled(After(s, es[..|es| - 1]), es[|es| - 1]) {
        StepKeepsOrderly(After(s, es[..|es| - 1]), es[|es| - 1], f);
      }
    }
  }

  lemma {:induction false} OrderlyAlways(settings: StartSettings, es: seq<Event>, f: Field)
    requires NoClobber(Init(settings), es, f)
    ensures Orderly(After(Init(settings), es), f)
  {
    StartIsValid(settings);
    StaysOrderly(Init(settings), es, f);
  }

  /** With any number of threads, and messages taken at any moment: as long as no
      setter changes a field while another operation on that field is halfway,
      the two copies agree on the field whenever no operation on it is halfway. */
  lemma {:induction false} CouplingWithoutOverlap(settings: StartSettings, es: seq<Event>, f: Field)
    requires NoClobber(Init(settings), es, f)
    ensures var s := After(Init(settings), es);
      Busy(s, f) || CoupledOn(s.client.next, s.client.synced, f)
  {
    OrderlyAlways(settings, es, f);
  }

  // ----- The condition is needed -----

  /** Two values of a field, stored in one order and put into the message in the
      other, or a stored value put over by an older one, are apart. */
  lemma OlderValueWins(synced: Data, next: AgentToServer, b: Setter, f: Field)
    requires On(b, f) && !Stored(synced, b) && ReportsOn(next, synced, f)
    ensures !CoupledOn(next, Store(synced, b), f)
    ensures Stored(Store(synced, b), b) && Unchanged(Store(synced, b), b)
  {
    if b.SetHealth? { SameIsEquivalence(b.health, b.health, b.health); }
  }

  /** The message reports the field with the value of `d`. */
  predicate ReportsOn(m: AgentToServer, d: Data, f: Field) {
    match f
    case Description => m.agentDescription.Some? && m.agentDescription == d.agentDescription
    case HealthField => m.health.Some? && m.health == d.health
    case RemoteConfig => m.remoteConfigStatus.Some? && m.remoteConfigStatus == d.remoteConfigStatus
    case Custom => m.customCapabilities.Some? && m.customCapabilities == d.customCapabilities
  }

  /** The message has a report of the field. */
  predicate MentionsOn(m: AgentToServer, f: Field) {
    match f
    case Description => m.agentDescription.Some?
    case HealthField => m.health.Some?
    case RemoteConfig => m.remoteConfigStatus.Some?
    case Custom => m.customCapabilities.Some?
  }

  // ----- What a refill may erase -----

  /** Everything that a full-state answer has read of the field is still stored. */
  predicate ReadIsCurrent(s: Sys, f: Field) {
    HasRead(s.poller, f) ==> SameOn(ReadData(s.poller), s.client.synced, f)
  }

  /** A refill too would put the stored value. */
  ghost predicate Current(s: Sys, f: Field) {
    ThreadsCurrent(s, f) && PollerCurrent(s, f) && ReadIsCurrent(s, f)
  }

  /** The change is overtaken by another operation, or erased by a refill. */
  ghost predicate Disturbs(s: Sys, e: Event, f: Field) {
    Clobbers(s, e, f) || Erases(s, e, f)
  }

  ghost predicate NoDisturb(s: Sys, es: seq<Event>, f: Field)
    decreases |es|
  {
    es == [] || (
      NoDisturb(s, es[..|es| - 1], f) && !Disturbs(After(s, es[..|es| - 1]), es[|es| - 1], f))
  }

  lemma OnlyChanging(s: Client, op: Op, f: Field)
    requires !op.Done? && !Changes(s.synced, op, f)
    ensures SameOn(OpEffect(s, op).synced, s.synced, f)
  {
  }

  lemma OnlyRewriting(s: Sys, e: Event, f: Field)
    requires Enabled(s, e) && !Rewrites(s, e, f)
    ensures SameOn(Step(s, e).client.synced, s.client.synced, f)
  {
    if Quiet(e) {
      QuietShared(s, e);
    } else if e.Advance? {
      OnlyChanging(s.client, s.threads[e.thread], f);
    } else if e.CallbackAdvances? {
      OnlyChanging(s.client, s.poller.op, f);
    } else {
      assert Step(s, e).client.synced == s.client.synced;
    }
  }

  lemma ReadStaysCurrent(s: Sys, f: Field)
    requires ReadIsCurrent(s, f) && Enabled(s, ReadField)
    ensures ReadIsCurrent(Step(s, ReadField), f)
  {
  }

  lemma StepKeepsReads(s: Sys, e: Event, f: Field)
    requires ReadIsCurrent(s, f) && Enabled(s, e) && !(Rewrites(s, e, f) && HasRead(s.poller, f))
    ensures ReadIsCurrent(Step(s, e), f)
  {
    if !Rewrites(s, e, f) { OnlyRewriting(s, e, f); }
    if Quiet(e) {
      QuietPoller(s, e);
    } else if e.ReadField? {
      ReadStaysCurrent(s, f);
    }
  }

  lemma StepKeepsThreads(s: Sys, e: Event, f: Field)
    requires ThreadsCurrent(s, f) && Enabled(s, e) && !(Rewrites(s, e, f) && ThreadMidway(s, f))
    ensures ThreadsCurrent(Step(s, e), f)
  {
    var v := Step(s, e);
    if Quiet(e) {
      QuietShared(s, e);
    } else if e.Advance? || e.Begin? {
      OthersStay(s, e, e.thread, f);
      if e.Advance? { OpOnField(s.client, s.threads[e.thread], f); }
    }
    if !Rewrites(s, e, f) {
      OnlyRewriting(s, e, f);
      forall u | u in s.threads && u in v.threads && v.threads[u] == s.threads[u] && Midway(v.threads[u], f)
        ensures Stored(v.client.synced, v.threads[u].c)
      {
        StoredStays(s.client.synced, v.client.synced, v.threads[u].c, f);
      }
    }
  }

  lemma StepKeepsPoller(s: Sys, e: Event, f: Field)
    requires PollerCurrent(s, f) && Enabled(s, e) && !(Rewrites(s, e, f) && PollerMidway(s.poller, f))
    ensures PollerCurrent(Step(s, e), f)
  {
    if Quiet(e) {
      QuietPoller(s, e);
      QuietShared(s, e);
    } else if e.CallbackAdvances? {
      OpOnField(s.client, s.poller.op, f);
    } else if e.Advance? && PollerMidway(s.poller, f) {
      OnlyRewriting(s, e, f);
      StoredStays(s.client.synced, Step(s, e).client.synced, s.poller.op.c, f);
    }
  }

  lemma StepKeepsCurrent(s: Sys, e: Event, f: Field)
    requires Current(s, f) && Enabled(s, e) && !Disturbs(s, e, f)
    ensures Current(Step(s, e), f)
  {
    StepKeepsThreads(s, e, f);
    StepKeepsPoller(s, e, f);
    StepKeepsReads(s, e, f);
  }

  // ----- From every such change the copies can come apart -----

  /** No operation on the field is halfway, and no full-state answer either. */
  ghost predicate Idle(s: Sys, f: Field) {
    !Busy(s, f) && !HasRead(s.poller, f)
  }

  /** The schedule begins no new call: it only continues what is under way. */
  predicate NoNewCalls(es: seq<Event>) {
    forall i :: 0 <= i < |es| ==> !es[i].Begin? && !es[i].CallbackSets?
  }

  function MidwayThreads(s: Sys, f: Field): set<nat> {
    set t | t in s.threads && Midway(s.threads[t], f)
  }

  /** Every halfway operation on the field is about to put the value of `d`. */
  ghost predicate PutsOnly(s: Sys, d: Data, f: Field) {
    && (forall t :: t in MidwayThreads(s, f) ==> Stored(d, s.threads[t].c))
    && (PollerMidway(s.poller, f) ==> Stored(d, s.poller.op.c))
  }

  lemma PutReports(next: AgentToServer, d: Data, c: Setter, f: Field)
    requires On(c, f) && Stored(d, c)
    ensures ReportsOn(Put(next, c), d, f)
  {
  }

  /** The halfway threads finish, one after another, and put the same value. */
  lemma {:induction false} FinishThreads(s: Sys, d: Data, f: Field) returns (es: seq<Event>)
    requires PutsOnly(s, d, f)
    ensures NoNewCalls(es)
    ensures var v := After(s, es);
      && v.poller == s.poller && v.client.synced == s.client.synced && MidwayThreads(v, f) == {}
      && (if MidwayThreads(s, f) == {} then v == s else ReportsOn(v.client.next, d, f))
    decreases |MidwayThreads(s, f)|
  {
    if t :| t in MidwayThreads(s, f) {
      var w := Step(s, Advance(t));
      assert MidwayThreads(w, f) == MidwayThreads(s, f) - {t};
      PutReports(s.client.next, d, s.threads[t].c, f);
      var rest := FinishThreads(w, d, f);
      assert After(s, [Advance(t)]) == w;
      AfterAppend(s, [Advance(t)], rest);
      es := [Advance(t)] + rest;
    } else {
      es := [];
    }
  }

  lemma ReadingGoesOn(s: Sys, f: Field)
    requires HasRead(s.poller, f) && s.poller.Reading?
    ensures var v := Step(s, ReadField);
      && (v.poller.Refilling? || (v.poller.Reading? && v.poller.count == s.poller.count + 1 < FIELDS))
      && HasRead(v.poller, f) && SameOn(ReadData(v.poller), ReadData(s.poller), f)
      && v.threads == s.threads && v.client == s.client
  {
  }

  /** The refill leaves the message with what was read of the field. */
  lemma RefillPutsRead(s: Sys, config: Option<EffectiveConfig>, f: Field)
    requires s.poller.Refilling?
    ensures var v := Step(s, PutFull(config));
      && v == s.(client := v.client, poller := Resending) && v.client.synced == s.client.synced
      && SameHeader(v.client.next, s.client.next) && v.client.mailbox == s.client.mailbox
      && (if HasValueOn(s.poller.full, f) then ReportsOn(v.client.next, s.poller.full, f)
          else !MentionsOn(v.client.next, f))
  {
  }

  lemma SameReports(m: AgentToServer, a: Data, b: Data, f: Field)
    requires SameOn(a, b, f)
    ensures ReportsOn(m, a, f) == ReportsOn(m, b, f) && HasValueOn(a, f) == HasValueOn(b, f)
  {
  }

  /** A full-state answer that has read the field reads the others and refills. */
  lemma {:induction false} FinishRefill(s: Sys, f: Field) returns (es: seq<Event>)
    requires HasRead(s.poller, f)
    ensures NoNewCalls(es)
    ensures var v := After(s, es);
      && v.poller.Resending? && v.threads == s.threads && v.client.synced == s.client.synced
      && (if HasValueOn(ReadData(s.poller), f) then ReportsOn(v.client.next, ReadData(s.poller), f)
          else !MentionsOn(v.client.next, f))
    decreases if s.poller.Refilling? then 0 else if s.poller.count < FIELDS then 1 + FIELDS - s.poller.count else 1
  {
    if s.poller.Refilling? {
      es := [PutFull(None)];
      RefillPutsRead(s, None, f);
      assert After(s, es) == Step(s, PutFull(None));
    } else {
      var w := Step(s, ReadField);
      ReadingGoesOn(s, f);
      var rest := FinishRefill(w, f);
      assert After(s, [ReadField]) == w;
      AfterAppend(s, [ReadField], rest);
      es := [ReadField] + rest;
      SameReports(After(s, es).client.next, ReadData(s.poller), ReadData(w.poller), f);
    }
  }

  /** The operation that is halfway in a callback finishes. */
  lemma FinishCallback(s: Sys, d: Data, f: Field) returns (es: seq<Event>)
    requires PollerMidway(s.poller, f) && Stored(d, s.poller.op.c)
    ensures NoNewCalls(es)
    ensures var v := After(s, es);
      && v.poller == s.poller.(op := Notifying) && v.threads == s.threads
      && v.client.synced == s.client.synced && ReportsOn(v.client.next, d, f)
  {
    es := [CallbackAdvances];
    assert After(s, es) == Step(s, CallbackAdvances);
    PutReports(s.client.next, d, s.poller.op.c, f);
  }

  /** What the polling thread is halfway with finishes. */
  lemma FinishPoller(s: Sys, d: Data, f: Field) returns (es: seq<Event>)
    requires PollerMidway(s.poller, f) ==> Stored(d, s.poller.op.c)
    requires HoldsRead(s.poller, f) ==> SameOn(ReadData(s.poller), d, f)
    ensures NoNewCalls(es)
    ensures var v := After(s, es);
      && !HasRead(v.poller, f) && !PollerMidway(v.poller, f)
      && v.threads == s.threads && v.client.synced == s.client.synced
      && MidwayThreads(v, f) == MidwayThreads(s, f)
      && (PollerMidway(s.poller, f) || HoldsRead(s.poller, f) ==> ReportsOn(v.client.next, d, f))
  {
    if HasRead(s.poller, f) {
      es := FinishRefill(s, f);
      if HoldsRead(s.poller, f) { SameReports(After(s, es).client.next, ReadData(s.poller), d, f); }
    } else if PollerMidway(s.poller, f) {
      es := FinishCallback(s, d, f);
    } else {
      es := [];
    }
    SameMidway(s, After(s, es), f);
  }

  lemma SameMidway(s: Sys, v: Sys, f: Field)
    requires v.threads == s.threads
    ensures MidwayThreads(v, f) == MidwayThreads(s, f)
  {
  }

  /** Whatever else is halfway on the field finishes; if there is anything that
      holds a value, it is the value of `d` that ends up in the message. */
  lemma FinishAll(s: Sys, d: Data, f: Field) returns (es: seq<Event>)
    requires PutsOnly(s, d, f)
    requires HoldsRead(s.poller, f) ==> SameOn(ReadData(s.poller), d, f)
    requires Busy(s, f) || HoldsRead(s.poller, f)
    ensures NoNewCalls(es)
    ensures var v := After(s, es);
      Idle(v, f) && v.client.synced == s.client.synced && ReportsOn(v.client.next, d, f)
  {
    var first := FinishPoller(s, d, f);
    var w := After(s, first);
    if MidwayThreads(s, f) == {} { NoneMidway(s, f); }
    var rest := FinishThreads(w, d, f);
    AfterAppend(s, first, rest);
    es := first + rest;
    NoneMidway(After(s, es), f);
  }

  lemma NoneMidway(s: Sys, f: Field)
    requires MidwayThreads(s, f) == {}
    ensures Busy(s, f) <==> PollerMidway(s.poller, f)
  {
    assert forall t :: t in s.threads && Midway(s.threads[t], f) ==> t in MidwayThreads(s, f);
  }

  /** The writer goes on: it stores its value and puts it into the message. */
  lemma WriterGoesOn(s: Sys, e: Event, f: Field) returns (b: Setter)
    requires Orderly(s, f) && Clobbers(s, e, f)
    ensures On(b, f) && !Stored(s.client.synced, b)
    ensures var v := Try(Step(s, e), e);
      && v.client.synced == Store(s.client.synced, b)
      && PutsOnly(v, s.client.synced, f)
      && (HoldsRead(v.poller, f) ==> SameOn(ReadData(v.poller), s.client.synced, f))
      && (Busy(v, f) || HoldsRead(v.poller, f))
  {
    var v := Try(Step(s, e), e);
    if e.Advance? {
      b := s.threads[e.thread].c;
      assert v.threads == s.threads[e.thread := Notifying] && v.poller == s.poller;
      if t :| t in s.threads && Midway(s.threads[t], f) {
        assert t in v.threads && Midway(v.threads[t], f);
      }
    } else {
      b := s.poller.op.c;
      assert v.threads == s.threads && v.poller == s.poller.(op := Notifying);
    }
  }

  /** From every orderly state, every clobbering change can be continued, without
      any new call, so that nothing on the field is halfway any more and the
      copies are apart: the message reports the value that was replaced, and setting the stored one
      again is ignored. */
  lemma ClobberDiverges(s: Sys, e: Event, f: Field) returns (es: seq<Event>, b: Setter)
    requires Orderly(s, f) && Clobbers(s, e, f)
    ensures NoNewCalls(es)
    ensures var v := After(Step(s, e), es);
      && Idle(v, f) && !CoupledOn(v.client.next, v.client.synced, f)
      && On(b, f) && v.client.synced == Store(s.client.synced, b)
      && ReportsOn(v.client.next, s.client.synced, f)
      && Unchanged(v.client.synced, b)
  {
    b := WriterGoesOn(s, e, f);
    var w := Step(s, e);
    var rest := FinishAll(Try(w, e), s.client.synced, f);
    assert After(w, [e]) == Try(w, e);
    AfterAppend(w, [e], rest);
    es := [e] + rest;
    OlderValueWins(s.client.synced, After(w, es).client.next, b, f);
  }

  /** The first clobbering change of a schedule that has one. */
  lemma {:induction false} FirstClobber(s: Sys, es: seq<Event>, f: Field) returns (n: nat)
    requires !NoClobber(s, es, f)
    ensures n < |es| && NoClobber(s, es[..n], f) && Clobbers(After(s, es[..n]), es[n], f)
    decreases |es|
  {
    var init := es[..|es| - 1];
    if NoClobber(s, init, f) {
      n := |init|;
    } else {
      n := FirstClobber(s, init, f);
      assert init[..n] == es[..n];
    }
  }

  /** At rest on the field, with the copies apart. */
  ghost predicate Apart(s: Sys, f: Field) {
    Idle(s, f) && !CoupledOn(s.client.next, s.client.synced, f)
  }

  ghost predicate CanComeApart(s: Sys, f: Field) {
    exists es :: NoNewCalls(es) && Apart(After(s, es), f)
  }

  ghost predicate CanClobber(s: Sys, f: Field) {
    exists es :: NoNewCalls(es) && !NoClobber(s, es, f)
  }

  lemma {:induction false} ClobberedComesApart(s: Sys, es: seq<Event>, f: Field)
    requires Orderly(s, f) && NoNewCalls(es) && !NoClobber(s, es, f)
    ensures CanComeApart(s, f)
  {
    var n := FirstClobber(s, es, f);
    StaysOrderly(s, es[..n], f);
    var more, b := ClobberDiverges(After(s, es[..n]), es[n], f);
    AfterOne(s, es[..n], es[n]);
    AfterAppend(s, es[..n] + [es[n]], more);
    assert NoNewCalls(es[..n] + [es[n]] + more);
  }

  /** The condition of `CouplingWithoutOverlap` is exact: the calls under way can
      come to rest with the copies apart if and only if they can interleave with
      a clobbering change. */
  lemma ComesApartIffClobbered(s: Sys, f: Field)
    requires Orderly(s, f)
    ensures CanComeApart(s, f) <==> CanClobber(s, f)
  {
    if CanClobber(s, f) {
      var es :| NoNewCalls(es) && !NoClobber(s, es, f);
      ClobberedComesApart(s, es, f);
    }
    if CanComeApart(s, f) {
      var es :| NoNewCalls(es) && Apart(After(s, es), f);
      if NoClobber(s, es, f) { StaysOrderly(s, es, f); }
    }
  }

  /** The same for whole runs: from the first clobbering change of any schedule the
      calls under way can come to rest with the copies apart. */
  lemma OverlapCanDiverge(settings: StartSettings, es: seq<Event>, f: Field) returns (n: nat, more: seq<Event>)
    requires !NoClobber(Init(settings), es, f)
    ensures n < |es| && NoClobber(Init(settings), es[..n], f) && NoNewCalls(more)
    ensures Apart(After(Init(settings), es[..n] + [es[n]] + more), f)
  {
    var init := Init(settings);
    n := FirstClobber(init, es, f);
    OrderlyAlways(settings, es[..n], f);
    var b;
    more, b := ClobberDiverges(After(init, es[..n]), es[n], f);
    AfterOne(init, es[..n], es[n]);
    AfterAppend(init, es[..n] + [es[n]], more);
  }

  // ----- An overlap from every start -----

  function FailedFirstPoll(s: Sys): Sys {
    Try(Try(Try(s, Pop), SendFails), CallbackReturns)
  }

  function OverlappingStart(s: Sys, a: Setter, b: Setter): Sys {
    Try(Try(Try(Try(Try(s, Begin(1, a)), Begin(2, b)), Advance(1)), Advance(2)), Advance(1))
  }

  lemma OverlapFromIdle(s: Sys, a: CustomCapabilities, b: CustomCapabilities)
    requires s.threads == map[] && s.started && !s.closing
    requires a != b && s.client.synced.customCapabilities != Some(a) && s.client.synced.customCapabilities != Some(b)
    ensures var (v, ca, cb) := (OverlappingStart(s, SetCustomCapabilities(a), SetCustomCapabilities(b)),
                                SetCustomCapabilities(a), SetCustomCapabilities(b));
      && v.threads == map[1 := Updating(ca), 2 := Writing(cb)]
      && v.client.synced == Store(s.client.synced, ca)
      && Midway(v.threads[1], Custom) && Stored(v.client.synced, ca) && Changes(v.client.synced, v.threads[2], Custom)
      && v == s.(threads := v.threads, client := s.client.(synced := v.client.synced))
  {
  }

  function OverlapEvents(a: Setter, b: Setter): seq<Event> {
    [Begin(1, a), Begin(2, b)] + [Advance(1), Advance(2)] + [Advance(1)]
  }

  lemma {:induction false} OverlapEventsRun(s: Sys, a: Setter, b: Setter)
    ensures After(s, OverlapEvents(a, b)) == OverlappingStart(s, a, b)
  {
    var e1 := [Begin(1, a), Begin(2, b)];
    assert [] + e1 == e1;
    AfterTwo(s, [], Begin(1, a), Begin(2, b));
    AfterTwo(s, e1, Advance(1), Advance(2));
    AfterOne(s, e1 + [Advance(1), Advance(2)], Advance(1));
  }

  lemma {:induction false} OverlapEventsFromIdle(s: Sys, a: CustomCapabilities, b: CustomCapabilities)
    requires s.threads == map[] && s.started && !s.closing
    requires a != b && s.client.synced.customCapabilities != Some(a) && s.client.synced.customCapabilities != Some(b)
    ensures var (ca, cb) := (SetCustomCapabilities(a), SetCustomCapabilities(b));
      After(s, OverlapEvents(ca, cb)) ==
        s.(threads := map[1 := Updating(ca), 2 := Writing(cb)],
           client := s.client.(synced := s.client.synced.(customCapabilities := Some(a))))
  {
    OverlapEventsRun(s, SetCustomCapabilities(a), SetCustomCapabilities(b));
    OverlapFromIdle(s, a, b);
  }

  function OverlapSchedule(a: Setter, b: Setter): seq<Event> {
    [Pop, SendFails, CallbackReturns] + OverlapEvents(a, b)
  }

  lemma {:induction false} OverlapScheduleRuns(s: Sys, a: Setter, b: Setter)
    ensures After(s, OverlapSchedule(a, b)) == After(FailedFirstPoll(s), OverlapEvents(a, b))
  {
    var failed := [Pop, SendFails, CallbackReturns];
    assert [] + failed == failed;
    AfterThree(s, [], Pop, SendFails, CallbackReturns);
    AfterAppend(s, failed, OverlapEvents(a, b));
  }

  /** Such a state is reachable from every start: two threads that set different
      custom capabilities at the same time. */
  lemma OverlapIsReachable(settings: StartSettings, a: CustomCapabilities, b: CustomCapabilities)
    requires a != b && settings.customCapabilities != Some(a) && settings.customCapabilities != Some(b)
    ensures var s := After(Init(settings), OverlapSchedule(SetCustomCapabilities(a), SetCustomCapabilities(b)));
      && s.threads.Keys == {1, 2}
      && Midway(s.threads[1], Custom) && Stored(s.client.synced, s.threads[1].c)
      && Changes(s.client.synced, s.threads[2], Custom)
      && Clobbers(s, Advance(2), Custom)
  {
    var s := FailedFirstPoll(Init(settings));
    FirstPollLeavesIdle(Init(settings));
    OverlapScheduleRuns(Init(settings), SetCustomCapabilities(a), SetCustomCapabilities(b));
    OverlapEventsFromIdle(s, a, b);
  }

  lemma FirstPollLeavesIdle(s: Sys)
    requires s.poller.Popping?
    ensures var v := FailedFirstPoll(s);
      v.threads == s.threads && v.started && v.closing == s.closing && v.client.synced == s.client.synced
  {
  }

  lemma {:induction false} AfterOne(s: Sys, es: seq<Event>, e: Event)
    ensures After(s, es + [e]) == Try(After(s, es), e)
  {
  }

  lemma {:induction false} AfterTwo(s: Sys, es: seq<Event>, e: Event, f: Event)
    ensures After(s, es + [e, f]) == Try(Try(After(s, es), e), f)
  {
    assert es + [e, f] == es + [e] + [f];
    AfterOne(s, es, e);
    AfterOne(s, es + [e], f);
  }

  lemma {:induction false} AfterThree(s: Sys, es: seq<Event>, e: Event, f: Event, g: Event)
    ensures After(s, es + [e, f, g]) == Try(Try(Try(After(s, es), e), f), g)
  {
    assert es + [e, f, g] == es + [e, f] + [g];
    AfterTwo(s, es, e, f);
    AfterOne(s, es + [e, f], g);
  }

  // ----- Without interleaving, the steps are the whole call -----

  /** A setter that runs through without interruption does exactly what `Call`
      says, in every one of its outcomes. */
  lemma UninterruptedSetter(s: Sys, t: nat, c: Setter)
    requires Enabled(s, Begin(t, c))
    ensures var v := Try(Try(Try(Try(Try(s, Begin(t, c)), Advance(t)), Advance(t)), Advance(t)), Advance(t));
      v.client == Call(s.client, c) && v.threads[t] == Done
  {
  }

  function ReadAll(s: Sys): Sys {
    Try(Try(Try(Try(Try(s, ReadField), ReadField), ReadField), ReadField), ReadField)
  }

  lemma FiveReads(s: Sys)
    ensures s.poller == Reading(0, NO_DATA) ==> ReadAll(s) == s.(poller := Refilling(s.client.synced))
    ensures s.poller.Selecting? ==> ReadAll(s) == s
  {
  }

  /** A step of the running operation, if it is not done. */
  function OpTry(p: (Client, Op)): (Client, Op) {
    if p.1.Done? then p else (OpEffect(p.0, p.1), OpNext(p.0, p.1))
  }

  lemma WholeOp(s: Client, c: Setter)
    ensures OpTry(OpTry(OpTry(OpTry((s, Begun(s.capabilities, c)))))) == (Call(s, c), Done)
  {
  }

  lemma CallbackStep(s: Sys)
    requires s.poller.InCallback?
    ensures var v := Try(s, CallbackAdvances);
      && v.poller.InCallback? && v.poller.after == s.poller.after
      && (v.client, v.poller.op) == OpTry((s.client, s.poller.op))
  {
  }

  /** One call of a callback, step by step. */
  function RunCall(s: Sys, c: Setter): Sys {
    Try(Try(Try(Try(Try(s, CallbackSets(c)), CallbackAdvances), CallbackAdvances), CallbackAdvances), CallbackAdvances)
  }

  function RunCalls(s: Sys, calls: seq<Setter>): Sys
    decreases |calls|
  {
    if calls == [] then s else RunCall(RunCalls(s, calls[..|calls| - 1]), calls[|calls| - 1])
  }

  lemma UninterruptedCall(s: Sys, c: Setter)
    requires s.poller.InCallback? && s.poller.op.Done?
    ensures RunCall(s, c).client == Call(s.client, c) && RunCall(s, c).poller == s.poller
  {
    var s1 := Try(s, CallbackSets(c));
    var s2 := Try(s1, CallbackAdvances);
    var s3 := Try(s2, CallbackAdvances);
    var s4 := Try(s3, CallbackAdvances);
    CallbackStep(s1);
    CallbackStep(s2);
    CallbackStep(s3);
    CallbackStep(s4);
    WholeOp(s.client, c);
  }

  lemma {:induction false} UninterruptedCallback(s: Sys, calls: seq<Setter>)
    requires s.poller.InCallback? && s.poller.op.Done?
    ensures RunCalls(s, calls).client == CallAll(s.client, calls) && RunCalls(s, calls).poller == s.poller
    decreases |calls|
  {
    if calls != [] {
      UninterruptedCallback(s, calls[..|calls| - 1]);
      UninterruptedCall(RunCalls(s, calls[..|calls| - 1]), calls[|calls| - 1]);
    }
  }

  lemma {:induction false} CallsKeepCapabilities(s: Client, calls: seq<Setter>)
    ensures CallAll(s, calls).capabilities == s.capabilities
    decreases |calls|
  {
    if calls != [] {
      CallsKeepCapabilities(s, calls[..|calls| - 1]);
    }
  }

  lemma Dispatched(s: Sys)
    requires s.poller.Processing?
    ensures var (v, resp) := (Try(s, Dispatch), s.poller.resp);
      && v.client == (if ObeysCommand(s.client.capabilities, resp) then s.client
                      else s.client.(next := Identify(s.client.next, resp)))
      && v.poller ==
           InCallback(if ObeysCommand(s.client.capabilities, resp) then ToSelect else ToFlags(resp.flags), Done)
  {
  }

  lemma Returned(s: Sys, k: Continuation)
    requires s.poller == InCallback(k, Done) && (k.ToSelect? || k.ToFlags?)
    ensures var v := Try(s, CallbackReturns);
      && v.client == s.client
      && v.poller == (if k.ToFlags? && AsksFullState(k.flags) then Reading(0, NO_DATA) else Selecting)
  {
  }

  /** From the response to the return of the callback that it leads to. */
  lemma {:induction false} WholeCallback(s: Sys, calls: seq<Setter>)
    requires s.poller.Processing?
    ensures var (called, resp) := (Try(RunCalls(Try(s, Dispatch), calls), CallbackReturns), s.poller.resp);
      && called.client ==
           CallAll(if ObeysCommand(s.client.capabilities, resp) then s.client
                   else s.client.(next := Identify(s.client.next, resp)), calls)
      && called.poller == (if Refills(s.client, resp) then Reading(0, NO_DATA) else Selecting)
  {
    var d := Try(s, Dispatch);
    Dispatched(s);
    UninterruptedCallback(d, calls);
    Returned(RunCalls(d, calls), d.poller.after);
  }

  lemma RefillAndResend(s: Sys, config: Option<EffectiveConfig>)
    ensures var v := Try(Try(s, PutFull(config)), Resend);
      && (s.poller.Selecting? ==> v == s)
      && (s.poller.Refilling? ==>
            && v.poller.Selecting?
            && v.client == s.client.(next := Refill(s.client.next, s.poller.full, config),
                                     mailbox := s.client.mailbox.TrySend()))
  {
  }

  /** An uninterrupted response does what `Receive` says, whatever calls the
      callback makes. */
  lemma {:induction false} UninterruptedResponse(s: Sys, calls: seq<Setter>, config: Option<EffectiveConfig>)
    requires s.poller.Processing?
    ensures var read := ReadAll(Try(RunCalls(Try(s, Dispatch), calls), CallbackReturns));
      var v := Try(Try(read, PutFull(config)), Resend);
      v.client == Receive(s.client, s.poller.resp, calls, config) && v.poller.Selecting?
  {
    var called := Try(RunCalls(Try(s, Dispatch), calls), CallbackReturns);
    WholeCallback(s, calls);
    FiveReads(called);
    RefillAndResend(ReadAll(called), config);
  }
}
