/** What is in the messages handed out, taken together: no value that was set is
    missing there, exactly as long as no setter loses a race. */
module HandedOut {
  import opened Proto
  import opened Settings
  import opened Status
  import opened Interleaving
  import opened Overlap
  import opened Replication
  import opened EndToEnd
  import opened Unnoticed

  /** What a server sees that gets every message. */
  function MergeAll(log: seq<AgentToServer>): Data
    decreases |log|
  {
    if log == [] then NO_DATA else Merge(MergeAll(log[..|log| - 1]), log[|log| - 1])
  }

  lemma {:induction false} MergeAllOne(log: seq<AgentToServer>, msg: AgentToServer)
    ensures MergeAll(log + [msg]) == Merge(MergeAll(log), msg)
  {
  }

  /** The event changes the stored value while a thread is midway on the field, or
      after a full-state answer has read it, or while a callback is midway on it
      and no full-state answer follows that callback. */
  ghost predicate Loses(s: Sys, e: Event, f: Field) {
    && Rewrites(s, e, f)
    && (ThreadMidway(s, f) || HasRead(s.poller, f) || (PollerMidway(s.poller, f) && !RefillComing(s)))
  }

  ghost predicate NoLoss(s: Sys, es: seq<Event>, f: Field)
    decreases |es|
  {
    es == [] || (
      NoLoss(s, es[..|es| - 1], f) && !Loses(Interleaving.After(s, es[..|es| - 1]), es[|es| - 1], f))
  }

  // ----- The invariant -----

  /** No value of the field; an empty description counts as none. */
  predicate BlankOn(d: Data, f: Field) {
    !HasValueOn(d, f) || (f.Description? && d.agentDescription.value.HasNoAttributes())
  }

  /** As long as the field was never set, no message has it. */
  ghost predicate NothingEarly(s: Sys, f: Field) {
    && (!HasValueOn(s.client.synced, f) ==>
          BlankOn(MergeAll(s.log), f) && BlankOn(Merge(NO_DATA, s.client.next), f))
    && (PollerMidway(s.poller, f) ==> HasValueOn(s.client.synced, f))
  }

  ghost predicate Accounted(s: Sys, f: Field) {
    && Owned(s) && ThreadsCurrent(s, f) && ReadIsCurrent(s, f)
    && (RefillComing(s) || (PollerCurrent(s, f) && Fine(s, MergeAll(s.log), f)))
    && (s.dropped ==> !MentionsOn(s.client.next, f))
    && NothingEarly(s, f)
  }

  lemma StepKeepsFineInLog(s: Sys, e: Event, f: Field)
    requires Owned(s) && ThreadsCurrent(s, f) && ReadIsCurrent(s, f) && PollerCurrent(s, f) && Enabled(s, e)
    requires Fine(s, MergeAll(s.log), f)
    ensures Fine(Step(s, e), MergeAll(Step(s, e).log), f)
  {
    StepLog(s, e);
    if HandsOut(s, e) {
      MergeAllOne(s.log, Handed(s, e));
      HandingOutKeepsFine(s, e, MergeAll(s.log), f);
    } else {
      StepKeepsFine(s, e, MergeAll(s.log), f);
    }
  }

  lemma BlankMerge(view: Data, m: AgentToServer, f: Field)
    requires BlankOn(view, f) && BlankOn(Merge(NO_DATA, m), f)
    ensures BlankOn(Merge(view, m), f)
  {
  }

  /** An operation that is not midway on the field leaves its report alone. */
  lemma OpKeepsReport(s: Client, op: Op, f: Field)
    requires !op.Done? && !Midway(op, f)
    ensures SameReport(OpEffect(s, op).next, s.next, f)
    ensures Midway(OpNext(s, op), f) ==> HasValueOn(OpEffect(s, op).synced, f)
  {
  }

  lemma BlankStays(m: AgentToServer, n: AgentToServer, f: Field)
    requires SameReport(n, m, f)
    ensures BlankOn(Merge(NO_DATA, n), f) == BlankOn(Merge(NO_DATA, m), f)
  {
  }

  lemma QuietKeepsReport(s: Sys, e: Event, f: Field)
    requires Enabled(s, e) && Quiet(e) && !HandsOut(s, e)
    ensures SameReport(Step(s, e).client.next, s.client.next, f)
  {
    QuietKeepsReports(s, e);
  }

  /** The next message stays blank as long as nothing is stored. */
  lemma NextStaysBlank(s: Sys, e: Event, f: Field)
    requires ThreadsCurrent(s, f) && ReadIsCurrent(s, f) && NothingEarly(s, f) && Enabled(s, e)
    requires !HasValueOn(s.client.synced, f)
    ensures BlankOn(Merge(NO_DATA, Step(s, e).client.next), f)
  {
    var m, n := s.client.next, Step(s, e).client.next;
    if e.Advance? {
      NotMidwayUnset(s, e.thread, f);
      OpKeepsReport(s.client, s.threads[e.thread], f);
      BlankStays(m, n, f);
    } else if e.CallbackAdvances? {
      OpKeepsReport(s.client, s.poller.op, f);
      BlankStays(m, n, f);
    } else if e.PutFull? {
      RefillPutsRead(s, e.config, f);
    } else if HandsOut(s, e) {
    } else if Quiet(e) {
      QuietKeepsReport(s, e, f);
      BlankStays(m, n, f);
    } else {
      assert n == m;
    }
  }

  lemma NotMidwayUnset(s: Sys, t: nat, f: Field)
    requires ThreadsCurrent(s, f) && t in s.threads && !HasValueOn(s.client.synced, f)
    ensures !Midway(s.threads[t], f)
  {
  }

  lemma PollerMidwayIsSet(s: Sys, e: Event, f: Field)
    requires Enabled(s, e) && (PollerMidway(s.poller, f) ==> HasValueOn(s.client.synced, f))
    ensures PollerMidway(Step(s, e).poller, f) ==> HasValueOn(Step(s, e).client.synced, f)
  {
    if HasValueOn(s.client.synced, f) {
      ValueStays(s, e, f);
    } else if e.CallbackAdvances? {
      OpKeepsReport(s.client, s.poller.op, f);
    } else if Quiet(e) {
      QuietPoller(s, e);
    } else if e.Begin? || e.Advance? {
      OthersStay(s, e, e.thread, f);
    } else {
      assert !Step(s, e).poller.InCallback?;
    }
  }

  lemma StepKeepsNothingEarly(s: Sys, e: Event, f: Field)
    requires ThreadsCurrent(s, f) && ReadIsCurrent(s, f) && NothingEarly(s, f) && Enabled(s, e)
    ensures NothingEarly(Step(s, e), f)
  {
    PollerMidwayIsSet(s, e, f);
    if HasValueOn(s.client.synced, f) {
      ValueStays(s, e, f);
    } else {
      NextStaysBlank(s, e, f);
      StepLog(s, e);
      if HandsOut(s, e) {
        MergeAllOne(s.log, Handed(s, e));
        BlankMerge(MergeAll(s.log), Handed(s, e), f);
      }
    }
  }

  lemma DroppedIsEmpty(s: Sys, e: Event, f: Field)
    requires Owned(s) && Enabled(s, e) && (s.dropped ==> !MentionsOn(s.client.next, f))
    ensures Step(s, e).dropped ==> !MentionsOn(Step(s, e).client.next, f)
  {
    StepLog(s, e);
    if s.dropped { StoppedIsFinal(s, e); }
  }

  lemma StepKeepsAccounted(s: Sys, e: Event, f: Field)
    requires Accounted(s, f) && Enabled(s, e) && !Loses(s, e, f)
    ensures Accounted(Step(s, e), f)
  {
    StepKeepsOwned(s, e);
    StepKeepsThreads(s, e, f);
    StepKeepsReads(s, e, f);
    StepKeepsNothingEarly(s, e, f);
    DroppedIsEmpty(s, e, f);
    if RefillComing(s) {
      ComingStays(s, e);
      if e.PutFull? { FilledIsFine(s, e.config, f); }
    } else {
      StepKeepsPoller(s, e, f);
      StepKeepsFineInLog(s, e, f);
    }
  }

  lemma FilledIsFine(s: Sys, config: Option<EffectiveConfig>, f: Field)
    requires ReadIsCurrent(s, f) && Enabled(s, PutFull(config))
    ensures var v := Step(s, PutFull(config));
      PollerCurrent(v, f) && Fine(v, MergeAll(v.log), f)
  {
    RefillIsFine(s, config, f);
    FineWithAny(Step(s, PutFull(config)), MergeAll(s.log), f);
  }

  lemma {:induction false} RunKeepsAccounted(s: Sys, es: seq<Event>, f: Field)
    requires Accounted(s, f) && NoLoss(s, es, f)
    ensures Accounted(Interleaving.After(s, es), f)
    decreases |es|
  {
    if es != [] {
      RunKeepsAccounted(s, es[..|es| - 1], f);
      if Enabled(Interleaving.After(s, es[..|es| - 1]), es[|es| - 1]) {
        StepKeepsAccounted(Interleaving.After(s, es[..|es| - 1]), es[|es| - 1], f);
      }
    }
  }

  lemma StartIsAccounted(settings: StartSettings, f: Field)
    ensures Accounted(Interleaving.Init(settings), f)
  {
    StartIsValid(settings);
  }

  // ----- Without disturbed changes, at every moment -----

  ghost predicate Complete(s: Sys, f: Field) {
    Owned(s) && Current(s, f) && Fine(s, MergeAll(s.log), f)
  }

  lemma {:induction false} AlwaysComplete(settings: StartSettings, es: seq<Event>, f: Field)
    requires NoDisturb(Interleaving.Init(settings), es, f)
    ensures Complete(Interleaving.After(Interleaving.Init(settings), es), f)
    ensures NoLoss(Interleaving.Init(settings), es, f)
    decreases |es|
  {
    StartIsValid(settings);
    if es != [] {
      var s, e := Interleaving.After(Interleaving.Init(settings), es[..|es| - 1]), es[|es| - 1];
      AlwaysComplete(settings, es[..|es| - 1], f);
      if Enabled(s, e) {
        StepKeepsOwned(s, e);
        StepKeepsCurrent(s, e, f);
        StepKeepsFineInLog(s, e, f);
      }
    }
  }

  // ----- Main result -----

  /** Some schedule without a disturbed change of the field leads to the state. */
  ghost predicate ReachedUndisturbed(settings: StartSettings, s: Sys, f: Field) {
    exists es ::
      NoDisturb(Interleaving.Init(settings), es, f) && s == Interleaving.After(Interleaving.Init(settings), es)
  }

  /** Some schedule without a losing change of the field leads to the state. */
  ghost predicate ReachedWithoutLoss(settings: StartSettings, s: Sys, f: Field) {
    exists es :: NoLoss(Interleaving.Init(settings), es, f) && s == Interleaving.After(Interleaving.Init(settings), es)
  }

  /** Every value of a stored field is being set right now, or waits in the next
      message, or is about to be refilled into it, or is the latest one in the
      messages handed out, refills or not; and once the disconnect is out, the
      latter. Without any disturbed change it need not wait for a refill. */
  lemma EveryValueIsHandedOut(settings: StartSettings, s: Sys, f: Field)
    requires HasValueOn(s.client.synced, f)
    ensures ReachedWithoutLoss(settings, s, f) ==>
      && (RefillComing(s) || Busy(s, f) || ReportsOn(s.client.next, s.client.synced, f)
          || SameOn(MergeAll(s.log), s.client.synced, f))
      && (s.dropped ==> SameOn(MergeAll(s.log), s.client.synced, f))
    ensures ReachedUndisturbed(settings, s, f) ==>
      && ReachedWithoutLoss(settings, s, f)
      && (Busy(s, f) || ReportsOn(s.client.next, s.client.synced, f) || SameOn(MergeAll(s.log), s.client.synced, f))
  {
    if ReachedWithoutLoss(settings, s, f) { WithoutLoss(settings, s, f); }
    if ReachedUndisturbed(settings, s, f) { Undisturbed(settings, s, f); }
  }

  lemma WithoutLoss(settings: StartSettings, s: Sys, f: Field)
    requires ReachedWithoutLoss(settings, s, f)
    ensures Accounted(s, f)
  {
    var es :| NoLoss(Interleaving.Init(settings), es, f) && s == Interleaving.After(Interleaving.Init(settings), es);
    StartIsAccounted(settings, f);
    RunKeepsAccounted(Interleaving.Init(settings), es, f);
  }

  lemma Undisturbed(settings: StartSettings, s: Sys, f: Field)
    requires ReachedUndisturbed(settings, s, f)
    ensures Complete(s, f) && ReachedWithoutLoss(settings, s, f)
  {
    var es :|
      NoDisturb(Interleaving.Init(settings), es, f) && s == Interleaving.After(Interleaving.Init(settings), es);
    AlwaysComplete(settings, es, f);
  }

  // ----- The condition is exact -----

  /** At rest, no refill is coming, and the value of the field is neither in the next
      message nor the latest one handed out. */
  ghost predicate Lost(s: Sys, f: Field) {
    && !RefillComing(s) && !Busy(s, f)
    && !SettledOn(s.client.next, s.client.synced, MergeAll(s.log), f)
  }

  /** A server to which the client may be talking; what it does is up to a run. */
  function Embed(s: Sys): Net {
    var num := s.client.next.sequenceNum;
    var last := if s.poller.Sending? then (num + U64_RANGE - 1) % U64_RANGE else num;
    Net(s, false, if s.poller.Sending? then Some(s.client.next) else None, false, None,
        Server(true, last, NO_DATA, RefillComing(s)), 0)
  }

  lemma EmbedIsTracked(s: Sys)
    requires Owned(s)
    ensures Tracked(Embed(s)) && (NetAlarmed(Embed(s)) <==> RefillComing(s))
  {
    LaterFacts(Embed(s).server.lastNum, 0);
    NetAlarmIffOwed(Embed(s));
  }

  /** The client's share of a run. */
  lemma {:induction false} Project(n: Net, evs: seq<NetEvent>) returns (es: seq<Event>)
    ensures Interleaving.After(n.sys, es) == NetAfter(n, evs).sys
    ensures CallFree(evs) ==> NoNewCalls(es)
    decreases |evs|
  {
    if evs == [] {
      es := [];
    } else {
      var m, ev := NetAfter(n, evs[..|evs| - 1]), evs[|evs| - 1];
      es := Project(n, evs[..|evs| - 1]);
      if NetEnabled(m, ev) && Projection(m, ev).Some? {
        ProjectedStep(m, ev);
        AfterOne(n.sys, es, Projection(m, ev).value);
        es := es + [Projection(m, ev).value];
      }
    }
  }

  lemma WrongIsLost(s: Sys, f: Field)
    requires LastIsWrong(s, f)
    ensures !SameOn(MergeAll(s.log), s.client.synced, f)
  {
  }

  lemma ToldIsLost(s: Sys, v: Sys, d: Data, f: Field)
    requires LastTells(s, v, d, f) && HasValueOn(s.client.synced, f) && !SameOn(d, s.client.synced, f)
    requires HasValueOn(d, f) || (BlankOn(MergeAll(s.log), f) && !BlankOn(s.client.synced, f))
    ensures !SameOn(MergeAll(v.log), v.client.synced, f)
  {
    assert v.log[..|v.log| - 1] == s.log;
    SameTold(MergeAll(s.log), v.log[|s.log|], d, s.client.synced, v.client.synced, f);
  }

  lemma SameTold(view: Data, msg: AgentToServer, d: Data, synced: Data, a: Data, f: Field)
    requires TellsOf(msg, d, f) && SameOn(a, synced, f) && HasValueOn(synced, f) && !SameOn(d, synced, f)
    requires HasValueOn(d, f) || (BlankOn(view, f) && !BlankOn(synced, f))
    ensures !SameOn(Merge(view, msg), a, f)
  {
  }

  /** A change stores a value, and no empty one. */
  lemma ChangedIsNotBlank(s: Sys, e: Event, f: Field)
    requires Rewrites(s, e, f)
    ensures var d := Step(s, e).client.synced;
      HasValueOn(d, f) && !BlankOn(d, f) && !SameOn(s.client.synced, d, f)
    ensures Step(s, e).log == s.log
  {
  }

  /** What such a run comes to. */
  ghost predicate GoneIn(m: Net, f: Field) {
    Missed(m, f) && m.sys.poller.Sending? && !SameOn(MergeAll(m.sys.log), m.sys.client.synced, f)
  }

  lemma OverlapIsLost(s: Sys, e: Event, f: Field) returns (evs: seq<NetEvent>)
    requires Accounted(s, f) && Rewrites(s, e, f) && ThreadMidway(s, f)
    ensures NetEnabled(Embed(s), Local(e)) && CallFree(evs)
    ensures var m := NetAfter(NetStep(Embed(s), Local(e)), evs);
      GoneIn(m, f) && (OnlyMidway(Step(s, e), f) ==> Stuck(m, f))
  {
    EmbedIsTracked(s);
    evs := OverlapIsMissed(Embed(s), e, f);
    WrongIsLost(NetAfter(NetStep(Embed(s), Local(e)), evs).sys, f);
  }

  lemma OvertakenIsLost(s: Sys, t: nat, f: Field) returns (evs: seq<NetEvent>)
    requires Accounted(s, f) && t in s.threads && Changes(s.client.synced, s.threads[t], f) && !ThreadMidway(s, f)
    requires HasRead(s.poller, f) || (PollerMidway(s.poller, f) && !RefillComing(s))
    ensures NetEnabled(Embed(s), Local(Advance(t))) && CallFree(evs)
    ensures var m := NetAfter(NetStep(Embed(s), Local(Advance(t))), evs);
      GoneIn(m, f) && (OthersElsewhere(s, {t}, f) ==> Stuck(m, f))
  {
    EmbedIsTracked(s);
    if HasRead(s.poller, f) {
      evs := RefillIsMissed(Embed(s), t, f);
    } else {
      evs := CallbackIsMissed(Embed(s), t, f);
    }
    ChangedIsNotBlank(s, Advance(t), f);
    ToldIsLost(Step(s, Advance(t)), NetAfter(NetStep(Embed(s), Local(Advance(t))), evs).sys, s.client.synced, f);
  }

  lemma LosingIsGone(s: Sys, e: Event, f: Field) returns (evs: seq<NetEvent>)
    requires Accounted(s, f) && Loses(s, e, f)
    ensures NetStep(Embed(s), Local(e)).sys == Step(s, e) && CallFree(evs)
    ensures var m := NetAfter(NetStep(Embed(s), Local(e)), evs);
      GoneIn(m, f) && (OnlyMidway(Step(s, e), f) ==> Stuck(m, f))
  {
    if ThreadMidway(s, f) {
      evs := OverlapIsLost(s, e, f);
    } else {
      evs := OvertakenIsLost(s, e.thread, f);
      if OnlyMidway(Step(s, e), f) { OthersOfWriter(s, e.thread, f); }
    }
  }

  /** Every losing change can be continued, without a new call, to a loss. */
  lemma LosingIsLost(s: Sys, e: Event, f: Field) returns (es: seq<Event>)
    requires Accounted(s, f) && Loses(s, e, f)
    ensures NoNewCalls(es)
    ensures var v := Interleaving.After(Step(s, e), es);
      && Lost(v, f) && !SameOn(MergeAll(v.log), v.client.synced, f) && v.poller.Sending?
      && (OnlyMidway(Step(s, e), f) ==> Calm(v, f) && Owned(v))
  {
    var evs := LosingIsGone(s, e, f);
    es := Project(NetStep(Embed(s), Local(e)), evs);
  }

  lemma OthersOfWriter(s: Sys, t: nat, f: Field)
    requires t in s.threads && Changes(s.client.synced, s.threads[t], f) && !ThreadMidway(s, f)
    requires OnlyMidway(Step(s, Advance(t)), f)
    ensures OthersElsewhere(s, {t}, f)
  {
    OthersStay(s, Advance(t), t, f);
    forall u | u in s.threads && u != t ensures Elsewhere(s.threads[u], f) {
      assert Step(s, Advance(t)).threads[u] == s.threads[u];
    }
  }

  ghost predicate CanBeLost(s: Sys, f: Field) {
    exists es :: NoNewCalls(es) && Lost(Interleaving.After(s, es), f)
  }

  ghost predicate CanLose(s: Sys, f: Field) {
    exists es :: NoNewCalls(es) && !NoLoss(s, es, f)
  }

  lemma {:induction false} FirstLosing(s: Sys, es: seq<Event>, f: Field) returns (n: nat)
    requires !NoLoss(s, es, f)
    ensures n < |es| && NoLoss(s, es[..n], f) && Loses(Interleaving.After(s, es[..n]), es[n], f)
    decreases |es|
  {
    var init := es[..|es| - 1];
    if NoLoss(s, init, f) {
      n := |init|;
    } else {
      n := FirstLosing(s, init, f);
      assert init[..n] == es[..n];
    }
  }

  lemma {:induction false} LosingCanBeLost(s: Sys, es: seq<Event>, f: Field)
    requires Accounted(s, f) && NoNewCalls(es) && !NoLoss(s, es, f)
    ensures CanBeLost(s, f)
  {
    var n := FirstLosing(s, es, f);
    RunKeepsAccounted(s, es[..n], f);
    var more := LosingIsLost(Interleaving.After(s, es[..n]), es[n], f);
    AfterOne(s, es[..n], es[n]);
    AfterAppend(s, es[..n] + [es[n]], more);
    assert NoNewCalls(es[..n] + [es[n]] + more);
  }

  /** The condition of `EveryValueIsHandedOut` is exact: from any state with the
      invariant the calls under way can come to a loss if and only if they can
      interleave with a losing change. */
  lemma LostIffLosing(s: Sys, f: Field)
    requires Accounted(s, f)
    ensures CanBeLost(s, f) <==> CanLose(s, f)
  {
    if CanLose(s, f) {
      var es :| NoNewCalls(es) && !NoLoss(s, es, f);
      LosingCanBeLost(s, es, f);
    }
    if CanBeLost(s, f) {
      var es :| NoNewCalls(es) && Lost(Interleaving.After(s, es), f);
      if NoLoss(s, es, f) { RunKeepsAccounted(s, es, f); }
    }
  }

  // ----- Up to the disconnect -----

  function NotDone(s: Sys): set<nat> {
    set t | t in s.threads && !s.threads[t].Done?
  }

  /** Nothing has happened to the field, nor to the log. */
  ghost predicate CalmAfter(s: Sys, v: Sys, f: Field) {
    && Calm(v, f) && Owned(v) && v.poller == s.poller && v.log == s.log
    && v.closing == s.closing && v.started == s.started
    && SameOn(v.client.synced, s.client.synced, f)
  }

  lemma CalmAdvance(s: Sys, t: nat, f: Field)
    requires Calm(s, f) && Owned(s) && Enabled(s, Advance(t))
    ensures var v := Step(s, Advance(t));
      CalmAfter(s, v, f) && v.threads == s.threads[t := OpNext(s.client, s.threads[t])]
  {
    ThreadStaysCalm(s, t, f);
    StepKeepsOwned(s, Advance(t));
  }

  lemma OpComesToAnEnd(s: Client, op: Op)
    requires !op.Done?
    ensures OpRank(OpNext(s, op)) < OpRank(op)
  {
  }

  lemma CalmTwice(s: Sys, w: Sys, v: Sys, f: Field)
    requires CalmAfter(s, w, f) && CalmAfter(w, v, f)
    ensures CalmAfter(s, v, f)
  {
  }

  /** One thread finishes. */
  lemma {:induction false} FinishOne(s: Sys, t: nat, f: Field) returns (es: seq<Event>)
    requires Calm(s, f) && Owned(s) && t in s.threads
    ensures NoNewCalls(es)
    ensures var v := Interleaving.After(s, es);
      CalmAfter(s, v, f) && v.threads == s.threads[t := Done]
    decreases OpRank(s.threads[t])
  {
    if s.threads[t].Done? {
      es := [];
    } else {
      var w := Step(s, Advance(t));
      CalmAdvance(s, t, f);
      OpComesToAnEnd(s.client, s.threads[t]);
      var rest := FinishOne(w, t, f);
      es := [Advance(t)] + rest;
      StepThen(s, Advance(t), rest);
      CalmTwice(s, w, Interleaving.After(w, rest), f);
    }
  }

  lemma {:induction false} StepThen(s: Sys, e: Event, rest: seq<Event>)
    requires Enabled(s, e)
    ensures Interleaving.After(s, [e] + rest) == Interleaving.After(Step(s, e), rest)
  {
    assert Interleaving.After(s, []) == s;
    AfterOne(s, [], e);
    assert [] + [e] == [e];
    AfterAppend(s, [e], rest);
  }

  /** All calls finish. */
  lemma {:induction false} FinishCalls(s: Sys, f: Field) returns (es: seq<Event>)
    requires Calm(s, f) && Owned(s)
    ensures NoNewCalls(es)
    ensures var v := Interleaving.After(s, es); CalmAfter(s, v, f) && AllDone(v)
    decreases |NotDone(s)|
  {
    if t :| t in NotDone(s) {
      var first := FinishOne(s, t, f);
      var w := Interleaving.After(s, first);
      assert NotDone(w) == NotDone(s) - {t};
      var rest := FinishCalls(w, f);
      AfterAppend(s, first, rest);
      CalmTwice(s, w, Interleaving.After(w, rest), f);
      es := first + rest;
    } else {
      es := [];
      assert forall t :: t in s.threads ==> s.threads[t].Done? || t in NotDone(s);
    }
  }

  lemma Closes(s: Sys)
    requires Owned(s) && AllDone(s) && s.poller.Selecting? && s.started
    ensures var v := Try(Try(Try(s, Close), Exit), Drop);
      && v.dropped && v.client.synced == s.client.synced
      && v.log == s.log + [Stamp(s.client.next).(agentDisconnect := Some(AgentDisconnect))]
  {
    var closed := Try(s, Close);
    assert closed == s.(closing := true);
    StepKeepsOwned(closed, Exit);
    var stopped := Try(closed, Exit);
    assert stopped.client == s.client.(mailbox := stopped.client.mailbox) && stopped.log == s.log;
  }

  /** The client is closed and goes away. */
  lemma CloseAndDrop(s: Sys, f: Field) returns (es: seq<Event>)
    requires Owned(s) && AllDone(s) && s.poller.Selecting? && s.started && !MentionsOn(s.client.next, f)
    ensures NoNewCalls(es)
    ensures var v := Interleaving.After(s, es);
      && v.dropped && v.client.synced == s.client.synced
      && SameOn(MergeAll(v.log), MergeAll(s.log), f)
  {
    es := [Close, Exit, Drop];
    Closes(s);
    AfterThree(s, [], Close, Exit, Drop);
    assert [] + es == es;
    MergeAllOne(s.log, Stamp(s.client.next).(agentDisconnect := Some(AgentDisconnect)));
  }

  /** The request fails, and the polling thread is back at its channels. */
  lemma {:induction false} FailedRequest(s: Sys, f: Field)
    requires s.poller.Sending? && Owned(s) && Calm(s, f)
    ensures var v := Interleaving.After(s, [SendFails, CallbackReturns]);
      && v == s.(poller := Selecting, started := true) && Owned(v) && Calm(v, f)
  {
    AfterTwo(s, [], SendFails, CallbackReturns);
    assert [] + [SendFails, CallbackReturns] == [SendFails, CallbackReturns];
    OwnedAfter(s, [SendFails, CallbackReturns]);
  }

  /** A loss is not made good by the disconnect: if no other call on the field is
      under way, all calls can finish and the client be closed and dropped with
      the value missing from all its messages taken together. */
  lemma LossOutlastsTheClient(s: Sys, e: Event, f: Field) returns (es: seq<Event>)
    requires Accounted(s, f) && Loses(s, e, f) && OnlyMidway(Step(s, e), f)
    ensures NoNewCalls(es)
    ensures var v := Interleaving.After(Step(s, e), es);
      v.dropped && !SameOn(MergeAll(v.log), v.client.synced, f)
  {
    var lose := LosingIsLost(s, e, f);
    var v := Interleaving.After(Step(s, e), lose);
    FailedRequest(v, f);
    var fail := [SendFails, CallbackReturns];
    var w := Interleaving.After(v, fail);
    var finish := FinishCalls(w, f);
    var drop := CloseAndDrop(Interleaving.After(w, finish), f);
    AfterAppend(v, fail, finish);
    AfterAppend(v, fail + finish, drop);
    AfterAppend(Step(s, e), lose, fail + finish + drop);
    es := lose + (fail + finish + drop);
  }
}
