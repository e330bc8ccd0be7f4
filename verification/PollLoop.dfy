/** The polling thread's loop in time. Times and durations are nanoseconds. */
module PollLoop {

  const SECOND := 1_000_000_000
  const DEFAULT_POLLING_INTERVAL := 30 * SECOND
  const MINIMUM_POLLING_INTERVAL := 1 * SECOND
  const DEFAULT_MINIMUM_DURATION_BETWEEN_POLL := 5 * SECOND

  datatype Config = Config(pollInterval: nat, minBetween: nat)

  const DEFAULT_CONFIG := Config(DEFAULT_POLLING_INTERVAL, DEFAULT_MINIMUM_DURATION_BETWEEN_POLL)

  function Max(a: nat, b: nat): nat {
    if a < b then b else a
  }

  /** Whatever is requested: the interval is that, but one second at least; the
      minimum between polls is one second up to an interval of five, else five. */
  function WithInterval(requested: nat): (c: Config)
    ensures requested <= 1_000_000_000 ==> c == Config(1_000_000_000, 1_000_000_000)
    ensures 1_000_000_000 < requested <= 5_000_000_000 ==> c == Config(requested, 1_000_000_000)
    ensures requested > 5_000_000_000 ==> c == Config(requested, 5_000_000_000)
    ensures c.pollInterval >= requested && MINIMUM_POLLING_INTERVAL <= c.minBetween <= c.pollInterval
    ensures c.minBetween < c.pollInterval <==> requested > MINIMUM_POLLING_INTERVAL
    ensures c.minBetween == DEFAULT_MINIMUM_DURATION_BETWEEN_POLL <==> requested > DEFAULT_MINIMUM_DURATION_BETWEEN_POLL
  {
    var interval := if requested <= MINIMUM_POLLING_INTERVAL then MINIMUM_POLLING_INTERVAL else requested;
    Config(interval,
           if interval <= DEFAULT_MINIMUM_DURATION_BETWEEN_POLL then MINIMUM_POLLING_INTERVAL
           else DEFAULT_MINIMUM_DURATION_BETWEEN_POLL)
  }

  datatype Pending = Empty | Token | Disconnected

  /** What one `select_biased!` sees when it wakes up: the time, the exit and
      pending-message channels, how long the poll that may follow takes, and how
      much later than one interval the ticker fires next. */
  datatype Look = Look(at: nat, exit: bool, pending: Pending, pollTime: nat, late: nat)

  datatype Kind = Notified | Scheduled

  datatype Poll = Poll(at: nat, kind: Kind)

  /** `now` is when the loop looks again at the earliest, `due` when the ticker fires. */
  datatype Loop = Loop(now: nat, due: nat, polls: seq<Poll>, running: bool)

  function Spawned(c: Config, at: nat): Loop {
    Loop(at, at + c.pollInterval, [], true)
  }

  /** The loop can wake up like this. */
  predicate Wakes(l: Loop, look: Look) {
    look.at >= l.now && (look.exit || !look.pending.Empty? || look.at >= l.due)
  }

  function Iterate(c: Config, l: Loop, look: Look): Loop {
    if look.exit || look.pending.Disconnected? then l.(running := false)
    else if look.pending.Token? then
      Loop(look.at + look.pollTime + c.minBetween,
           look.at + look.pollTime + c.pollInterval + look.late,
           l.polls + [Poll(look.at, Notified)], true)
    else
      Loop(look.at + look.pollTime,
           look.at + c.pollInterval + look.late,
           l.polls + [Poll(look.at, Scheduled)], true)
  }

  function Run(c: Config, l: Loop, looks: seq<Look>): Loop
    decreases |looks|
  {
    if looks == [] then l
    else
      var before := Run(c, l, looks[..|looks| - 1]);
      if before.running then Iterate(c, before, looks[|looks| - 1]) else before
  }

  /** Every look is one that the loop can have at that point. */
  predicate Observed(c: Config, l: Loop, looks: seq<Look>)
    decreases |looks|
  {
    looks == [] || (
      var before := Run(c, l, looks[..|looks| - 1]);
      Observed(c, l, looks[..|looks| - 1]) && (before.running ==> Wakes(before, looks[|looks| - 1])))
  }

  /** The loop ends at this look. */
  predicate Ends(look: Look) {
    look.exit || look.pending.Disconnected?
  }

  /** One poll for each look, in order, up to the first that ends the loop. */
  ghost predicate PollsFor(looks: seq<Look>, polls: seq<Poll>) {
    && |polls| <= |looks|
    && (forall k :: 0 <= k < |polls| ==>
          && !looks[k].exit && !looks[k].pending.Disconnected?
          && polls[k].at == looks[k].at
          && (polls[k].kind == if looks[k].pending.Token? then Notified else Scheduled))
    && (|polls| < |looks| ==> looks[|polls|].exit || looks[|polls|].pending.Disconnected?)
  }

  /** The thread itself. */
  method PollingTask(c: Config, spawnedAt: nat, looks: seq<Look>) returns (polls: seq<Poll>, stopped: bool)
    requires Observed(c, Spawned(c, spawnedAt), looks)
    ensures PollsFor(looks, polls) && (stopped <==> |polls| < |looks|)
    ensures polls == Run(c, Spawned(c, spawnedAt), looks).polls
    ensures stopped <==> exists k :: 0 <= k < |looks| && (looks[k].exit || looks[k].pending.Disconnected?)
  {
    RunPollsFor(c, spawnedAt, looks);
    polls := [];
    stopped := false;
    var now: nat, ticker: nat := spawnedAt, spawnedAt + c.pollInterval;
    var i := 0;
    while i < |looks|
      invariant 0 <= i <= |looks|
      invariant !stopped
      invariant Run(c, Spawned(c, spawnedAt), looks[..i]) == Loop(now, ticker, polls, true)
      invariant forall k :: 0 <= k < i ==> !looks[k].exit && !looks[k].pending.Disconnected?
    {
      var look := looks[i];
      assert looks[..i + 1][..i] == looks[..i];
      if look.exit {
        StaysStopped(c, Spawned(c, spawnedAt), looks, i + 1);
        stopped := true;
        break;
      }
      if look.pending.Disconnected? {
        StaysStopped(c, Spawned(c, spawnedAt), looks, i + 1);
        stopped := true;
        break;
      }
      if look.pending.Token? {
        polls := polls + [Poll(look.at, Notified)];
        now := look.at + look.pollTime;
        ticker := now + c.pollInterval + look.late;
        now := now + c.minBetween;
      } else {
        polls := polls + [Poll(look.at, Scheduled)];
        ticker := look.at + c.pollInterval + look.late;
        now := look.at + look.pollTime;
      }
      i := i + 1;
    }
    if !stopped {
      assert looks[..i] == looks;
    }
  }

  lemma {:induction false} StaysStopped(c: Config, l: Loop, looks: seq<Look>, n: nat)
    requires n <= |looks| && !Run(c, l, looks[..n]).running
    ensures Run(c, l, looks) == Run(c, l, looks[..n])
    decreases |looks|
  {
    if n < |looks| {
      assert looks[..|looks| - 1][..n] == looks[..n];
      StaysStopped(c, l, looks[..|looks| - 1], n);
    } else {
      assert looks[..n] == looks;
    }
  }

  /** The run of the specification makes the same polls. */
  lemma {:induction false} RunPollsFor(c: Config, at: nat, looks: seq<Look>)
    ensures var l := Run(c, Spawned(c, at), looks);
      PollsFor(looks, l.polls) && (l.running <==> |l.polls| == |looks|)
    decreases |looks|
  {
    if looks != [] {
      RunPollsFor(c, at, looks[..|looks| - 1]);
    }
  }

  lemma {:induction false} ObservedBefore(c: Config, l: Loop, looks: seq<Look>, k: nat)
    requires Observed(c, l, looks) && k < |looks| && Run(c, l, looks[..k]).running
    ensures Wakes(Run(c, l, looks[..k]), looks[k])
    decreases |looks|
  {
    if k + 1 < |looks| {
      assert looks[..|looks| - 1][..k] == looks[..k];
      ObservedBefore(c, l, looks[..|looks| - 1], k);
    }
  }

  // ----- Polls are in time -----

  /** Where the loop stands after the looks. */
  lemma {:induction false} AfterLastPoll(c: Config, at: nat, looks: seq<Look>)
    requires looks != [] && Run(c, Spawned(c, at), looks).running
    ensures Run(c, Spawned(c, at), looks).now ==
      looks[|looks| - 1].at + looks[|looks| - 1].pollTime
        + if looks[|looks| - 1].pending.Token? then c.minBetween else 0
    ensures Run(c, Spawned(c, at), looks).due ==
      looks[|looks| - 1].at + (if looks[|looks| - 1].pending.Token? then looks[|looks| - 1].pollTime else 0)
        + c.pollInterval + looks[|looks| - 1].late
  {
  }

  /** The loop looks as soon as it is free and the ticker has fired, or earlier. */
  ghost predicate Prompt(c: Config, at: nat, looks: seq<Look>, k: nat)
    requires k < |looks|
  {
    var l := Run(c, Spawned(c, at), looks[..k]);
    l.running ==> looks[k].at <= Max(l.now, l.due)
  }

  /** No status report is late: after a notified poll the next poll comes within one
      interval of its end (or the rest, if that is longer), after a scheduled one
      within one interval of its beginning, or at its end if it took longer than
      that; each plus the lateness of the ticker. A loop that still runs makes
      that poll at its next look, if that is not the end. */
  lemma {:induction false} NextPollIsInTime(c: Config, at: nat, looks: seq<Look>, k: nat)
    requires k + 1 < |looks| && Prompt(c, at, looks, k + 1)
    requires forall j :: 0 <= j <= k ==> !Ends(looks[j])
    ensures var look := looks[k];
      looks[k + 1].at <=
        if look.pending.Token? then look.at + look.pollTime + Max(c.minBetween, c.pollInterval + look.late)
        else look.at + Max(look.pollTime, c.pollInterval + look.late)
    ensures !Ends(looks[k + 1]) ==>
      |Run(c, Spawned(c, at), looks).polls| > k + 1 && Run(c, Spawned(c, at), looks).polls[k + 1].at == looks[k + 1].at
  {
    RunPollsFor(c, at, looks[..k + 1]);
    AfterLastPoll(c, at, looks[..k + 1]);
    RunPollsFor(c, at, looks);
  }

  /** The first poll comes within one interval, a scheduled one not before that. */
  lemma {:induction false} FirstPollIsInTime(c: Config, at: nat, looks: seq<Look>)
    requires looks != [] && Observed(c, Spawned(c, at), looks) && Prompt(c, at, looks, 0)
    ensures at <= looks[0].at <= at + c.pollInterval
    ensures looks[0].pending.Empty? && !looks[0].exit ==> looks[0].at == at + c.pollInterval
  {
    assert looks[..0] == [];
    ObservedBefore(c, Spawned(c, at), looks, 0);
  }

  /** With the default configuration a scheduled report is made every thirty seconds,
      give or take the lateness of the ticker and a poll that takes longer. */
  lemma {:induction false} DefaultIsThirtySeconds(at: nat, looks: seq<Look>, k: nat)
    requires k + 1 < |looks| && Prompt(DEFAULT_CONFIG, at, looks, k + 1)
    requires Observed(DEFAULT_CONFIG, Spawned(DEFAULT_CONFIG, at), looks)
    requires forall j :: 0 <= j <= k + 1 ==> looks[j].pending.Empty? && !looks[j].exit
    requires looks[k].pollTime <= 30_000_000_000 + looks[k].late
    ensures looks[k + 1].at == looks[k].at + 30_000_000_000 + looks[k].late
  {
    NextPollIsInTime(DEFAULT_CONFIG, at, looks, k);
    RunPollsFor(DEFAULT_CONFIG, at, looks[..k + 1]);
    AfterLastPoll(DEFAULT_CONFIG, at, looks[..k + 1]);
    ObservedBefore(DEFAULT_CONFIG, Spawned(DEFAULT_CONFIG, at), looks, k + 1);
  }

  // ----- Distances between polls -----

  ghost predicate Spaced(c: Config, polls: seq<Poll>) {
    && (forall i, j :: 0 <= i < j < |polls| && polls[i].kind.Notified? ==> polls[j].at >= polls[i].at + c.minBetween)
    && (forall i, j :: 0 <= i < j < |polls| && polls[j].kind.Scheduled? ==> polls[j].at >= polls[i].at + c.pollInterval)
  }

  ghost predicate Timely(c: Config, l: Loop) {
    && Spaced(c, l.polls)
    && (forall i :: 0 <= i < |l.polls| && l.polls[i].kind.Notified? ==> l.now >= l.polls[i].at + c.minBetween)
    && (forall i :: 0 <= i < |l.polls| ==> l.now >= l.polls[i].at && l.due >= l.polls[i].at + c.pollInterval)
  }

  lemma OneMoreIsSpaced(c: Config, polls: seq<Poll>, p: Poll)
    requires Spaced(c, polls)
    requires forall i :: 0 <= i < |polls| && polls[i].kind.Notified? ==> p.at >= polls[i].at + c.minBetween
    requires p.kind.Scheduled? ==> forall i :: 0 <= i < |polls| ==> p.at >= polls[i].at + c.pollInterval
    ensures Spaced(c, polls + [p])
  {
  }

  lemma IterateKeepsTimely(c: Config, l: Loop, look: Look)
    requires Timely(c, l) && Wakes(l, look)
    ensures Timely(c, Iterate(c, l, look))
  {
    if !Ends(look) {
      OneMoreIsSpaced(c, l.polls, Poll(look.at, if look.pending.Token? then Notified else Scheduled));
    }
  }

  lemma {:induction false} RunIsTimely(c: Config, at: nat, looks: seq<Look>)
    requires Observed(c, Spawned(c, at), looks)
    ensures Timely(c, Run(c, Spawned(c, at), looks))
    decreases |looks|
  {
    if looks != [] {
      var before := Run(c, Spawned(c, at), looks[..|looks| - 1]);
      RunIsTimely(c, at, looks[..|looks| - 1]);
      if before.running {
        IterateKeepsTimely(c, before, looks[|looks| - 1]);
      }
    }
  }

  /** The polls of some run of the loop. */
  ghost predicate Polled(c: Config, polls: seq<Poll>) {
    exists at: nat, looks :: Observed(c, Spawned(c, at), looks) && polls == Run(c, Spawned(c, at), looks).polls
  }

  lemma PolledIsSpaced(c: Config, polls: seq<Poll>)
    requires Polled(c, polls)
    ensures Spaced(c, polls)
  {
    var at: nat, looks :| Observed(c, Spawned(c, at), looks) && polls == Run(c, Spawned(c, at), looks).polls;
    RunIsTimely(c, at, looks);
  }

  /** A scheduled status report is sent only after a whole interval without any
      poll, and after a notified poll the loop rests before the next one. */
  lemma PollDistances(c: Config, polls: seq<Poll>, i: nat, j: nat)
    requires Polled(c, polls) && i < j < |polls|
    ensures polls[j].kind.Scheduled? ==> polls[j].at >= polls[i].at + c.pollInterval
    ensures polls[i].kind.Notified? ==> polls[j].at >= polls[i].at + c.minBetween
  {
    PolledIsSpaced(c, polls);
  }

  // ----- Rate -----

  /** The polls of one kind from `from` to `from + width`, both included. */
  function CountIn(polls: seq<Poll>, kind: Kind, from: nat, width: nat): nat {
    if polls == [] then 0
    else
      var last := polls[|polls| - 1];
      CountIn(polls[..|polls| - 1], kind, from, width)
        + if last.kind == kind && from <= last.at <= from + width then 1 else 0
  }

  /** The `k`-th poll counted is at least `k - 1` gaps after the window's start. */
  lemma {:induction false} LastCounted(polls: seq<Poll>, kind: Kind, gap: nat, from: nat, width: nat) returns (i: int)
    requires Apart(polls, kind, gap)
    ensures var count := CountIn(polls, kind, from, width);
      count > 0 ==> 0 <= i < |polls| && polls[i].kind == kind && polls[i].at <= from + width
                    && polls[i].at >= from + Times(count - 1, gap)
    decreases |polls|
  {
    i := -1;
    if polls != [] {
      var init, last := polls[..|polls| - 1], polls[|polls| - 1];
      assert Apart(init, kind, gap);
      i := LastCounted(init, kind, gap, from, width);
      if last.kind == kind && from <= last.at <= from + width {
        i := |polls| - 1;
      }
    }
  }

  ghost predicate Apart(polls: seq<Poll>, kind: Kind, gap: nat) {
    forall i, j :: 0 <= i < j < |polls| && polls[i].kind == kind && polls[j].kind == kind ==>
      polls[j].at >= polls[i].at + gap
  }

  function Times(k: nat, gap: nat): nat {
    if k == 0 then 0 else Times(k - 1, gap) + gap
  }

  lemma {:induction false} TimesIsProduct(k: nat, gap: nat)
    ensures Times(k, gap) == k * gap
  {
    if k > 0 {
      TimesIsProduct(k - 1, gap);
    }
  }

  lemma ProductIsMonotone(a: nat, b: nat, gap: nat)
    requires a <= b
    ensures a * gap <= b * gap
  {
  }

  lemma ProductFits(k: nat, gap: nat, width: nat)
    requires gap > 0 && k * gap <= width
    ensures k <= width / gap
  {
    var q := width / gap;
    assert width < q * gap + gap;
    assert (q + 1) * gap == q * gap + gap;
    if q + 1 <= k {
      ProductIsMonotone(q + 1, k, gap);
    }
  }

  lemma {:induction false} BoundFromGaps(polls: seq<Poll>, kind: Kind, gap: nat, from: nat, width: nat)
    requires gap > 0 && Apart(polls, kind, gap)
    ensures CountIn(polls, kind, from, width) <= width / gap + 1
  {
    var i := LastCounted(polls, kind, gap, from, width);
    var count := CountIn(polls, kind, from, width);
    if count > 0 {
      TimesIsProduct(count - 1, gap);
      ProductFits(count - 1, gap, width);
    }
  }

  /** In every run and every window of time, both ends included. */
  lemma {:induction false} RateBound(c: Config, polls: seq<Poll>, from: nat, width: nat)
    requires c.minBetween > 0 && c.pollInterval > 0 && Polled(c, polls)
    ensures CountIn(polls, Notified, from, width) <= width / c.minBetween + 1
    ensures CountIn(polls, Scheduled, from, width) <= width / c.pollInterval + 1
  {
    PolledIsSpaced(c, polls);
    BoundFromGaps(polls, Notified, c.minBetween, from, width);
    BoundFromGaps(polls, Scheduled, c.pollInterval, from, width);
  }

  /** With the default configuration: a notified poll every five seconds, a
      scheduled one every thirty. */
  lemma {:induction false} DefaultRate(polls: seq<Poll>, from: nat, width: nat)
    requires Polled(DEFAULT_CONFIG, polls)
    ensures CountIn(polls, Notified, from, width) <= width / 5_000_000_000 + 1
    ensures CountIn(polls, Scheduled, from, width) <= width / 30_000_000_000 + 1
  {
    RateBound(DEFAULT_CONFIG, polls, from, width);
  }

  /** With a requested interval, whatever it is: a notified poll every second, or
      every five if more than that was requested; a scheduled one every second,
      or every requested interval if that is more. */
  lemma {:induction false} RequestedRate(requested: nat, polls: seq<Poll>, from: nat, width: nat)
    requires Polled(WithInterval(requested), polls)
    ensures CountIn(polls, Notified, from, width)
              <= width / (if requested > 5_000_000_000 then 5_000_000_000 else 1_000_000_000) + 1
    ensures CountIn(polls, Scheduled, from, width) <= width / Max(requested, 1_000_000_000) + 1
  {
    RateBound(WithInterval(requested), polls, from, width);
  }

  // ----- Exit -----

  /** If the exit channel is ready from `signal` on, no poll is selected at that
      time or later, whatever else is pending, and the first look from then on
      ends the loop. */
  lemma {:induction false} ExitEndsPolling(c: Config, at: nat, looks: seq<Look>, signal: nat)
    requires forall k :: 0 <= k < |looks| ==> (looks[k].exit <==> looks[k].at >= signal)
    ensures var l := Run(c, Spawned(c, at), looks);
      && (forall i :: 0 <= i < |l.polls| ==> l.polls[i].at < signal)
      && (l.running ==> forall k :: 0 <= k < |looks| ==> looks[k].at < signal)
    decreases |looks|
  {
    if looks != [] {
      ExitEndsPolling(c, at, looks[..|looks| - 1], signal);
    }
  }

  /** The loop is never busy or resting for longer than one poll and one rest after
      the last look. */
  lemma {:induction false} FreeBy(c: Config, at: nat, looks: seq<Look>, signal: nat, longest: nat)
    requires at <= signal
    requires forall k :: 0 <= k < |looks| ==> looks[k].at < signal && looks[k].pollTime <= longest
    ensures Run(c, Spawned(c, at), looks).now <= signal + longest + c.minBetween
    decreases |looks|
  {
    if looks != [] {
      FreeBy(c, at, looks[..|looks| - 1], signal, longest);
    }
  }

  /** How long `stop` waits: the loop ends with the first look from the signal on,
      which comes as soon as the loop has been signalled and is free, and that
      is at most the longest poll and one rest after the signal. */
  lemma {:induction false} StopLatency(c: Config, at: nat, looks: seq<Look>, k: nat, signal: nat, longest: nat)
    requires Observed(c, Spawned(c, at), looks) && at <= signal && k < |looks|
    requires forall j :: 0 <= j < |looks| ==> (looks[j].exit <==> looks[j].at >= signal) && looks[j].pollTime <= longest
    requires Run(c, Spawned(c, at), looks[..k]).running && looks[k].exit
    requires looks[k].at <= Max(Run(c, Spawned(c, at), looks[..k]).now, signal)
    ensures !Run(c, Spawned(c, at), looks[..k + 1]).running
    ensures looks[k].at == Max(Run(c, Spawned(c, at), looks[..k]).now, signal)
    ensures looks[k].at <= signal + longest + c.minBetween
  {
    ObservedBefore(c, Spawned(c, at), looks, k);
    ExitEndsPolling(c, at, looks[..k], signal);
    FreeBy(c, at, looks[..k], signal, longest);
    assert looks[..k + 1][..k] == looks[..k];
  }
}
