/** Which calls make it into a message. */
module Compression {
  import opened Proto
  import opened Capabilities
  import opened Health
  import opened Status

  predicate SameKind(c: Setter, d: Setter) {
    match (c, d)
    case (SetAgentDescription(_), SetAgentDescription(_)) => true
    case (SetHealth(_), SetHealth(_)) => true
    case (UpdateEffectiveConfig(_), UpdateEffectiveConfig(_)) => true
    case (SetRemoteConfigStatus(_), SetRemoteConfigStatus(_)) => true
    case (SetCustomCapabilities(_), SetCustomCapabilities(_)) => true
    case _ => false
  }

  /** The two calls report the same thing. An effective config is never compared. */
  predicate SameReport(c: Setter, d: Setter) {
    match (c, d)
    case (SetHealth(g), SetHealth(h)) => IsSameAs(g, h)
    case (UpdateEffectiveConfig(_), _) => false
    case _ => c == d
  }

  predicate Eligible(caps: Capabilities, c: Setter) {
    Refusal(caps, c).None? && !Malformed(c)
  }

  /** A call ends in an error exactly when a capability or the callback's answer is
      missing or a description has no attributes; then it changes nothing. */
  lemma ErrorIff(s: Client, c: Setter)
    requires Valid(s)
    ensures ReplyTo(s, c).Err? <==> !Eligible(s.capabilities, c)
    ensures ReplyTo(s, c).Err? ==> Call(s, c) == s
  {
  }

  /** The last call of the same kind as `e` that did not end in an error. */
  function Latest(caps: Capabilities, calls: seq<Setter>, e: Setter): Option<Setter> {
    if calls == [] then None
    else
      var last := calls[|calls| - 1];
      if SameKind(last, e) && Eligible(caps, last) then Some(last)
      else Latest(caps, calls[..|calls| - 1], e)
  }

  lemma CallRemembers(s: Client, c: Setter, e: Setter)
    ensures Call(s, c).capabilities == s.capabilities
    ensures SameKind(c, e) && Eligible(s.capabilities, c) ==>
      (Unchanged(Call(s, c).synced, e) <==> SameReport(c, e))
    ensures !(SameKind(c, e) && Eligible(s.capabilities, c)) ==>
      (Unchanged(Call(s, c).synced, e) <==> Unchanged(s.synced, e))
  {
    if c.SetHealth? && e.SetHealth? && s.synced.health.Some? {
      var was := s.synced.health.value;
      SameIsEquivalence(c.health, was, e.health);
      SameIsEquivalence(was, c.health, e.health);
    }
    match c { case _ => match e { case _ => } }
  }

  lemma {:induction false} StateRemembersLatest(s: Client, calls: seq<Setter>, e: Setter)
    ensures CallAll(s, calls).capabilities == s.capabilities
    ensures Unchanged(CallAll(s, calls).synced, e) <==>
      match Latest(s.capabilities, calls, e)
      case Some(d) => SameReport(d, e)
      case None => Unchanged(s.synced, e)
    decreases |calls|
  {
    if calls != [] {
      StateRemembersLatest(s, calls[..|calls| - 1], e);
      CallRemembers(CallAll(s, calls[..|calls| - 1]), calls[|calls| - 1], e);
    }
  }

  /** Compression drops consecutive repetitions and nothing else. In any sequence
      of calls of all kinds, a call enters the next message exactly when it is
      not an error and does not repeat the report of the latest call of its kind. */
  lemma {:induction false} AcceptedIffNotRepeated(s: Client, calls: seq<Setter>, k: nat)
    requires k < |calls|
    ensures Accepted(CallAll(s, calls[..k]), calls[k]) <==>
      && Eligible(s.capabilities, calls[k])
      && match Latest(s.capabilities, calls[..k], calls[k])
         case Some(d) => !SameReport(d, calls[k])
         case None => !Unchanged(s.synced, calls[k])
  {
    StateRemembersLatest(s, calls[..k], calls[k]);
  }

  /** Equal up to the status timestamps of a health report. */
  predicate Alike(c: Setter, d: Setter) {
    c == d || (c.SetHealth? && d.SetHealth? && IsSameAs(c.health, d.health))
  }

  lemma {:induction false} LatestOfEquivalents(caps: Capabilities, calls: seq<Setter>, others: seq<Setter>,
                                               e: Setter, f: Setter)
    requires |calls| == |others| && Alike(e, f)
    requires forall i :: 0 <= i < |calls| ==> Alike(calls[i], others[i])
    ensures match (Latest(caps, calls, e), Latest(caps, others, f))
      case (Some(c), Some(d)) => Alike(c, d)
      case (None, None) => true
      case _ => false
    decreases |calls|
  {
    if calls != [] {
      LatestOfEquivalents(caps, calls[..|calls| - 1], others[..|calls| - 1], e, f);
    }
  }

  lemma SameReportTransfers(a: Setter, b: Setter, c: Setter, d: Setter)
    requires Alike(a, b) && Alike(c, d)
    ensures SameReport(a, c) <==> SameReport(b, d)
  {
    if a.SetHealth? && c.SetHealth? {
      SameIffUntimedEqual(a.health, b.health);
      SameIffUntimedEqual(c.health, d.health);
      SameIffUntimedEqual(a.health, c.health);
      SameIffUntimedEqual(b.health, d.health);
    }
  }

  lemma UnchangedTransfers(synced: Data, c: Setter, d: Setter)
    requires Alike(c, d)
    ensures Unchanged(synced, c) <==> Unchanged(synced, d)
  {
    if c.SetHealth? && synced.health.Some? {
      SameIffUntimedEqual(c.health, d.health);
      SameIffUntimedEqual(synced.health.value, c.health);
      SameIffUntimedEqual(synced.health.value, d.health);
    }
  }

  /** The choice does not depend on status timestamps: two sequences that report
      the same things, call by call, have the same calls accepted. */
  lemma {:induction false} AcceptanceIgnoresTimestamps(s: Client, calls: seq<Setter>, others: seq<Setter>, k: nat)
    requires k < |calls| == |others|
    requires forall i :: 0 <= i < |calls| ==> Alike(calls[i], others[i])
    ensures Accepted(CallAll(s, calls[..k]), calls[k]) <==> Accepted(CallAll(s, others[..k]), others[k])
  {
    AcceptedIffNotRepeated(s, calls, k);
    AcceptedIffNotRepeated(s, others, k);
    LatestOfEquivalents(s.capabilities, calls[..k], others[..k], calls[k], others[k]);
    UnchangedTransfers(s.synced, calls[k], others[k]);
    var c, d := Latest(s.capabilities, calls[..k], calls[k]), Latest(s.capabilities, others[..k], others[k]);
    if c.Some? {
      SameReportTransfers(c.value, d.value, calls[k], others[k]);
    }
  }
}
