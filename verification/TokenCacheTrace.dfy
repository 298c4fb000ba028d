/** Which token the cache holds, and when calls and timers start, read off the events. */
module TokenCacheTrace {
  import opened Options
  import opened TokenCacheModel

  /** The token of the last provider call answered, if it has no expiry or outlives the 30 seconds
      of the refresh margin, until invalidate, dispose or a refresh. */
  function Kept(events: seq<Event>): Option<CachedToken> {
    if events == [] then None
    else
      var before, e := events[..|events| - 1], events[|events| - 1];
      var s := Run(before);
      match e
      case ProviderResolves(call, token, now) =>
        if call !in s.inFlight then Kept(before)
        else if token.expiresAt.None? || token.expiresAt.value - now > 30_000 then Some(token)
        else None
      case Invalidate | Dispose => None
      case TimerFires(t) => if t in s.liveTimers then None else Kept(before)
      case _ => Kept(before)
  }

  lemma CachedNext(s: State, e: Event)
    ensures Step(s, e).cached ==
            match e
            case ProviderResolves(call, token, now) =>
              if call !in s.inFlight then s.cached
              else if token.expiresAt.None? || token.expiresAt.value - now > 30_000 then Some(token)
              else None
            case Invalidate | Dispose => None
            case TimerFires(t) => if t in s.liveTimers then None else s.cached
            case _ => s.cached
  {
  }

  /** Over every run the cache holds the provider's own last token and no other. */
  lemma {:induction false} CachedExactly(events: seq<Event>)
    ensures Run(events).cached == Kept(events)
  {
    if events != [] {
      hide Step;
      CachedExactly(events[..|events| - 1]);
      CachedNext(Run(events[..|events| - 1]), events[|events| - 1]);
    }
  }

  /** A token that expires is never held without a live refresh timer. */
  predicate RefreshArmed(s: State) {
    s.cached.Some? && s.cached.value.expiresAt.Some? ==>
      s.refreshTimer.Some? && s.refreshTimer.value in s.liveTimers
  }

  lemma StepRefreshArmed(s: State, e: Event)
    requires RefreshArmed(s)
    ensures RefreshArmed(Step(s, e))
  {
  }

  lemma {:induction false} RefreshAlwaysArmed(events: seq<Event>)
    ensures RefreshArmed(Run(events))
  {
    if events != [] {
      hide Step, RefreshArmed;
      RefreshAlwaysArmed(events[..|events| - 1]);
      StepRefreshArmed(Run(events[..|events| - 1]), events[|events| - 1]);
    } else {
      NothingToRefresh();
    }
  }

  lemma NothingToRefresh()
    ensures RefreshArmed(OPENED)
  {
  }

  /** Does the cache serve at `now`: a token that has no expiry, or one later than `now`? */
  predicate Serves(s: State, now: int) {
    s.cached.Some? && (s.cached.value.expiresAt.None? || now < s.cached.value.expiresAt.value)
  }

  /** A provider call starts exactly when none is pending and a request finds nothing to serve or a
      live timer fires; it is in flight and pending then. */
  lemma CallsStartExactly(s: State, e: Event)
    requires SingleFlight(s)
    ensures var t := Step(s, e);
            var starts := s.pending.None? &&
                          ((e.GetToken? && !Serves(s, e.now)) || (e.TimerFires? && e.timer in s.liveTimers));
            && t.calls == s.calls + (if starts then 1 else 0)
            && (starts ==> t.pending == Some(s.calls) && t.inFlight == s.inFlight + {s.calls})
  {
    if e.ProviderResolves? && e.call in s.inFlight {
      assert e.call in AsSet(s.pending);
    }
  }

  /** An answered call settles, and its initiator frees the slot. */
  lemma CallsEndExactly(s: State, e: Event)
    requires SingleFlight(s)
    ensures e.ProviderRejects? && e.call in s.inFlight ==>
              Step(s, e) == s.(inFlight := {}, settling := {e.call})
    ensures e.ProviderResolves? && e.call in s.inFlight ==>
              Step(s, e).inFlight == {} && Step(s, e).settling == {e.call} && Step(s, e).pending == s.pending
    ensures e.InitiatorResumes? && e.call in s.settling ==>
              Step(s, e) == s.(settling := {}, pending := None)
  {
    if e.ProviderRejects? || e.ProviderResolves? || e.InitiatorResumes? {
      if e.call in s.inFlight + s.settling {
        assert e.call in AsSet(s.pending);
        assert s.inFlight + s.settling == {e.call};
        assert e.call in s.inFlight ==> s.inFlight == {e.call} && s.settling == {};
        assert e.call in s.settling ==> s.settling == {e.call} && s.inFlight == {};
      }
    }
  }
}
