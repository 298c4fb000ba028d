/** The token cache object (src/auth/token-cache.ts:13-111). An async method is one method up to
    its await and one for each continuation. */
module TokenCache {
  import opened Options
  import opened TokenCacheModel

  /** What getToken answers: the cached token, or the provider call to wait for. */
  datatype Answer = Cached(token: string) | Awaiting(call: nat)

  class TokenCache {
    var cached: Option<CachedToken>
    var pending: Option<nat>
    var refreshTimer: Option<nat>
    ghost var inFlight: set<nat>
    ghost var settling: set<nat>
    ghost var liveTimers: set<nat>
    var calls: nat
    var timers: nat

    ghost function View(): State
      reads this
    {
      State(cached, pending, refreshTimer, inFlight, settling, liveTimers, calls, timers)
    }

    constructor ()
      ensures View() == OPENED
    {
      cached, pending, refreshTimer := None, None, None;
      inFlight, settling, liveTimers := {}, {}, {};
      calls, timers := 0, 0;
    }

    method GetToken(now: int) returns (answer: Answer)
      modifies this
      ensures View() == Step(old(View()), Event.GetToken(now))
      ensures answer.Cached? <==>
              old(cached).Some? && (old(cached).value.expiresAt.None? || now < old(cached).value.expiresAt.value)
      ensures answer.Cached? ==> old(cached) == cached && cached.value.token == answer.token
      ensures answer.Awaiting? ==> pending == Some(answer.call)
      ensures old(pending).Some? ==> pending == old(pending) && calls == old(calls)
    {
      if cached.Some? && !Expired(cached.value, now) {
        return Cached(cached.value.token);
      }
      var call := FetchToken();
      return Awaiting(call);
    }

    method LastKnownToken(now: int) returns (token: Option<string>)
      ensures token.Some? <==> cached.Some? && (cached.value.expiresAt.None? || now < cached.value.expiresAt.value)
      ensures token.Some? ==> token.value == cached.value.token
    {
      if cached.Some? && !Expired(cached.value, now) {
        return Some(cached.value.token);
      }
      return None;
    }

    method Invalidate()
      modifies this
      ensures View() == Step(old(View()), Event.Invalidate)
    {
      cached := None;
      CancelRefreshTimer();
    }

    method Dispose()
      modifies this
      ensures View() == Step(old(View()), Event.Dispose)
    {
      CancelRefreshTimer();
      cached := None;
      pending := None;
    }

    /** Shares the pending call, or starts one. */
    method FetchToken() returns (call: nat)
      modifies this`pending, this`inFlight, this`calls
      ensures View() == Fetch(old(View()))
      ensures pending == Some(call)
    {
      if pending.Some? {
        return pending.value;
      }
      pending := Some(calls);
      inFlight := inFlight + {calls};
      calls := calls + 1;
      return pending.value;
    }

    method CancelRefreshTimer()
      modifies this`refreshTimer, this`liveTimers
      ensures View() == CancelTimer(old(View()))
    {
      if refreshTimer.Some? {
        liveTimers := liveTimers - {refreshTimer.value};
        refreshTimer := None;
      }
    }

    method TriggerProactiveRefresh()
      modifies this
      ensures View() == Refresh(old(View()))
    {
      cached := None;
      refreshTimer := None;
      var _ := FetchToken();
    }

    method ScheduleProactiveRefresh(expiresAt: int, now: int)
      modifies this
      ensures View() == Schedule(old(View()), expiresAt, now)
    {
      CancelRefreshTimer();
      var refreshAt := expiresAt - PROACTIVE_REFRESH_MARGIN_MS;
      var delayMs := refreshAt - now;
      if delayMs <= 0 {
        TriggerProactiveRefresh();
        return;
      }
      refreshTimer := Some(timers);
      liveTimers := liveTimers + {timers};
      timers := timers + 1;
    }

    /** The continuation of doFetch when the provider answers. */
    method OnProviderResolves(call: nat, token: CachedToken, now: int)
      requires call in inFlight
      modifies this
      ensures View() == Step(old(View()), ProviderResolves(call, token, now))
    {
      inFlight, settling := inFlight - {call}, settling + {call};
      cached := Some(token);
      if token.expiresAt.Some? {
        ScheduleProactiveRefresh(token.expiresAt.value, now);
      }
    }

    /** The continuation of doFetch when the provider fails. */
    method OnProviderRejects(call: nat)
      requires call in inFlight
      modifies this
      ensures View() == Step(old(View()), ProviderRejects(call))
    {
      inFlight, settling := inFlight - {call}, settling + {call};
    }

    /** The finally block of the fetch that started `call`. */
    method OnInitiatorResumes(call: nat)
      requires call in settling
      modifies this
      ensures View() == Step(old(View()), InitiatorResumes(call))
    {
      settling := settling - {call};
      pending := None;
    }

    method OnTimer(timer: nat)
      requires timer in liveTimers
      modifies this
      ensures View() == Step(old(View()), TimerFires(timer))
    {
      liveTimers := liveTimers - {timer};
      TriggerProactiveRefresh();
    }
  }
}
