/** src/auth/token-cache.ts as a state and one step per call, timer and promise continuation. */
module TokenCacheModel {
  import opened Options
  import opened Runs

  const PROACTIVE_REFRESH_MARGIN_MS: int := 30_000

  datatype CachedToken = CachedToken(token: string, expiresAt: Option<int>)

  /** Provider calls and timers are numbered. `inFlight` holds the calls the provider has not
      answered, `settling` those answered whose initiator has not resumed, `liveTimers` the
      armed timeouts. */
  datatype State = State(
    cached: Option<CachedToken>,
    pending: Option<nat>,
    refreshTimer: Option<nat>,
    inFlight: set<nat>,
    settling: set<nat>,
    liveTimers: set<nat>,
    calls: nat,
    timers: nat)

  /** `now` is the millisecond clock. */
  datatype Event =
    | GetToken(now: int)
    | Invalidate
    | Dispose
    | TimerFires(timer: nat)
    | ProviderResolves(call: nat, token: CachedToken, now: int)
    | ProviderRejects(call: nat)
    | InitiatorResumes(call: nat)

  const OPENED := State(None, None, None, {}, {}, {}, 0, 0)

  predicate Expired(c: CachedToken, now: int) {
    c.expiresAt.Some? && now >= c.expiresAt.value
  }

  /** Is this state's cached token served without a fetch? */
  predicate Hit(s: State, now: int) {
    s.cached.Some? && !Expired(s.cached.value, now)
  }

  function CancelTimer(s: State): State {
    if s.refreshTimer.None? then s
    else s.(liveTimers := s.liveTimers - {s.refreshTimer.value}, refreshTimer := None)
  }

  function Fetch(s: State): State {
    if s.pending.Some? then s
    else s.(pending := Some(s.calls), inFlight := s.inFlight + {s.calls}, calls := s.calls + 1)
  }

  function Refresh(s: State): State {
    Fetch(s.(cached := None, refreshTimer := None))
  }

  function Schedule(s: State, expiresAt: int, now: int): State {
    var idle := CancelTimer(s);
    if expiresAt - PROACTIVE_REFRESH_MARGIN_MS - now <= 0 then Refresh(idle)
    else idle.(refreshTimer := Some(s.timers), liveTimers := idle.liveTimers + {s.timers}, timers := s.timers + 1)
  }

  function Answered(s: State, call: nat): State {
    s.(inFlight := s.inFlight - {call}, settling := s.settling + {call})
  }

  function Step(s: State, e: Event): State {
    match e
    case GetToken(now) => if Hit(s, now) then s else Fetch(s)
    case Invalidate => CancelTimer(s.(cached := None))
    case Dispose => CancelTimer(s).(cached := None, pending := None)
    case TimerFires(t) => if t in s.liveTimers then Refresh(s.(liveTimers := s.liveTimers - {t})) else s
    case ProviderResolves(call, token, now) =>
      if call !in s.inFlight then s
      else
        var stored := Answered(s, call).(cached := Some(token));
        if token.expiresAt.Some? then Schedule(stored, token.expiresAt.value, now) else stored
    case ProviderRejects(call) => if call in s.inFlight then Answered(s, call) else s
    case InitiatorResumes(call) =>
      if call in s.settling then s.(settling := s.settling - {call}, pending := None) else s
  }

  function Run(events: seq<Event>): State {
    if events == [] then OPENED else Step(Run(events[..|events| - 1]), events[|events| - 1])
  }

  function AsSet(slot: Option<nat>): set<nat> {
    if slot.None? then {} else {slot.value}
  }

  /** The pending slot holds the one call that is running or settling, the timer slot the one
      live timer, and a timer runs only for a cached token. */
  ghost predicate SingleFlight(s: State) {
    && s.inFlight + s.settling == AsSet(s.pending) && s.inFlight !! s.settling
    && s.liveTimers == AsSet(s.refreshTimer)
    && (s.refreshTimer.Some? ==> s.cached.Some?)
    && (forall c | c in AsSet(s.pending) :: c < s.calls)
    && (forall t | t in s.liveTimers :: t < s.timers)
  }

  /** dispose may forget a call that still runs; nothing else may. */
  predicate KeepsFlight(s: State, e: Event) {
    e.Dispose? ==> s.pending.None?
  }

  lemma StepSingleFlightExactly(s: State, e: Event)
    requires SingleFlight(s)
    ensures SingleFlight(Step(s, e)) <==> KeepsFlight(s, e)
  {
    match e
    case ProviderResolves(call, token, now) =>
      if call in s.inFlight {
        assert s.inFlight == {call};
        assert CancelTimer(s).liveTimers == {};
      }
    case TimerFires(t) =>
      if t in s.liveTimers {
        assert s.liveTimers - {t} == {};
      }
    case Dispose =>
      if s.pending.Some? {
        assert s.pending.value in s.inFlight + s.settling;
      }
    case _ =>
  }

  lemma RunStep(events: seq<Event>, k: nat)
    requires k < |events|
    ensures Run(events[..k + 1]) == Step(Run(events[..k]), events[k])
  {
    assert events[..k + 1][..k] == events[..k];
  }

  lemma AtStart()
    ensures SingleFlight(Run([]))
  {
  }

  /** Over whole runs, dispose included: single flight at every moment, exactly when dispose
      comes only while no fetch is pending. */
  lemma SingleFlightThroughoutExactly(events: seq<Event>)
    ensures (forall k: nat | k <= |events| :: SingleFlight(Run(events[..k]))) <==>
            (forall k: nat | k < |events| :: KeepsFlight(Run(events[..k]), events[k]))
    ensures (forall k: nat | k < |events| :: KeepsFlight(Run(events[..k]), events[k])) ==>
            SingleFlight(Run(events))
  {
    hide Run, Step, SingleFlight, KeepsFlight;
    var n := |events|;
    AtStart();
    assert events[..0] == [] && events[..n] == events;
    var good := (k: nat) => k <= n && SingleFlight(Run(events[..k]));
    var keeps := (k: nat) => k < n && KeepsFlight(Run(events[..k]), events[k]);
    forall k: nat | k < n && good(k) ensures good(k + 1) <==> keeps(k) {
      RunStep(events, k);
      StepSingleFlightExactly(Run(events[..k]), events[k]);
    }
    ThroughoutExactly(n, good, good, keeps);
    forall k: nat | k <= n ensures good(k) <==> SingleFlight(Run(events[..k])) {}
    forall k: nat | k < n ensures keeps(k) <==> KeepsFlight(Run(events[..k]), events[k]) {}
  }

  /** In every interleaving without dispose: at most one provider call in flight, at most one live
      timer and then a cached token, and an initiator that resumes clears its own slot only. */
  lemma SingleFlightAlways(events: seq<Event>)
    requires forall k :: 0 <= k < |events| ==> !events[k].Dispose?
    ensures var s := Run(events);
            && SingleFlight(s) && |s.inFlight| <= 1 && |s.liveTimers| <= 1
            && (s.liveTimers != {} ==> s.cached.Some?)
            && (forall call | call in s.settling :: s.pending == Some(call) && s.inFlight == {})
  {
    hide Run, SingleFlight;
    SingleFlightThroughoutExactly(events);
    SingleFlightCounts(Run(events));
  }

  lemma SingleFlightCounts(s: State)
    requires SingleFlight(s)
    ensures |s.inFlight| <= 1 && |s.liveTimers| <= 1 && (s.liveTimers != {} ==> s.cached.Some?)
    ensures forall call | call in s.settling :: s.pending == Some(call) && s.inFlight == {}
  {
    if s.inFlight != {} {
      var call :| call in s.inFlight;
      assert s.inFlight == {call};
    }
    forall call | call in s.settling ensures s.pending == Some(call) && s.inFlight == {} {
      assert call in AsSet(s.pending);
    }
  }

  /** A call of the provider starts only when none is running or settling. */
  lemma CallsStartAlone(s: State, e: Event)
    requires SingleFlight(s) && Step(s, e).calls > s.calls
    ensures s.pending.None? && s.inFlight == {} && s.settling == {}
    ensures Step(s, e).inFlight == {s.calls}
  {
  }

  /** After a dispose that forgets a call in flight, the next fetch is a second one. */
  lemma DisposeExactly(s: State, now: int)
    requires SingleFlight(s)
    ensures SingleFlight(Step(s, Dispose)) <==> s.pending.None?
    ensures |Step(Step(s, Dispose), GetToken(now)).inFlight| == if s.inFlight != {} then 2 else 1
  {
    var next := Step(Step(s, Dispose), GetToken(now));
    StepSingleFlightExactly(s, Dispose);
    if s.inFlight != {} {
      var call :| call in s.inFlight;
      assert call in AsSet(s.pending);
      assert s.inFlight == {call};
      assert next.inFlight == {call, s.calls};
    } else {
      assert next.inFlight == {s.calls};
    }
  }

  /** A token is kept only if it outlives the refresh margin. */
  lemma KeptTokensOutliveMargin(s: State, call: nat, token: CachedToken, now: int)
    requires SingleFlight(s) && call in s.inFlight
    ensures var t := Step(s, ProviderResolves(call, token, now));
            t.cached.Some? <==> token.expiresAt.None? || token.expiresAt.value - now > 30_000
  {
  }

  function RunFrom(s: State, events: seq<Event>): State
    decreases |events|
  {
    if events == [] then s else RunFrom(Step(s, events[0]), events[1..])
  }

  /** After invalidate no call is answered from the cache until some provider call resolves,
      whatever else happens in between; one already in flight will do. */
  lemma {:induction false} NothingServedUntilResolved(s: State, events: seq<Event>, now: int)
    requires forall k :: 0 <= k < |events| ==> !events[k].ProviderResolves?
    ensures !Hit(RunFrom(Step(s, Invalidate), events), now)
  {
    EmptyStaysEmpty(Step(s, Invalidate), events);
  }

  lemma {:induction false} EmptyStaysEmpty(s: State, events: seq<Event>)
    requires s.cached.None? && forall k :: 0 <= k < |events| ==> !events[k].ProviderResolves?
    ensures RunFrom(s, events).cached.None?
    decreases |events|
  {
    if events != [] {
      EmptyStaysEmpty(Step(s, events[0]), events[1..]);
    }
  }
}
