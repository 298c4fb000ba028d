/** burnin/src/rateLimiter.ts: a token bucket with a queue of waiters and one refill timer. */
module RateLimiterModel {

  /** `queue` holds waiter ids. The last five fields are the history: the calls not refused, the
      granted ones, who was ever queued, who left the queue by aborting, who was granted from it;
      all but `aborted` in order. */
  datatype State = State(
    rate: real,
    tokens: real,
    maxTokens: real,
    lastRefill: int,
    queue: seq<nat>,
    timer: bool,
    called: seq<nat>,
    granted: seq<nat>,
    enqueued: seq<nat>,
    aborted: set<nat>,
    served: seq<nat>)

  /** `now` is the millisecond clock. */
  datatype Event =
    | Wait(now: int, id: nat, signalAborted: bool)
    | Tick(now: int)
    | Abort(id: nat)

  function MaxReal(a: real, b: real): real {
    if a >= b then a else b
  }

  function MinReal(a: real, b: real): real {
    if a <= b then a else b
  }

  function Opened(rate: real, now: int): State {
    State(rate, MaxReal(rate, 1.0), MaxReal(rate, 1.0), now, [], false, [], [], [], {}, [])
  }

  /** What `rate` adds from one moment to another. */
  function Refilled(rate: real, since: int, now: int): real {
    (now - since) as real / 1000.0 * rate
  }

  function Refill(s: State, now: int): State {
    s.(tokens := MinReal(s.maxTokens, s.tokens + Refilled(s.rate, s.lastRefill, now)), lastRefill := now)
  }

  function Grant(s: State, id: nat): State {
    s.(tokens := s.tokens - 1.0, granted := s.granted + [id])
  }

  function Enqueue(s: State, id: nat): State {
    s.(queue := s.queue + [id], enqueued := s.enqueued + [id], timer := true)
  }

  /** The timer's drain loop. */
  function Drain(s: State): State
    decreases |s.queue|
  {
    if s.queue == [] || s.tokens < 1.0 then s
    else Drain(Grant(s, s.queue[0]).(queue := s.queue[1..], served := s.served + [s.queue[0]]))
  }

  function Without(s: seq<nat>, dropped: set<nat>): seq<nat> {
    if s == [] then []
    else Without(s[..|s| - 1], dropped) + if s[|s| - 1] in dropped then [] else [s[|s| - 1]]
  }

  function Step(s: State, e: Event): State {
    match e
    case Wait(now, id, signalAborted) =>
      if signalAborted then s
      else if s.rate <= 0.0 then s.(called := s.called + [id], granted := s.granted + [id])
      else
        var refilled := Refill(s, now);
        var answered := if refilled.tokens >= 1.0 then Grant(refilled, id) else Enqueue(refilled, id);
        answered.(called := s.called + [id])
    case Tick(now) =>
      if !s.timer then s
      else
        var drained := Drain(Refill(s, now));
        drained.(timer := drained.queue != [])
    case Abort(id) =>
      if id in s.queue then s.(queue := Without(s.queue, {id}), aborted := s.aborted + {id}) else s
  }

  function RunFrom(s: State, events: seq<Event>): State
    decreases |events|
  {
    if events == [] then s else RunFrom(Step(s, events[0]), events[1..])
  }

  // Assumptions on a run.

  predicate Timed(e: Event) {
    e.Wait? || e.Tick?
  }

  /** The clock never goes back, starting from `since`. */
  predicate Ordered(since: int, events: seq<Event>)
    decreases |events|
  {
    events == [] ||
    (if Timed(events[0]) then since <= events[0].now && Ordered(events[0].now, events[1..])
     else Ordered(since, events[1..]))
  }

  predicate Within(t1: int, t2: int, events: seq<Event>) {
    forall k | 0 <= k < |events| && Timed(events[k]) :: t1 <= events[k].now <= t2
  }

  /** No two waits use one id, and none is queued under `used` already. */
  predicate FreshIds(used: seq<nat>, events: seq<Event>)
    decreases |events|
  {
    events == [] ||
    (if events[0].Wait? then events[0].id !in used && FreshIds(used + [events[0].id], events[1..])
     else FreshIds(used, events[1..]))
  }
}
