/** That tokens are supplied: the balance of each step in numbers, and bounds from below. */
module RateLimiterSupply {
  import opened RateLimiterModel
  import opened RateLimiterProperties

  /** What the rate adds between two moments, in milliseconds. */
  function Flow(rate: real, since: int, now: int): real {
    rate * ((now - since) as real / 1000.0)
  }

  /** The tokens there are at `now`: what was left, and the rate over the seconds since, up to the
      size of the bucket. */
  function Filled(s: State, now: int): real {
    var uncapped := s.tokens + Flow(s.rate, s.lastRefill, now);
    if uncapped <= s.maxTokens then uncapped else s.maxTokens
  }

  lemma RefillIsFilled(s: State, now: int)
    ensures Refill(s, now) == s.(tokens := Filled(s, now), lastRefill := now)
  {
    RefilledIs(s.rate, s.lastRefill, now);
  }

  /** A call is granted exactly when there is a whole token, and takes it; else it waits, with the
      timer running. */
  lemma WaitBalance(s: State, now: int, id: nat)
    requires s.rate > 0.0
    ensures var t := Step(s, Wait(now, id, false));
            && t.lastRefill == now && t.called == s.called + [id] && t.served == s.served
            && (if Filled(s, now) >= 1.0
                then t.granted == s.granted + [id] && t.tokens == Filled(s, now) - 1.0 && t.queue == s.queue
                else t.granted == s.granted && t.tokens == Filled(s, now) && t.queue == s.queue + [id] && t.timer)
  {
    RefillIsFilled(s, now);
  }

  /** A tick grants the first waiters, one a whole token, until tokens or waiters run out, and the
      timer goes on exactly while some wait. */
  lemma TickBalance(s: State, now: int)
    requires s.timer && Filled(s, now) >= 0.0
    ensures var t := Step(s, Tick(now));
            var n := |t.granted| - |s.granted|;
            && t.lastRefill == now && 0 <= n <= |s.queue|
            && t.granted == s.granted + s.queue[..n] && t.served == s.served + s.queue[..n]
            && t.queue == s.queue[n..]
            && t.tokens + n as real == Filled(s, now)
            && (t.queue == [] || t.tokens < 1.0)
            && (t.timer <==> t.queue != [])
  {
    RefillIsFilled(s, now);
    hide Drain, Refill, Filled;
    DrainTakes(Refill(s, now));
    DrainFacts(Refill(s, now));
  }

  lemma {:induction false} DrainTakes(s: State)
    requires s.tokens >= 0.0
    ensures var t := Drain(s);
            var n := |t.granted| - |s.granted|;
            && 0 <= n <= |s.queue|
            && t.granted == s.granted + s.queue[..n] && t.served == s.served + s.queue[..n]
            && t.queue == s.queue[n..]
    decreases |s.queue|
  {
    if s.queue != [] && s.tokens >= 1.0 {
      var next := Grant(s, s.queue[0]).(queue := s.queue[1..], served := s.served + [s.queue[0]]);
      DrainTakes(next);
      hide Drain;
      var n := |Drain(next).granted| - |next.granted|;
      OneMoreTaken(s.granted, s.queue, n);
      OneMoreTaken(s.served, s.queue, n);
    }
  }

  lemma OneMoreTaken(done: seq<nat>, queue: seq<nat>, n: nat)
    requires queue != [] && n < |queue|
    ensures done + [queue[0]] + queue[1..][..n] == done + queue[..n + 1] && queue[1..][n..] == queue[n + 1..]
  {
  }

  /** Without a rate every call is granted at once. */
  lemma UnlimitedGranted(s: State, now: int, id: nat)
    requires s.rate <= 0.0
    ensures var t := Step(s, Wait(now, id, false));
            t.granted == s.granted + [id] && t.queue == s.queue && t.called == s.called + [id]
  {
  }

  // Bounds from below, over runs.

  /** Someone waits now and after each event. */
  ghost predicate Queued(s: State, events: seq<Event>)
    decreases |events|
  {
    s.queue != [] && (events != [] ==> Queued(Step(s, events[0]), events[1..]))
  }

  /** No refill of the run meets the size of the bucket. */
  predicate NeverFull(s: State, events: seq<Event>)
    decreases |events|
  {
    events != [] ==>
      && (Timed(events[0]) ==> s.tokens + Flow(s.rate, s.lastRefill, events[0].now) <= s.maxTokens)
      && NeverFull(Step(s, events[0]), events[1..])
  }

  /** While someone waits and the bucket is not full, nothing is wasted: tokens and grants together
      grow by the rate over the time of the refills. */
  lemma {:induction false} NothingWasted(s: State, events: seq<Event>)
    requires Valid(s) && Ordered(s.lastRefill, events) && Queued(s, events) && NeverFull(s, events)
    ensures var t := RunFrom(s, events);
            && Valid(t) && t.rate == s.rate
            && t.tokens + (|t.granted| - |s.granted|) as real
               == s.tokens + Flow(s.rate, s.lastRefill, t.lastRefill)
    decreases |events|
  {
    if events == [] {
      NoTime(s.rate, s.lastRefill);
    } else {
      hide Step, Flow;
      var e, next := events[0], Step(s, events[0]);
      OrderedStep(s, events);
      StepFacts(s, e);
      OneWasted(s, e);
      NothingWasted(next, events[1..]);
      var t := RunFrom(next, events[1..]);
      RateAdds(s.rate, s.lastRefill, next.lastRefill, t.lastRefill);
    }
  }

  lemma OneWasted(s: State, e: Event)
    requires Valid(s) && s.queue != [] && (Timed(e) ==> s.lastRefill <= e.now)
    requires Timed(e) ==> s.tokens + Flow(s.rate, s.lastRefill, e.now) <= s.maxTokens
    ensures var t := Step(s, e);
            t.tokens + (|t.granted| - |s.granted|) as real
            == s.tokens + Flow(s.rate, s.lastRefill, t.lastRefill)
  {
    hide Drain, Refill, Flow;
    match e
    case Wait(now, id, signalAborted) =>
      if !signalAborted {
        hide Step;
        WaitBalance(s, now, id);
      } else {
        NoTime(s.rate, s.lastRefill);
      }
    case Tick(now) =>
      FlowNonnegative(s.rate, s.lastRefill, now);
      TickBalance(s, now);
    case Abort(id) => NoTime(s.rate, s.lastRefill);
  }

  lemma FlowNonnegative(rate: real, since: int, now: int)
    requires rate > 0.0 && since <= now
    ensures Flow(rate, since, now) >= 0.0
  {
    Nonnegative(rate, (now - since) as real / 1000.0);
  }

  lemma NoTime(rate: real, t: int)
    ensures Flow(rate, t, t) == 0.0
  {
  }

  lemma RateAdds(rate: real, a: int, b: int, c: int)
    ensures Flow(rate, a, b) + Flow(rate, b, c) == Flow(rate, a, c)
  {
    Distribute((b - a) as real / 1000.0, (c - b) as real / 1000.0, rate);
  }

  lemma {:induction false} RunLast(s: State, events: seq<Event>, e: Event)
    ensures RunFrom(s, events + [e]) == Step(RunFrom(s, events), e)
    decreases |events|
  {
    hide Step;
    if events != [] {
      assert (events + [e])[1..] == events[1..] + [e];
      RunLast(Step(s, events[0]), events[1..], e);
    }
  }

  /** If someone waits at every moment of a stretch that ends with a tick, and the bucket is never
      full, the grants exceed the tokens at its start and the rate over its time, less one. */
  lemma GrantsFromBelow(s: State, events: seq<Event>, now: int)
    requires Valid(s) && Ordered(s.lastRefill, events + [Tick(now)])
    requires Queued(s, events + [Tick(now)]) && NeverFull(s, events + [Tick(now)])
    ensures (|RunFrom(s, events + [Tick(now)]).granted| - |s.granted|) as real
            > s.tokens + s.rate * ((now - s.lastRefill) as real / 1000.0) - 1.0
  {
    var all := events + [Tick(now)];
    hide Step, Drain;
    NothingWasted(s, all);
    RunLast(s, events, Tick(now));
    QueuedAtEnd(s, all);
    var before := StretchBefore(s, events, now);
    TickEnds(before, now);
  }

  /** The state the last tick of a stretch meets. */
  lemma {:induction false} StretchBefore(s: State, events: seq<Event>, now: int) returns (t: State)
    requires Valid(s) && Ordered(s.lastRefill, events + [Tick(now)]) && Queued(s, events + [Tick(now)])
    ensures t == RunFrom(s, events) && Valid(t) && t.queue != [] && t.lastRefill <= now
    decreases |events|
  {
    hide Step;
    var all := events + [Tick(now)];
    if events == [] {
      t := s;
    } else {
      OrderedStep(s, all);
      StepFacts(s, all[0]);
      assert all[1..] == events[1..] + [Tick(now)];
      t := StretchBefore(Step(s, all[0]), events[1..], now);
    }
  }

  lemma {:induction false} QueuedAtEnd(s: State, events: seq<Event>)
    requires Queued(s, events)
    ensures RunFrom(s, events).queue != []
    decreases |events|
  {
    hide Step;
    if events != [] {
      QueuedAtEnd(Step(s, events[0]), events[1..]);
    }
  }

  lemma TickEnds(s: State, now: int)
    requires Valid(s) && s.queue != [] && s.lastRefill <= now
    ensures var t := Step(s, Tick(now)); t.lastRefill == now && (t.queue == [] || t.tokens < 1.0)
  {
    FlowNonnegative(s.rate, s.lastRefill, now);
    TickBalance(s, now);
  }

  /** The bucket starts full: the first calls, as many as it holds, are granted at once. */
  lemma {:induction false} FirstCallsGranted(s: State, calls: seq<Event>, ids: seq<nat>)
    requires Valid(s) && s.queue == [] && |calls| == |ids| && Ordered(s.lastRefill, calls)
    requires forall k :: 0 <= k < |calls| ==> calls[k].Wait? && !calls[k].signalAborted && calls[k].id == ids[k]
    requires s.tokens >= |calls| as real
    ensures RunFrom(s, calls).granted == s.granted + ids
    decreases |calls|
  {
    if calls != [] {
      var e := calls[0];
      FlowNonnegative(s.rate, s.lastRefill, e.now);
      WaitBalance(s, e.now, e.id);
      OrderedStep(s, calls);
      StepFacts(s, e);
      FirstCallsGranted(Step(s, e), calls[1..], ids[1..]);
      assert s.granted + [ids[0]] + ids[1..] == s.granted + ids;
    } else {
      assert s.granted + ids == s.granted;
    }
  }

  lemma OpenedBurst(rate: real, t0: int, calls: seq<Event>, ids: seq<nat>)
    requires rate > 0.0 && |calls| == |ids| && Ordered(t0, calls)
    requires forall k :: 0 <= k < |calls| ==> calls[k].Wait? && !calls[k].signalAborted && calls[k].id == ids[k]
    requires |calls| <= 1 || |calls| as real <= rate
    ensures RunFrom(Opened(rate, t0), calls).granted == ids
  {
    FirstCallsGranted(Opened(rate, t0), calls, ids);
    assert [] + ids == ids;
  }

  /** An abort takes its waiter out of the queue and changes nothing else; one that does not wait, or
      a call refused because its signal was aborted, changes nothing. */
  lemma AbortExactly(s: State, id: nat, now: int)
    ensures var t := Step(s, Abort(id));
            && (forall x :: x in t.queue <==> x in s.queue && x != id)
            && t == s.(queue := t.queue, aborted := if id in s.queue then s.aborted + {id} else s.aborted)
            && (id !in s.queue ==> t == s)
    ensures Step(s, Wait(now, id, true)) == s
  {
    WithoutShape(s.queue, {id});
  }
}
