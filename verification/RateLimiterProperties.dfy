/** The token-bucket bound and the order of service. */
module RateLimiterProperties {
  import opened RateLimiterModel

  ghost predicate Valid(s: State) {
    && s.rate > 0.0 && s.maxTokens == MaxReal(s.rate, 1.0)
    && 0.0 <= s.tokens <= s.maxTokens
    && (s.queue != [] ==> s.timer)
  }

  lemma RefillFacts(s: State, now: int)
    requires Valid(s) && s.lastRefill <= now
    ensures Valid(Refill(s, now))
    ensures Refill(s, now).tokens <= s.tokens + Refilled(s.rate, s.lastRefill, now)
    ensures Refilled(s.rate, s.lastRefill, now) >= 0.0
  {
    hide Refilled;
    RefilledNonnegative(s.rate, s.lastRefill, now);
  }

  lemma RefilledNonnegative(rate: real, since: int, now: int)
    requires rate > 0.0 && since <= now
    ensures Refilled(rate, since, now) >= 0.0
  {
    Nonnegative((now - since) as real / 1000.0, rate);
  }

  lemma RefilledIs(rate: real, since: int, now: int)
    ensures Refilled(rate, since, now) == rate * ((now - since) as real / 1000.0)
  {
  }

  lemma Nonnegative(x: real, y: real)
    requires x >= 0.0 && y >= 0.0
    ensures x * y >= 0.0
  {
  }

  /** Draining turns tokens into grants one for one. */
  lemma {:induction false} DrainFacts(s: State)
    requires s.tokens >= 0.0
    ensures var t := Drain(s);
            && t == s.(tokens := t.tokens, queue := t.queue, served := t.served, granted := t.granted)
            && 0.0 <= t.tokens && t.tokens + |t.granted| as real == s.tokens + |s.granted| as real
            && |t.granted| >= |s.granted|
            && t.served + t.queue == s.served + s.queue
            && (t.queue == [] || t.tokens < 1.0)
    decreases |s.queue|
  {
    if s.queue != [] && s.tokens >= 1.0 {
      var next := Grant(s, s.queue[0]).(queue := s.queue[1..], served := s.served + [s.queue[0]]);
      DrainFacts(next);
      assert next.served + next.queue == s.served + s.queue;
    }
  }

  /** One step: tokens stay in range, waiting implies a live timer, and no step grants more
      than the tokens it uses up; a step that grants has refilled. */
  lemma StepFacts(s: State, e: Event)
    requires Valid(s) && (Timed(e) ==> s.lastRefill <= e.now)
    ensures var t := Step(s, e);
            && Valid(t) && t.rate == s.rate && |t.granted| >= |s.granted| && s.lastRefill <= t.lastRefill
            && (t.lastRefill == s.lastRefill || (Timed(e) && t.lastRefill == e.now))
            && t.tokens + (|t.granted| - |s.granted|) as real
               <= s.tokens + Refilled(s.rate, s.lastRefill, t.lastRefill)
            && (|t.granted| > |s.granted| ==> Timed(e) && t.lastRefill == e.now)
            && t.tokens + (|t.granted| - |s.granted|) as real <= t.maxTokens
  {
    hide Refill, Drain, Refilled;
    RefillSame(s);
    if Timed(e) {
      RefillFacts(s, e.now);
      RefillShape(s, e.now);
      DrainFacts(Refill(s, e.now));
    }
  }

  lemma RefillSame(s: State)
    ensures Refilled(s.rate, s.lastRefill, s.lastRefill) == 0.0
  {
  }

  lemma RefillShape(s: State, now: int)
    ensures Refill(s, now) == s.(tokens := Refill(s, now).tokens, lastRefill := now)
  {
  }

  lemma RefillAdds(rate: real, a: int, b: int, c: int)
    ensures Refilled(rate, a, b) + Refilled(rate, b, c) == Refilled(rate, a, c)
  {
    Distribute((b - a) as real / 1000.0, (c - b) as real / 1000.0, rate);
  }

  lemma Distribute(x: real, y: real, z: real)
    ensures x * z + y * z == (x + y) * z
  {
  }

  lemma RefillGrows(rate: real, a: int, b: int, c: int)
    requires rate > 0.0 && a <= b <= c
    ensures 0.0 <= Refilled(rate, b, c) <= Refilled(rate, a, c)
  {
    Nonnegative((c - b) as real / 1000.0, rate);
    Nonnegative((b - a) as real / 1000.0, rate);
    RefillAdds(rate, a, b, c);
  }

  lemma {:induction false} OrderedStep(s: State, events: seq<Event>)
    requires |events| > 0 && Ordered(s.lastRefill, events) && Valid(s)
    ensures Timed(events[0]) ==> s.lastRefill <= events[0].now
    ensures Ordered(Step(s, events[0]).lastRefill, events[1..])
  {
    hide Refill, Drain, Refilled;
    if Timed(events[0]) {
      StepFacts(s, events[0]);
      OrderedEarlier(Step(s, events[0]).lastRefill, events[0].now, events[1..]);
    }
  }

  lemma {:induction false} OrderedEarlier(a: int, b: int, events: seq<Event>)
    requires a <= b && Ordered(b, events)
    ensures Ordered(a, events)
    decreases |events|
  {
    if events != [] && !Timed(events[0]) {
      OrderedEarlier(a, b, events[1..]);
    }
  }

  /** From a given fill, grants are covered by that fill and what flows in until `t2`. */
  lemma {:induction false} GrantsFromFill(s: State, events: seq<Event>, t2: int)
    requires Valid(s) && Ordered(s.lastRefill, events) && Within(s.lastRefill, t2, events) && s.lastRefill <= t2
    ensures var t := RunFrom(s, events);
            && Valid(t) && t.rate == s.rate && t.lastRefill <= t2
            && (|t.granted| - |s.granted|) as real <= s.tokens + Refilled(s.rate, s.lastRefill, t2)
    decreases |events|
  {
    hide Step, Refilled;
    if events == [] {
      RefillGrows(s.rate, s.lastRefill, s.lastRefill, t2);
    } else {
      var next, rest := Step(s, events[0]), events[1..];
      OrderedStep(s, events);
      StepFacts(s, events[0]);
      assert Within(s.lastRefill, t2, [events[0]] + rest);
      LaterWithin(s.lastRefill, next.lastRefill, t2, rest);
      GrantsFromFill(next, rest, t2);
      RefillAdds(s.rate, s.lastRefill, next.lastRefill, t2);
    }
  }

  lemma {:induction false} OrderedWithin(since: int, t1: int, t2: int, events: seq<Event>)
    requires Ordered(since, events) && Within(t1, t2, events)
    ensures Within(since, t2, events)
    decreases |events|
  {
    if events != [] {
      forall k | 0 <= k < |events| - 1 && Timed(events[1..][k]) ensures t1 <= events[1..][k].now <= t2 {
        assert events[k + 1] == events[1..][k];
      }
      var later := if Timed(events[0]) then events[0].now else since;
      OrderedWithin(later, t1, t2, events[1..]);
      forall k | 0 <= k < |events| && Timed(events[k]) ensures since <= events[k].now <= t2 {
        if k > 0 {
          assert events[k] == events[1..][k - 1];
        }
      }
    }
  }

  lemma LaterWithin(t1: int, later: int, t2: int, events: seq<Event>)
    requires Ordered(later, events) && Within(t1, t2, events)
    ensures Within(later, t2, events)
  {
    OrderedWithin(later, t1, t2, events);
  }

  /** Within a window of time, from any valid state last refilled before it. */
  lemma {:induction false} WindowBound(s: State, events: seq<Event>, t1: int, t2: int)
    requires Valid(s) && Ordered(s.lastRefill, events) && Within(t1, t2, events) && t1 <= t2
    ensures (|RunFrom(s, events).granted| - |s.granted|) as real <= s.maxTokens + Refilled(s.rate, t1, t2)
    decreases |events|
  {
    hide Step, Refilled;
    if events == [] {
      RefillGrows(s.rate, t1, t1, t2);
    } else {
      var e, next, rest := events[0], Step(s, events[0]), events[1..];
      OrderedStep(s, events);
      StepFacts(s, e);
      forall k | 0 <= k < |rest| && Timed(rest[k]) ensures t1 <= rest[k].now <= t2 {
        assert rest[k] == events[k + 1];
      }
      if |next.granted| > |s.granted| {
        LaterWithin(t1, next.lastRefill, t2, rest);
        GrantsFromFill(next, rest, t2);
        RefillGrows(s.rate, t1, next.lastRefill, t2);
      } else {
        WindowBound(next, rest, t1, t2);
      }
    }
  }

  /** The token-bucket bound: over any run with a clock that never goes back, the waits granted
      between two moments are at most the bucket and what flows in between them. */
  lemma TokenBucketBound(rate: real, t0: int, before: seq<Event>, window: seq<Event>, t1: int, t2: int)
    requires rate > 0.0 && t1 <= t2 && Ordered(t0, before + window) && Within(t1, t2, window)
    ensures var s := RunFrom(Opened(rate, t0), before);
            && 0.0 <= s.tokens <= s.maxTokens == MaxReal(rate, 1.0) && (s.queue != [] ==> s.timer)
            && (|RunFrom(s, window).granted| - |s.granted|) as real
               <= MaxReal(rate, 1.0) + rate * ((t2 - t1) as real / 1000.0)
  {
    hide RunFrom, Ordered, Refilled, Within;
    var s := RunReaches(Opened(rate, t0), before, window);
    WindowBound(s, window, t1, t2);
    RefilledIs(rate, t1, t2);
  }

  lemma {:induction false} RunReaches(s: State, before: seq<Event>, window: seq<Event>) returns (t: State)
    requires Valid(s) && Ordered(s.lastRefill, before + window)
    ensures t == RunFrom(s, before) && Valid(t) && t.rate == s.rate && Ordered(t.lastRefill, window)
    decreases |before|
  {
    hide Step;
    if before == [] {
      assert before + window == window;
      t := s;
    } else {
      var events := before + window;
      assert events[1..] == before[1..] + window;
      OrderedStep(s, events);
      StepFacts(s, events[0]);
      t := RunReaches(Step(s, before[0]), before[1..], window);
    }
  }

  // Order of service.

  function IdsOf(s: seq<nat>): set<nat> {
    set x | x in s
  }

  predicate NoRepeats(s: seq<nat>) {
    forall i, j | 0 <= i < j < |s| :: s[i] != s[j]
  }

  /** Those in `done`, followed by those still in the queue, are those in `all` in their order,
      less the ones that aborted while queued. */
  ghost predicate Follows(done: seq<nat>, queue: seq<nat>, all: seq<nat>, aborted: set<nat>) {
    done + queue == Without(all, aborted) && NoRepeats(all) && aborted <= IdsOf(all)
  }

  /** The queue is served in its own order. */
  ghost predicate InOrder(s: State) {
    Follows(s.served, s.queue, s.enqueued, s.aborted)
  }

  /** All calls are granted in the order they were made. */
  ghost predicate InCallOrder(s: State) {
    Follows(s.granted, s.queue, s.called, s.aborted)
  }

  lemma {:induction false} WithoutShape(s: seq<nat>, dropped: set<nat>)
    ensures forall x :: x in Without(s, dropped) <==> x in s && x !in dropped
    ensures NoRepeats(s) ==> NoRepeats(Without(s, dropped))
  {
    if s != [] {
      var front, last := s[..|s| - 1], s[|s| - 1];
      assert s == front + [last];
      WithoutShape(front, dropped);
      if NoRepeats(s) {
        assert last !in front;
      }
    }
  }

  lemma {:induction false} WithoutAbsent(s: seq<nat>, dropped: set<nat>)
    requires forall x | x in s :: x !in dropped
    ensures Without(s, dropped) == s
  {
    if s != [] {
      assert forall x | x in s[..|s| - 1] :: x in s;
      WithoutAbsent(s[..|s| - 1], dropped);
    }
  }

  lemma {:induction false} WithoutJoin(a: seq<nat>, b: seq<nat>, dropped: set<nat>)
    ensures Without(a + b, dropped) == Without(a, dropped) + Without(b, dropped)
  {
    if b == [] {
      assert a + b == a;
    } else {
      assert (a + b)[..|a + b| - 1] == a + b[..|b| - 1];
      WithoutJoin(a, b[..|b| - 1], dropped);
    }
  }

  lemma {:induction false} WithoutTwice(s: seq<nat>, dropped: set<nat>, more: set<nat>)
    ensures Without(Without(s, dropped), more) == Without(s, dropped + more)
  {
    if s != [] {
      var front, last := s[..|s| - 1], s[|s| - 1];
      WithoutTwice(front, dropped, more);
      var kept := if last in dropped then [] else [last];
      WithoutJoin(Without(front, dropped), kept, more);
      assert Without([last], more) == if last in more then [] else [last];
    }
  }

  lemma FollowsAbort(done: seq<nat>, queue: seq<nat>, all: seq<nat>, aborted: set<nat>, id: nat)
    requires Follows(done, queue, all, aborted) && id in queue
    ensures Follows(done, Without(queue, {id}), all, aborted + {id})
  {
    hide NoRepeats;
    WithoutShape(all, aborted);
    assert id in Without(all, aborted);
    OnlyOnce(done, queue, id);
    WithoutJoin(done, queue, {id});
    WithoutAbsent(done, {id});
    WithoutTwice(all, aborted, {id});
  }

  /** A newcomer at the end of both. */
  lemma FollowsNewcomer(done: seq<nat>, queue: seq<nat>, all: seq<nat>, aborted: set<nat>, id: nat)
    requires Follows(done, queue, all, aborted) && id !in all
    ensures Follows(done, queue + [id], all + [id], aborted)
    ensures Follows(done + [id], queue, all + [id], aborted) <==> queue == []
  {
    WithoutJoin(all, [id], aborted);
    assert id !in IdsOf(all);
    assert Without([id], aborted) == [id];
    assert IdsOf(all) <= IdsOf(all + [id]);
    WithoutShape(all, aborted);
    assert done + (queue + [id]) == Without(all, aborted) + [id];
    if queue != [] {
      assert queue[0] in done + queue;
      assert (done + [id] + queue)[|done|] == id && (done + (queue + [id]))[|done|] == queue[0];
    } else {
      assert done + [id] + queue == done + (queue + [id]);
    }
  }

  lemma OnlyOnce(a: seq<nat>, b: seq<nat>, x: nat)
    requires NoRepeats(a + b) && x in b
    ensures x !in a
  {
    forall i | 0 <= i < |a| ensures a[i] != x {
      var j :| 0 <= j < |b| && b[j] == x;
      assert (a + b)[i] != (a + b)[|a| + j];
    }
  }

  lemma StepInOrder(s: State, e: Event)
    requires InOrder(s) && (e.Wait? ==> e.id !in s.enqueued)
    ensures InOrder(Step(s, e))
  {
    hide Refill, Follows;
    match e
    case Wait(now, id, _) =>
      RefillShape(s, now);
      FollowsNewcomer(s.served, s.queue, s.enqueued, s.aborted, id);
    case Tick(now) =>
      RefillShape(s, now);
      DrainOrder(Refill(s, now));
      SameFollows(s.served, s.queue, Step(s, e).served, Step(s, e).queue, s.enqueued, s.aborted);
    case Abort(id) =>
      if id in s.queue {
        FollowsAbort(s.served, s.queue, s.enqueued, s.aborted, id);
      }
  }

  lemma SameFollows(done: seq<nat>, queue: seq<nat>, more: seq<nat>, rest: seq<nat>, all: seq<nat>,
                    aborted: set<nat>)
    requires Follows(done, queue, all, aborted) && more + rest == done + queue
    ensures Follows(more, rest, all, aborted)
  {
  }

  lemma {:induction false} DrainOrder(s: State)
    ensures var t := Drain(s);
            && t.served + t.queue == s.served + s.queue && t.granted + t.queue == s.granted + s.queue
            && t.enqueued == s.enqueued && t.aborted == s.aborted && t.called == s.called && t.rate == s.rate
            && (s.queue == [] ==> t.queue == [])
    decreases |s.queue|
  {
    if s.queue != [] && s.tokens >= 1.0 {
      var next := Grant(s, s.queue[0]).(queue := s.queue[1..], served := s.served + [s.queue[0]]);
      DrainOrder(next);
      assert next.served + next.queue == s.served + s.queue;
      assert next.granted + next.queue == s.granted + s.queue;
    }
  }

  /** First come, first served among queued waiters that do not abort, over every run. */
  lemma {:induction false} ServedInOrder(s: State, events: seq<Event>, used: seq<nat>)
    requires InOrder(s) && FreshIds(used, events) && IdsOf(s.enqueued) <= IdsOf(used)
    ensures InOrder(RunFrom(s, events))
    decreases |events|
  {
    hide Step, InOrder;
    if events != [] {
      var e := events[0];
      assert e.Wait? ==> e.id !in s.enqueued by {
        assert forall x | x in s.enqueued :: x in IdsOf(s.enqueued);
      }
      StepInOrder(s, e);
      StepQueues(s, e);
      var more := if e.Wait? then used + [e.id] else used;
      assert forall x | x in IdsOf(used) :: x in more;
      assert e.Wait? ==> e.id in more;
      assert IdsOf(Step(s, e).enqueued) <= IdsOf(more) by {
        assert forall x | x in s.enqueued :: x in IdsOf(s.enqueued);
      }
      ServedInOrder(Step(s, e), events[1..], more);
    }
  }

  lemma StepQueues(s: State, e: Event)
    ensures Step(s, e).enqueued == s.enqueued || (e.Wait? && Step(s, e).enqueued == s.enqueued + [e.id])
  {
    if e.Tick? {
      DrainOrder(Refill(s, e.now));
    }
  }

  /** From the start: the granted waiters, then the waiting ones, are the queued ones in order. */
  lemma QueueServedInOrder(rate: real, t0: int, events: seq<Event>)
    requires FreshIds([], events)
    ensures var s := RunFrom(Opened(rate, t0), events);
            s.served + s.queue == Without(s.enqueued, s.aborted)
  {
    ServedInOrder(Opened(rate, t0), events, []);
  }

  // Order of the calls.

  /** A call that finds a token while others are queued. */
  predicate Overtakes(s: State, e: Event) {
    && e.Wait? && !e.signalAborted && s.rate > 0.0 && s.queue != []
    && Refill(s, e.now).tokens >= 1.0
  }

  /** A newcomer is granted before those already queued exactly when its own refill finds a
      token; the queue is then as it was. */
  lemma NewcomerOvertakesExactly(s: State, now: int, id: nat)
    requires s.rate > 0.0 && s.queue != []
    ensures var t := Step(s, Wait(now, id, false));
            && (|t.granted| > |s.granted| <==> Overtakes(s, Wait(now, id, false)))
            && t.queue == s.queue + if |t.granted| > |s.granted| then [] else [id]
  {
    RefillShape(s, now);
    assert s.queue + [] == s.queue;
  }

  /** Calls that were granted and called in one order so far stay so exactly unless a newcomer
      overtakes. */
  lemma StepCallOrderExactly(s: State, e: Event)
    requires InCallOrder(s) && (e.Wait? ==> e.id !in s.called) && (s.rate <= 0.0 ==> s.queue == [])
    ensures InCallOrder(Step(s, e)) <==> !Overtakes(s, e)
    ensures Step(s, e).rate == s.rate && (s.rate <= 0.0 ==> Step(s, e).queue == [])
    ensures Step(s, e).called == s.called || (e.Wait? && Step(s, e).called == s.called + [e.id])
  {
    hide Refill, Follows;
    match e
    case Wait(now, id, _) =>
      RefillShape(s, now);
      FollowsNewcomer(s.granted, s.queue, s.called, s.aborted, id);
    case Tick(now) =>
      RefillShape(s, now);
      DrainOrder(Refill(s, now));
      SameFollows(s.granted, s.queue, Step(s, e).granted, Step(s, e).queue, s.called, s.aborted);
    case Abort(id) =>
      if id in s.queue {
        FollowsAbort(s.granted, s.queue, s.called, s.aborted, id);
      }
  }

  /** In call order at this moment and at every later one of the run. */
  ghost predicate CallOrderThroughout(s: State, events: seq<Event>)
    decreases |events|
  {
    InCallOrder(s) && (events != [] ==> CallOrderThroughout(Step(s, events[0]), events[1..]))
  }

  predicate NeverOvertakes(s: State, events: seq<Event>)
    decreases |events|
  {
    events != [] ==> !Overtakes(s, events[0]) && NeverOvertakes(Step(s, events[0]), events[1..])
  }

  lemma {:induction false} CallOrderFrom(s: State, events: seq<Event>, used: seq<nat>)
    requires InCallOrder(s) && (s.rate <= 0.0 ==> s.queue == [])
    requires FreshIds(used, events) && IdsOf(s.called) <= IdsOf(used)
    ensures CallOrderThroughout(s, events) <==> NeverOvertakes(s, events)
    decreases |events|
  {
    hide Step, InCallOrder, Overtakes;
    if events != [] {
      var e, next := events[0], Step(s, events[0]);
      assert forall x | x in s.called :: x in IdsOf(s.called);
      StepCallOrderExactly(s, e);
      if !Overtakes(s, e) {
        var more := if e.Wait? then used + [e.id] else used;
        assert forall x | x in IdsOf(used) :: x in more;
        assert forall x | x in next.called :: x in s.called || (e.Wait? && x == e.id);
        CallOrderFrom(next, events[1..], more);
      } else {
        NotInCallOrder(next, events[1..]);
      }
    }
  }

  lemma NotInCallOrder(s: State, events: seq<Event>)
    requires !InCallOrder(s)
    ensures !CallOrderThroughout(s, events)
  {
  }

  /** Over whole runs: grants follow the order of the calls at every moment, aborted ones left
      out, exactly when no call ever finds a token while others are queued. */
  lemma CallOrderThroughoutExactly(rate: real, t0: int, events: seq<Event>)
    requires FreshIds([], events)
    ensures CallOrderThroughout(Opened(rate, t0), events) <==> NeverOvertakes(Opened(rate, t0), events)
  {
    CallOrderFrom(Opened(rate, t0), events, []);
  }

  /** A run in which a newcomer overtakes, at one token a second: 1 is queued, and 2 is granted
      when the next token is in. */
  lemma NewcomerOvertakes()
    ensures var s := RunFrom(Opened(1.0, 0), [Wait(0, 0, false), Wait(0, 1, false), Wait(1000, 2, false)]);
            s.granted == [0, 2] && s.queue == [1]
  {
    var first := Step(Opened(1.0, 0), Wait(0, 0, false));
    RefillSame(Opened(1.0, 0));
    assert first.tokens == 0.0;
    var second := Step(first, Wait(0, 1, false));
    RefillSame(first);
    assert second.queue == [1] && second.tokens == 0.0;
    assert Refilled(1.0, 0, 1000) == 1.0;
    var third := Step(second, Wait(1000, 2, false));
    assert RunFrom(second, [Wait(1000, 2, false)]) == RunFrom(third, []);
    assert RunFrom(first, [Wait(0, 1, false), Wait(1000, 2, false)]) == RunFrom(second, [Wait(1000, 2, false)]);
  }
}
