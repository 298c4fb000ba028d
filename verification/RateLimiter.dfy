/** The rate limiter object (burnin/src/rateLimiter.ts:7-71). */
module RateLimiter {
  import opened RateLimiterModel

  class RateLimiter {
    const rate: real
    var tokens: real
    const maxTokens: real
    var lastRefill: int
    var waitQueue: seq<nat>
    var timer: bool
    ghost var called: seq<nat>
    ghost var granted: seq<nat>
    ghost var enqueued: seq<nat>
    ghost var aborted: set<nat>
    ghost var served: seq<nat>

    ghost function View(): State
      reads this
    {
      State(rate, tokens, maxTokens, lastRefill, waitQueue, timer, called, granted, enqueued, aborted, served)
    }

    constructor (rate: real, now: int)
      ensures View() == Opened(rate, now)
    {
      this.rate := rate;
      maxTokens := MaxReal(rate, 1.0);
      tokens := MaxReal(rate, 1.0);
      lastRefill := now;
      waitQueue, timer := [], false;
      called, granted, enqueued, aborted, served := [], [], [], {}, [];
    }

    method Refill(now: int)
      modifies this`tokens, this`lastRefill
      ensures View() == RateLimiterModel.Refill(old(View()), now)
    {
      var elapsed := (now - lastRefill) as real / 1000.0;
      tokens := MinReal(maxTokens, tokens + elapsed * rate);
      lastRefill := now;
    }

    /** wait up to its answer: Some outcome, or queued as waiter `id`. */
    method Wait(now: int, id: nat, signalAborted: bool) returns (outcome: Outcome)
      modifies this
      ensures View() == Step(old(View()), Event.Wait(now, id, signalAborted))
      ensures outcome == if signalAborted then Refused
                         else if |granted| > |old(granted)| then Granted else Queued
    {
      if signalAborted {
        return Refused;
      }
      called := called + [id];
      if rate <= 0.0 {
        granted := granted + [id];
        return Granted;
      }
      Refill(now);
      if tokens >= 1.0 {
        tokens := tokens - 1.0;
        granted := granted + [id];
        return Granted;
      }
      waitQueue := waitQueue + [id];
      enqueued := enqueued + [id];
      EnsureTimer();
      return Queued;
    }

    method EnsureTimer()
      modifies this`timer
      ensures timer
    {
      if timer {
        return;
      }
      timer := true;
    }

    /** The interval callback (burnin/src/rateLimiter.ts:51-62). */
    method OnTick(now: int)
      modifies this
      ensures View() == Step(old(View()), Tick(now))
    {
      if !timer {
        return;
      }
      Refill(now);
      ghost var filled := View();
      while |waitQueue| > 0 && tokens >= 1.0
        invariant timer && Drain(View()) == Drain(filled)
        decreases |waitQueue|
      {
        tokens := tokens - 1.0;
        granted := granted + [waitQueue[0]];
        served := served + [waitQueue[0]];
        waitQueue := waitQueue[1..];
      }
      if |waitQueue| == 0 {
        timer := false;
      }
    }

    /** onAbort: the waiter leaves the queue if it is still there. */
    method OnAbort(id: nat)
      modifies this`waitQueue, this`aborted
      ensures View() == Step(old(View()), Abort(id))
    {
      if id in waitQueue {
        waitQueue := Without(waitQueue, {id});
        aborted := aborted + {id};
      }
    }
  }

  datatype Outcome = Granted | Refused | Queued
}
