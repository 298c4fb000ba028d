/** The part that createEventStream and createEventStoreStream share (src/client.ts:2466-2557,
    2625-2718): breaking, recreating and self-healing one stream. A healer is a chain of timers
    that may interleave with server events, reconnects and other healers. */
module SelfHeal {

  /** `polling`, `settling` and `retrying` count the healers at each of their three awaits.
      `breaks`, `healed` and `resubscribed` count ready-to-broken transitions and successful
      recreations by healers and by resubscribe. */
  datatype Core = Core(
    active: bool,
    streamReady: bool,
    healing: bool,
    inErrorHandler: bool,
    polling: nat,
    settling: nat,
    retrying: nat,
    breaks: nat,
    healed: nat,
    resubscribed: nat)

  const OPENED := Core(true, true, false, false, 0, 0, 0, 0, 0, 0)

  /** `ready` is whether the transport is READY when the healer looks, `fails` whether creating
      the stream throws. */
  datatype Event =
    | ErrorArrives
    | ErrorHandled(ready: bool)
    | StreamEnds(ready: bool)
    | Resubscribe(fails: bool)
    | PollTimer(ready: bool)
    | SettleTimer(fails: bool)
    | RetryTimer(ready: bool)
    | Close

  function Broken(c: Core): Core {
    c.(streamReady := false, breaks := c.breaks + if c.streamReady then 1 else 0)
  }

  /** A healer looks at the transport, and waits on, gives up, or goes on to its last wait. */
  function Look(c: Core, ready: bool): Core {
    if c.active && !ready then c.(polling := c.polling + 1)
    else if !c.active || c.streamReady then c.(healing := false)
    else c.(settling := c.settling + 1)
  }

  function StartHealer(c: Core, ready: bool): Core {
    if !c.active || c.healing then c else Look(c.(healing := true), ready)
  }

  /** Does this event run breakStream, and does it call recreateStream? */
  predicate Breaks(c: Core, e: Event) {
    match e
    case ErrorHandled(_) => c.inErrorHandler
    case StreamEnds(_) => c.active && !c.healing
    case Resubscribe(_) => c.active
    case _ => false
  }

  predicate Recreates(c: Core, e: Event) {
    match e
    case Resubscribe(_) => c.active
    case SettleTimer(_) => c.settling > 0 && c.active && !c.streamReady
    case _ => false
  }

  function Step(c: Core, e: Event): Core {
    match e
    case ErrorArrives => if c.active then c.(inErrorHandler := true) else c
    case ErrorHandled(ready) =>
      if c.inErrorHandler then StartHealer(Broken(c.(inErrorHandler := false)), ready) else c
    case StreamEnds(ready) => if !c.active || c.healing then c else StartHealer(Broken(c), ready)
    case Resubscribe(fails) =>
      if !c.active then c
      else if fails then Broken(c)
      else Broken(c).(streamReady := true, resubscribed := c.resubscribed + 1)
    case PollTimer(ready) => if c.polling == 0 then c else Look(c.(polling := c.polling - 1), ready)
    case SettleTimer(fails) =>
      if c.settling == 0 then c
      else
        var woken := c.(settling := c.settling - 1, healing := false);
        if !c.active || c.streamReady then woken
        else if fails then woken.(retrying := c.retrying + 1)
        else woken.(streamReady := true, healed := c.healed + 1)
    case RetryTimer(ready) =>
      if c.retrying == 0 then c
      else StartHealer(c.(retrying := c.retrying - 1), ready).(healing := false)
    case Close => c.(active := false)
  }

  /** Every recreation answers one break: the books balance in every state. */
  ghost predicate Balanced(c: Core) {
    c.breaks == c.healed + c.resubscribed + if c.streamReady then 0 else 1
  }

  lemma StepBalanced(c: Core, e: Event)
    requires Balanced(c)
    ensures Balanced(Step(c, e))
  {
  }

  /** A healer never replaces a ready stream, and a stream breaks only through breakStream. */
  lemma HealersSpareReadyStreams(c: Core, e: Event)
    ensures e.SettleTimer? && c.streamReady ==> Step(c, e).healed == c.healed && Step(c, e).streamReady
    ensures Step(c, e).healed > c.healed ==> !c.streamReady && Recreates(c, e)
    ensures c.streamReady && !Step(c, e).streamReady ==> Breaks(c, e)
    ensures !c.streamReady && Step(c, e).streamReady ==> Recreates(c, e)
    ensures Recreates(c, e) ==> !c.streamReady || Breaks(c, e)
  {
  }

  /** The shared closure variables and healer timers, updated in place. */
  class HealingStream {
    var active: bool
    var streamReady: bool
    var healingInProgress: bool
    var inErrorHandler: bool
    var polling: nat
    var settling: nat
    var retrying: nat
    ghost var breaks: nat
    ghost var healed: nat
    ghost var resubscribed: nat

    ghost function View(): Core
      reads this
    {
      Core(active, streamReady, healingInProgress, inErrorHandler, polling, settling, retrying,
           breaks, healed, resubscribed)
    }

    constructor ()
      ensures View() == OPENED
    {
      active, streamReady, healingInProgress, inErrorHandler := true, true, false, false;
      polling, settling, retrying := 0, 0, 0;
      breaks, healed, resubscribed := 0, 0, 0;
    }

    method Break()
      modifies this`streamReady, this`breaks
      ensures View() == Broken(old(View()))
    {
      if streamReady {
        breaks := breaks + 1;
      }
      streamReady := false;
    }

    /** selfHeal up to its first await (src/client.ts:2489-2510). */
    method StartHealing(ready: bool)
      modifies this`healingInProgress, this`polling, this`settling
      ensures View() == StartHealer(old(View()), ready)
    {
      if !active || healingInProgress {
        return;
      }
      healingInProgress := true;
      LookAtTransport(ready);
    }

    /** The polling loop's test and what follows it; leaving runs the finally block. */
    method LookAtTransport(ready: bool)
      modifies this`healingInProgress, this`polling, this`settling
      ensures View() == Look(old(View()), ready)
    {
      if active && !ready {
        polling := polling + 1;
        return;
      }
      if !active || streamReady {
        healingInProgress := false;
        return;
      }
      settling := settling + 1;
    }

    method OnPollTimer(ready: bool)
      modifies this`healingInProgress, this`polling, this`settling
      ensures View() == Step(old(View()), PollTimer(ready))
    {
      if polling > 0 {
        polling := polling - 1;
        LookAtTransport(ready);
      }
    }

    /** A healer's last wait is over (src/client.ts:2509-2525); `recreates` is whether it called
        recreateStream, which threw if `fails`. */
    method OnSettleTimer(fails: bool) returns (recreates: bool)
      modifies this`settling, this`retrying, this`healingInProgress, this`streamReady, this`healed
      ensures View() == Step(old(View()), SettleTimer(fails))
      ensures recreates == Recreates(old(View()), SettleTimer(fails))
    {
      recreates := false;
      if settling == 0 {
        return;
      }
      settling := settling - 1;
      if active && !streamReady {
        recreates := true;
        if fails {
          retrying := retrying + 1;
        } else {
          streamReady := true;
          healed := healed + 1;
        }
      }
      healingInProgress := false;
    }

    /** The one-second retry wait of the catch block is over (src/client.ts:2514-2524). */
    method OnRetryTimer(ready: bool)
      modifies this`healingInProgress, this`polling, this`settling, this`retrying
      ensures View() == Step(old(View()), RetryTimer(ready))
    {
      if retrying > 0 {
        retrying := retrying - 1;
        StartHealing(ready);
        healingInProgress := false;
      }
    }

    method OnErrorArrives()
      modifies this`inErrorHandler
      ensures View() == Step(old(View()), ErrorArrives)
    {
      if active {
        inErrorHandler := true;
      }
    }
  }
}
