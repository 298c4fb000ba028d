/** When at most one healer runs, when it does not, and which ends of a stream go unnoticed. */
module SelfHealProperties {
  import opened Options
  import opened Runs
  import opened SelfHeal

  /** The healers that run towards a recreation: those that poll and those on their last wait. */
  function Healers(c: Core): nat {
    c.polling + c.settling
  }

  /** The flag holds exactly while a healer runs, and there is only one. */
  predicate OneHealer(c: Core) {
    Healers(c) == if c.healing then 1 else 0
  }

  /** Is this event anything but the end of a failed healer's retry wait that starts another
      healer or finds one running? The cleanup of the failed healer clears the flag either way. */
  predicate KeepsFlag(c: Core, e: Event) {
    e.RetryTimer? && c.retrying > 0 ==> Healers(c) == 0 && (!c.active || (e.ready && c.streamReady))
  }

  /** Mutual exclusion of healers survives a step exactly under KeepsFlag. */
  lemma StepKeepsOneHealerExactly(c: Core, e: Event)
    requires OneHealer(c)
    ensures OneHealer(Step(c, e)) <==> KeepsFlag(c, e)
  {
  }

  function Run(events: seq<Event>): Core {
    if events == [] then OPENED else Step(Run(events[..|events| - 1]), events[|events| - 1])
  }

  lemma RunStep(events: seq<Event>, k: nat)
    requires k < |events|
    ensures Run(events[..k + 1]) == Step(Run(events[..k]), events[k])
  {
    assert events[..k + 1][..k] == events[..k];
  }

  /** In a whole run the flag is right at every moment exactly when every step keeps it. */
  lemma OneHealerThroughoutExactly(events: seq<Event>)
    ensures (forall k: nat | k <= |events| :: OneHealer(Run(events[..k]))) <==>
            (forall k: nat | k < |events| :: KeepsFlag(Run(events[..k]), events[k]))
  {
    hide Run, Step, OneHealer, KeepsFlag;
    var n := |events|;
    AtStart();
    assert events[..0] == [];
    var good := (k: nat) => k <= n && OneHealer(Run(events[..k]));
    var keeps := (k: nat) => k < n && KeepsFlag(Run(events[..k]), events[k]);
    forall k: nat | k < n && good(k) ensures good(k + 1) <==> keeps(k) {
      RunStep(events, k);
      StepKeepsOneHealerExactly(Run(events[..k]), events[k]);
    }
    ThroughoutExactly(n, good, good, keeps);
    forall k: nat | k <= n ensures good(k) <==> OneHealer(Run(events[..k])) {}
    forall k: nat | k < n ensures keeps(k) <==> KeepsFlag(Run(events[..k]), events[k]) {}
  }

  lemma AtStart()
    ensures OneHealer(Run([])) && EndNoticed(Run([]))
  {
  }

  /** No recreation fails in this run. */
  predicate NoFailure(events: seq<Event>) {
    forall k :: 0 <= k < |events| && events[k].SettleTimer? ==> !events[k].fails
  }

  /** As long as no recreation fails, at most one healer runs, and the flag tells. */
  lemma {:induction false} OneHealerUntilFailure(events: seq<Event>)
    requires NoFailure(events)
    ensures OneHealer(Run(events)) && Run(events).retrying == 0
  {
    if events != [] {
      var before, e := events[..|events| - 1], events[|events| - 1];
      OneHealerUntilFailure(before);
      StepKeepsOneHealerExactly(Run(before), e);
      NothingRetries(Run(before), e);
    }
  }

  lemma NothingRetries(c: Core, e: Event)
    requires c.retrying == 0 && (e.SettleTimer? ==> !e.fails)
    ensures Step(c, e).retrying == 0
  {
  }

  /** After one failed recreation, a retry that finds the transport down, and one more stream
      error, two healers run and the flag is set for the second only. */
  lemma TwoHealersAfterFailure()
    ensures var failed := [ErrorArrives, ErrorHandled(true), SettleTimer(true)];
            var retried := failed + [RetryTimer(false)];
            var again := retried + [ErrorArrives, ErrorHandled(false)];
            && !OneHealer(Run(retried)) && Healers(Run(retried)) == 1 && !Run(retried).healing
            && Healers(Run(again)) == 2 && Run(again).healing
  {
    hide Run;
    var failed := [ErrorArrives, ErrorHandled(true), SettleTimer(true)];
    var retried := failed + [RetryTimer(false)];
    FailedRun();
    RunFrom(Run(failed), failed, [RetryTimer(false)]);
    RunFrom(Run(retried), retried, [ErrorArrives, ErrorHandled(false)]);
  }

  lemma FailedRun()
    ensures Run([ErrorArrives, ErrorHandled(true), SettleTimer(true)]) ==
            OPENED.(streamReady := false, retrying := 1, breaks := 1)
  {
    var failed := [ErrorArrives, ErrorHandled(true), SettleTimer(true)];
    RunFrom(OPENED, [], failed);
    assert [] + failed == failed;
  }

  function StepAll(c: Core, events: seq<Event>): Core
    decreases |events|
  {
    if events == [] then c else StepAll(Step(c, events[0]), events[1..])
  }

  lemma {:induction false} RunFrom(c: Core, before: seq<Event>, events: seq<Event>)
    requires c == Run(before)
    ensures Run(before + events) == StepAll(c, events)
    decreases |events|
  {
    hide Step;
    if events == [] {
      assert before + events == before;
    } else {
      assert (before + [events[0]])[..|before|] == before;
      RunFrom(Step(c, events[0]), before + [events[0]], events[1..]);
      assert before + [events[0]] + events[1..] == before + events;
    }
  }

  // Ends of a stream.

  /** The end of an active handle's stream leaves it marked ready exactly when a healer is marked
      as running while the stream is ready. */
  lemma EndBreaksExactly(c: Core, ready: bool)
    requires c.active
    ensures !Step(c, StreamEnds(ready)).streamReady <==> !c.streamReady || !c.healing
  {
  }

  /** Such a run: an error starts a healer that polls, a reconnect makes the stream ready, and
      the new stream ends. The healer then finds nothing to do and stops, so the ended stream
      stays marked ready with nobody to heal it. */
  lemma UnnoticedEnd()
    ensures var events := [ErrorArrives, ErrorHandled(false), Resubscribe(false)];
            && Run(events).active && Run(events).streamReady && Run(events).healing
            && Run(events + [StreamEnds(true)]) == Run(events)
            && var later := Run(events + [StreamEnds(true), PollTimer(true)]);
               later.streamReady && Healers(later) == 0 && later.retrying == 0
  {
    var events := [ErrorArrives, ErrorHandled(false), Resubscribe(false)];
    RunFrom(OPENED, [], events);
    RunFrom(Run(events), events, [StreamEnds(true)]);
    RunFrom(Run(events), events, [StreamEnds(true), PollTimer(true)]);
  }

  /** Would the end of the stream now be noticed? */
  predicate EndNoticed(c: Core) {
    c.streamReady ==> !c.healing
  }

  /** A reconnect that succeeds while the flag is set: the only step to an unnoticed end. */
  predicate Overtakes(c: Core, e: Event) {
    e == Resubscribe(false) && c.active && c.healing
  }

  lemma StepEndNoticedExactly(c: Core, e: Event)
    requires EndNoticed(c)
    ensures EndNoticed(Step(c, e)) <==> !Overtakes(c, e)
  {
  }

  /** In a whole run every end would be noticed, at every moment, exactly when no reconnect
      succeeds while the flag is set; failing recreations do not matter. */
  lemma EndsNoticedThroughoutExactly(events: seq<Event>)
    ensures (forall k: nat | k <= |events| :: EndNoticed(Run(events[..k]))) <==>
            (forall k: nat | k < |events| :: !Overtakes(Run(events[..k]), events[k]))
  {
    hide Run, Step, EndNoticed, Overtakes;
    var n := |events|;
    AtStart();
    assert events[..0] == [];
    var good := (k: nat) => k <= n && EndNoticed(Run(events[..k]));
    var keeps := (k: nat) => k < n && !Overtakes(Run(events[..k]), events[k]);
    forall k: nat | k < n && good(k) ensures good(k + 1) <==> keeps(k) {
      RunStep(events, k);
      StepEndNoticedExactly(Run(events[..k]), events[k]);
    }
    ThroughoutExactly(n, good, good, keeps);
    forall k: nat | k <= n ensures good(k) <==> EndNoticed(Run(events[..k])) {}
    forall k: nat | k < n ensures keeps(k) <==> !Overtakes(Run(events[..k]), events[k]) {}
  }

  /** So no run without a reconnect has an unnoticed end. */
  lemma EndsNoticedWithoutReconnect(events: seq<Event>)
    requires forall k :: 0 <= k < |events| ==> !events[k].Resubscribe?
    ensures EndNoticed(Run(events))
  {
    hide Run, EndNoticed;
    EndsNoticedThroughoutExactly(events);
    assert events[..|events|] == events;
  }

  // A broken stream is tended.

  /** Some healer works on it, or waits to. */
  predicate Tended(c: Core) {
    c.active && !c.streamReady ==> c.polling + c.settling + c.retrying > 0
  }

  /** While the flag is set, a healer runs. */
  predicate FlagMeansHealer(c: Core) {
    c.healing ==> Healers(c) > 0
  }

  /** A reconnect that fails with no healer about: the only step to a stream nobody tends. */
  predicate Abandons(c: Core, e: Event) {
    e == Resubscribe(true) && c.active && c.polling + c.settling + c.retrying == 0
  }

  lemma StepTendedExactly(c: Core, e: Event)
    requires Tended(c) && FlagMeansHealer(c)
    ensures Tended(Step(c, e)) <==> !Abandons(c, e)
    ensures FlagMeansHealer(Step(c, e))
  {
  }

  lemma TendedAtStart()
    ensures Tended(Run([])) && FlagMeansHealer(Run([]))
  {
  }

  /** In a whole run a broken stream of an active handle has a healer at every moment, exactly when
      no reconnect fails with no healer about. */
  lemma TendedThroughoutExactly(events: seq<Event>)
    ensures (forall k: nat | k <= |events| :: Tended(Run(events[..k]))) <==>
            (forall k: nat | k < |events| :: !Abandons(Run(events[..k]), events[k]))
  {
    hide Run, Step, Tended, FlagMeansHealer, Abandons;
    var n := |events|;
    TendedAtStart();
    assert events[..0] == [];
    var good := (k: nat) => k <= n && Tended(Run(events[..k])) && FlagMeansHealer(Run(events[..k]));
    var holds := (k: nat) => k <= n && Tended(Run(events[..k]));
    var keeps := (k: nat) => k < n && !Abandons(Run(events[..k]), events[k]);
    forall k: nat | k < n && good(k)
      ensures (good(k + 1) <==> keeps(k)) && (holds(k + 1) ==> good(k + 1))
    {
      RunStep(events, k);
      StepTendedExactly(Run(events[..k]), events[k]);
    }
    ThroughoutExactly(n, good, holds, keeps);
    forall k: nat | k <= n ensures holds(k) <==> Tended(Run(events[..k])) {}
    forall k: nat | k < n ensures keeps(k) <==> !Abandons(Run(events[..k]), events[k]) {}
  }

  /** A healer that finds the transport ready goes on to its last wait, and after that wait the
      stream is ready again unless creating it throws. */
  lemma HealerHeals(c: Core)
    requires c.active && !c.streamReady
    ensures c.polling > 0 ==> Step(c, PollTimer(true)).settling == c.settling + 1
    ensures c.retrying > 0 && !c.healing ==> Step(c, RetryTimer(true)).settling == c.settling + 1
    ensures c.settling > 0 ==> var t := Step(c, SettleTimer(false)); t.streamReady && t.healed == c.healed + 1
    ensures c.settling > 0 ==> Step(c, SettleTimer(true)).retrying == c.retrying + 1
    ensures var t := Step(c, Resubscribe(false)); t.streamReady && t.resubscribed == c.resubscribed + 1
  {
  }

  /** Does this event end the current stream: the end of an error handler that began, an end that
      is noticed, a reconnect? */
  predicate Loses(c: Core, e: Event) {
    match e
    case ErrorHandled(_) => c.inErrorHandler
    case StreamEnds(_) => c.active && !c.healing
    case Resubscribe(_) => c.active
    case _ => false
  }

  /** A stream breaks exactly then, and a handler begins with an error on an active handle. */
  lemma BreaksExactly(c: Core, e: Event)
    ensures Step(c, e).breaks == c.breaks + if Loses(c, e) && c.streamReady then 1 else 0
    ensures Loses(c, e) && !(e == Resubscribe(false)) ==> !Step(c, e).streamReady
    ensures Step(c, e).inErrorHandler <==>
            (c.inErrorHandler && !e.ErrorHandled?) || (e.ErrorArrives? && c.active)
    ensures Step(c, e).active <==> c.active && !e.Close?
  {
  }

  // Handles built on such a stream.

  /** The stream's own events among a handle's, as `pick` finds them. */
  function StreamEvents<E>(events: seq<E>, pick: E -> Option<Event>): seq<Event> {
    if events == [] then []
    else
      var last := pick(events[|events| - 1]);
      StreamEvents(events[..|events| - 1], pick) + if last.Some? then [last.value] else []
  }

  /** A core that takes the steps of its stream's events and no others is in the state those
      events alone put it in. */
  lemma {:induction false} HealsAlone<E>(events: seq<E>, pick: E -> Option<Event>, core: seq<E> -> Core)
    requires core([]) == OPENED
    requires forall run: seq<E> | run != [] ::
               var last := pick(run[|run| - 1]);
               core(run) == if last.Some? then Step(core(run[..|run| - 1]), last.value) else core(run[..|run| - 1])
    ensures core(events) == Run(StreamEvents(events, pick))
  {
    hide Step;
    if events != [] {
      var before, last := events[..|events| - 1], pick(events[|events| - 1]);
      HealsAlone(before, pick, core);
      var done := StreamEvents(before, pick);
      if last.Some? {
        assert (done + [last.value])[..|done|] == done;
      } else {
        assert done + [] == done;
      }
    }
  }

  /** A healer goes on to its last wait only when it finds the transport ready; else it polls on. */
  lemma HealersWaitForTransport(c: Core, e: Event)
    ensures Step(c, e).settling > c.settling ==>
              match e
              case ErrorHandled(ready) => ready
              case StreamEnds(ready) => ready
              case PollTimer(ready) => ready
              case RetryTimer(ready) => ready
              case _ => false
    ensures c.active && c.polling > 0 ==> Step(c, PollTimer(false)) == c
    ensures c.active && c.inErrorHandler && !c.healing ==>
              Step(c, ErrorHandled(false)).polling == c.polling + 1
  {
  }
}
