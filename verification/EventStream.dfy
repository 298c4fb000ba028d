/** createEventStream (src/client.ts:2454-2597): sends held back by a full write buffer, on a
    self-healing stream. */
module EventStream {
  import H = SelfHeal
  import opened Options
  import SelfHealProperties

  /** `drainQueue` holds the promises of held-back sends, numbered from 0. `listening` is
      whether the current stream has a one-shot drain listener attached. */
  datatype State = State(
    core: H.Core,
    drainQueue: seq<nat>,
    drainListenerAttached: bool,
    listening: bool,
    held: nat,
    resolved: multiset<nat>,
    rejected: multiset<nat>)

  /** `ok` is what the stream's write returned. */
  datatype Event =
    | Send(ok: bool)
    | Drain
    | Stream(event: H.Event)

  /** How send answers: settled at once, or held back until the stream drains. */
  datatype Outcome = Resolved | Reconnecting | Held(promise: nat)

  const OPENED := State(H.OPENED, [], false, false, 0, multiset{}, multiset{})

  function QueueRejected(s: State): State {
    s.(drainQueue := [], rejected := s.rejected + multiset(s.drainQueue), drainListenerAttached := false)
  }

  /** recreateStream first removes the old stream's listeners; a throw comes after that. */
  function ListenersRemoved(s: State, fails: bool): State {
    var silenced := s.(listening := false);
    if fails then silenced else silenced.(drainListenerAttached := false)
  }

  function Fails(e: H.Event): bool {
    match e
    case Resubscribe(fails) => fails
    case SettleTimer(fails) => fails
    case _ => false
  }

  function Step(s: State, e: Event): State {
    match e
    case Send(ok) =>
      if !s.core.active || !s.core.streamReady || ok then s
      else s.(drainQueue := s.drainQueue + [s.held], held := s.held + 1,
              drainListenerAttached := true,
              listening := s.listening || !s.drainListenerAttached)
    case Drain =>
      if !s.listening then s
      else s.(listening := false, drainListenerAttached := false, drainQueue := [],
              resolved := s.resolved + multiset(s.drainQueue))
    case Stream(event) =>
      var broken := if H.Breaks(s.core, event) then QueueRejected(s) else s;
      var recreated := if H.Recreates(s.core, event) then ListenersRemoved(broken, Fails(event)) else broken;
      recreated.(core := H.Step(s.core, event))
  }

  function Run(events: seq<Event>): State {
    if events == [] then OPENED else Step(Run(events[..|events| - 1]), events[|events| - 1])
  }

  /** In how many places the promise of held-back send `p` is. */
  function Places(s: State, p: nat): nat {
    multiset(s.drainQueue)[p] + s.resolved[p] + s.rejected[p]
  }

  /** No lost drain: nothing is held back on a broken stream, and what is held back on a ready
      one has a drain listener on that very stream. */
  ghost predicate DrainKept(s: State) {
    && (!s.core.streamReady ==> s.drainQueue == [] && !s.drainListenerAttached)
    && (s.drainQueue != [] ==> s.drainListenerAttached)
    && (s.drainListenerAttached ==> s.listening)
    && (forall p: nat :: Places(s, p) == if p < s.held then 1 else 0)
  }

  lemma SendKeepsDrain(s: State, ok: bool)
    requires DrainKept(s)
    ensures DrainKept(Step(s, Send(ok)))
  {
    var t := Step(s, Send(ok));
    if t != s {
      forall p: nat ensures Places(t, p) == if p < t.held then 1 else 0 {
        assert Places(s, p) == if p < s.held then 1 else 0;
      }
    }
  }

  lemma FlushKeepsPlaces(s: State, t: State)
    requires t.held == s.held && t.drainQueue == []
    requires || (t.resolved == s.resolved + multiset(s.drainQueue) && t.rejected == s.rejected)
             || (t.rejected == s.rejected + multiset(s.drainQueue) && t.resolved == s.resolved)
    ensures forall p: nat :: Places(t, p) == Places(s, p)
  {
  }

  lemma StreamKeepsDrain(s: State, e: H.Event)
    requires DrainKept(s)
    ensures DrainKept(Step(s, Stream(e)))
  {
    hide H.Step, H.Breaks, H.Recreates, Places;
    H.HealersSpareReadyStreams(s.core, e);
    var t := Step(s, Stream(e));
    if H.Breaks(s.core, e) {
      FlushKeepsPlaces(s, t);
    } else {
      SamePlaces(s, t);
    }
  }

  lemma SamePlaces(s: State, t: State)
    requires t.drainQueue == s.drainQueue && t.resolved == s.resolved && t.rejected == s.rejected
    ensures forall p: nat :: Places(t, p) == Places(s, p)
  {
  }

  lemma StepKeepsDrain(s: State, e: Event)
    requires DrainKept(s)
    ensures DrainKept(Step(s, e))
  {
    match e
    case Send(ok) => SendKeepsDrain(s, ok);
    case Drain =>
      if s.listening {
        FlushKeepsPlaces(s, Step(s, e));
      }
    case Stream(event) => StreamKeepsDrain(s, event);
  }

  /** Over every run with any number of healers: no lost drain, every held-back send in exactly
      one place, and at most one recreation per break. */
  lemma {:induction false} SelfHealAndDrain(events: seq<Event>)
    ensures var s := Run(events);
            && DrainKept(s) && H.Balanced(s.core)
            && s.core.healed + s.core.resubscribed <= s.core.breaks
  {
    hide Step, DrainKept;
    if events == [] {
      OpenedKeepsDrain();
    } else {
      var before, e := events[..|events| - 1], events[|events| - 1];
      SelfHealAndDrain(before);
      StepKeepsDrain(Run(before), e);
      StepBalanced(Run(before), e);
    }
  }

  lemma OpenedKeepsDrain()
    ensures DrainKept(OPENED)
  {
  }

  lemma StepBalanced(s: State, e: Event)
    requires H.Balanced(s.core)
    ensures H.Balanced(Step(s, e).core)
  {
    hide H.Step;
    if e.Stream? {
      H.StepBalanced(s.core, e.event);
    }
  }

  function StepAll(s: State, events: seq<Event>): State
    decreases |events|
  {
    if events == [] then s else StepAll(Step(s, events[0]), events[1..])
  }

  ghost predicate Drains(events: seq<Event>) {
    exists k :: 0 <= k < |events| && events[k].Drain?
  }

  /** close settles nothing that is held back: afterwards, whatever happens, it is resolved
      exactly when the old stream still drains, and never rejected. */
  lemma {:induction false} ClosedSettlesExactly(s: State, events: seq<Event>)
    requires !s.core.active && !s.core.inErrorHandler
    requires s.drainQueue != [] ==> s.listening
    ensures var t := StepAll(s, events);
            && t.rejected == s.rejected
            && t.drainQueue == (if Drains(events) then [] else s.drainQueue)
            && t.resolved == s.resolved + (if Drains(events) then multiset(s.drainQueue) else multiset{})
    decreases |events|
  {
    hide Step;
    if events != [] {
      var e, rest := events[0], events[1..];
      ClosedStep(s, e);
      ClosedSettlesExactly(Step(s, e), rest);
      assert Drains(events) <==> e.Drain? || Drains(rest) by {
        assert forall k | 0 <= k < |rest| :: rest[k] == events[k + 1];
      }
    }
  }

  lemma ClosedStep(s: State, e: Event)
    requires !s.core.active && !s.core.inErrorHandler
    requires s.drainQueue != [] ==> s.listening
    ensures var t := Step(s, e);
            && !t.core.active && !t.core.inErrorHandler && (t.drainQueue != [] ==> t.listening)
            && t.rejected == s.rejected
            && t.drainQueue == (if e.Drain? then [] else s.drainQueue)
            && t.resolved == s.resolved + (if e.Drain? then multiset(s.drainQueue) else multiset{})
  {
  }

  /** The stream's own events of a run. */
  function StreamEvents(events: seq<Event>): seq<H.Event> {
    SelfHealProperties.StreamEvents(events, AsStreamEvent)
  }

  function AsStreamEvent(e: Event): Option<H.Event> {
    if e.Stream? then Some(e.event) else None
  }

  /** Sends and drains do not disturb the healing: what is proved of its runs holds here. */
  lemma HealsAlone(events: seq<Event>)
    ensures Run(events).core == SelfHealProperties.Run(StreamEvents(events))
  {
    hide H.Step, H.Breaks, H.Recreates;
    SelfHealProperties.HealsAlone(events, AsStreamEvent, run => Run(run).core);
  }

  // What becomes of each held-back send.

  datatype Fate = NotHeld | Waits | Drained | Lost

  /** Does this event hold a send back: on an active handle with a ready stream whose buffer is
      full? */
  predicate HoldsBack(c: H.Core, e: Event) {
    e == Send(false) && c.active && c.streamReady
  }

  function CoreOf(events: seq<Event>): H.Core {
    SelfHealProperties.Run(StreamEvents(events))
  }

  function HeldCount(events: seq<Event>): nat {
    if events == [] then 0
    else
      var before := events[..|events| - 1];
      HeldCount(before) + if HoldsBack(CoreOf(before), events[|events| - 1]) then 1 else 0
  }

  /** The fate after one more event. */
  function NextFate(f: Fate, c: H.Core, count: nat, p: nat, e: Event): Fate {
    match f
    case NotHeld => if HoldsBack(c, e) && count == p then Waits else NotHeld
    case Waits =>
      if e == Drain then Drained
      else if e.Stream? && SelfHealProperties.Loses(c, e.event) then Lost
      else Waits
    case settled => settled
  }

  /** The fate of the `p`-th send held back, read off the events: the first drain, or the first
      loss of the stream, ends its wait. */
  function FateOf(events: seq<Event>, p: nat): Fate {
    if events == [] then NotHeld
    else
      var before := events[..|events| - 1];
      NextFate(FateOf(before, p), CoreOf(before), HeldCount(before), p, events[|events| - 1])
  }

  ghost predicate Shows(s: State, p: nat, f: Fate) {
    && s.resolved[p] == (if f == Drained then 1 else 0)
    && s.rejected[p] == (if f == Lost then 1 else 0)
    && multiset(s.drainQueue)[p] == (if f == Waits then 1 else 0)
    && (f == NotHeld <==> p >= s.held)
  }

  lemma ShowsNext(s: State, e: Event, p: nat, f: Fate)
    requires Shows(s, p, f) && (s.drainQueue != [] ==> s.listening)
    ensures Shows(Step(s, e), p, NextFate(f, s.core, s.held, p, e))
    ensures Step(s, e).held == s.held + if HoldsBack(s.core, e) then 1 else 0
  {
    match e
    case Send(ok) => ShowsSend(s, ok, p, f);
    case Drain => ShowsDrain(s, p, f);
    case Stream(event) => ShowsStream(s, event, p, f);
  }

  lemma ShowsSend(s: State, ok: bool, p: nat, f: Fate)
    requires Shows(s, p, f)
    ensures Shows(Step(s, Send(ok)), p, NextFate(f, s.core, s.held, p, Send(ok)))
    ensures Step(s, Send(ok)).held == s.held + if HoldsBack(s.core, Send(ok)) then 1 else 0
  {
    assert multiset(s.drainQueue + [s.held]) == multiset(s.drainQueue) + multiset{s.held};
  }

  lemma ShowsDrain(s: State, p: nat, f: Fate)
    requires Shows(s, p, f) && (s.drainQueue != [] ==> s.listening)
    ensures Shows(Step(s, Drain), p, NextFate(f, s.core, s.held, p, Drain))
    ensures Step(s, Drain).held == s.held
  {
  }

  lemma ShowsStream(s: State, event: H.Event, p: nat, f: Fate)
    requires Shows(s, p, f)
    ensures Shows(Step(s, Stream(event)), p, NextFate(f, s.core, s.held, p, Stream(event)))
    ensures Step(s, Stream(event)).held == s.held
  {
    BreaksIsLoses(s.core, event);
    hide H.Step, H.Breaks, H.Recreates, SelfHealProperties.Loses, Shows;
    var t := Step(s, Stream(event));
    if SelfHealProperties.Loses(s.core, event) {
      ShowsLost(s, p, f);
      ShowsSame(QueueRejected(s), t, p, if f == Waits then Lost else f);
    } else {
      ShowsSame(s, t, p, f);
    }
  }

  lemma BreaksIsLoses(c: H.Core, e: H.Event)
    ensures H.Breaks(c, e) <==> SelfHealProperties.Loses(c, e)
  {
  }

  lemma ShowsLost(s: State, p: nat, f: Fate)
    requires Shows(s, p, f)
    ensures Shows(QueueRejected(s), p, if f == Waits then Lost else f)
  {
  }

  lemma ShowsSame(s: State, t: State, p: nat, f: Fate)
    requires Shows(s, p, f)
    requires t.drainQueue == s.drainQueue && t.resolved == s.resolved && t.rejected == s.rejected && t.held == s.held
    ensures Shows(t, p, f)
  {
  }

  /** Every held-back send is resolved exactly when a drain comes before its stream is lost, and
      rejected exactly when the stream is lost first. */
  lemma {:induction false} FatesExactly(events: seq<Event>, p: nat)
    ensures Shows(Run(events), p, FateOf(events, p)) && Run(events).held == HeldCount(events)
  {
    if events == [] {
      NothingHeld(p);
    } else {
      hide Step, Shows, NextFate, CoreOf, HoldsBack;
      var before, e := events[..|events| - 1], events[|events| - 1];
      FatesExactly(before, p);
      DrainListened(before);
      CoreIs(before);
      ShowsNext(Run(before), e, p, FateOf(before, p));
    }
  }

  lemma NothingHeld(p: nat)
    ensures Shows(OPENED, p, NotHeld)
  {
  }

  lemma CoreIs(events: seq<Event>)
    ensures CoreOf(events) == Run(events).core
  {
    HealsAlone(events);
  }

  lemma DrainListened(events: seq<Event>)
    ensures Run(events).drainQueue != [] ==> Run(events).listening
  {
    SelfHealAndDrain(events);
  }

  /** The handle the application holds. */
  class EventStreamHandle {
    const core: H.HealingStream
    var drainQueue: seq<nat>
    var drainListenerAttached: bool
    var listening: bool
    var held: nat
    ghost var resolved: multiset<nat>
    ghost var rejected: multiset<nat>

    ghost function View(): State
      reads this, core
    {
      State(core.View(), drainQueue, drainListenerAttached, listening, held, resolved, rejected)
    }

    constructor ()
      ensures View() == OPENED && fresh(core)
    {
      core := new H.HealingStream();
      drainQueue, drainListenerAttached, listening, held := [], false, false, 0;
      resolved, rejected := multiset{}, multiset{};
    }

    /** breakStream (src/client.ts:2467-2474). */
    method BreakStream()
      modifies this, core
      ensures View() == QueueRejected(old(View()).(core := H.Broken(old(core.View()))))
    {
      core.Break();
      var staleDrain := drainQueue;
      drainQueue := [];
      RejectEach(staleDrain);
      drainListenerAttached := false;
    }

    method RejectEach(batch: seq<nat>)
      modifies this`rejected
      ensures rejected == old(rejected) + multiset(batch)
    {
      assert batch[..0] == [];
      for i := 0 to |batch|
        invariant rejected == old(rejected) + multiset(batch[..i])
      {
        assert batch[..i + 1] == batch[..i] + [batch[i]];
        rejected := rejected + multiset{batch[i]};
      }
      assert batch[..|batch|] == batch;
    }

    /** recreateStream (src/client.ts:2477-2485), except for marking the stream ready. */
    method ReplaceStream(fails: bool)
      modifies this`listening, this`drainListenerAttached
      ensures View() == ListenersRemoved(old(View()), fails)
    {
      listening := false;
      if fails {
        return;
      }
      drainListenerAttached := false;
    }

    method OnErrorHandled(ready: bool)
      modifies this, core
      ensures View() == Step(old(View()), Stream(H.ErrorHandled(ready)))
    {
      if core.inErrorHandler {
        core.inErrorHandler := false;
        BreakStream();
        core.StartHealing(ready);
      }
    }

    method OnEnd(ready: bool)
      modifies this, core
      ensures View() == Step(old(View()), Stream(H.StreamEnds(ready)))
    {
      if !core.active || core.healingInProgress {
        return;
      }
      BreakStream();
      core.StartHealing(ready);
    }

    method Resubscribe(fails: bool)
      modifies this, core
      ensures View() == Step(old(View()), Stream(H.Resubscribe(fails)))
    {
      if !core.active {
        return;
      }
      BreakStream();
      ReplaceStream(fails);
      if !fails {
        core.streamReady := true;
        core.resubscribed := core.resubscribed + 1;
      }
    }

    /** A healer's last wait is over (src/client.ts:2509-2525). */
    method OnSettleTimer(fails: bool)
      modifies this, core
      ensures View() == Step(old(View()), Stream(H.SettleTimer(fails)))
    {
      hide H.Step, H.Recreates;
      var recreates := core.OnSettleTimer(fails);
      if recreates {
        ReplaceStream(fails);
      }
    }

    /** send (src/client.ts:2576-2586), with ensureDrainListener. A closed handle resolves without
        writing anything. */
    method Send(ok: bool) returns (outcome: Outcome)
      modifies this
      ensures View() == Step(old(View()), Event.Send(ok))
      ensures outcome == Reconnecting <==> core.active && !core.streamReady
      ensures outcome == Resolved <==> !core.active || (core.streamReady && ok)
      ensures outcome.Held? ==> drainQueue == old(drainQueue) + [outcome.promise]
      ensures !outcome.Held? ==> View() == old(View())
    {
      if !core.active {
        return Resolved;
      }
      if !core.streamReady {
        return Reconnecting;
      }
      if ok {
        return Resolved;
      }
      outcome := Held(held);
      drainQueue := drainQueue + [held];
      held := held + 1;
      if !drainListenerAttached {
        drainListenerAttached := true;
        listening := true;
      }
    }

    method OnDrain()
      modifies this
      ensures View() == Step(old(View()), Drain)
    {
      if !listening {
        return;
      }
      listening := false;
      drainListenerAttached := false;
      var batch := drainQueue;
      drainQueue := [];
      resolved := resolved + multiset(batch);
    }

    /** close (src/client.ts:2590-2595): what is held back stays held back. */
    method Close()
      modifies core
      ensures View() == Step(old(View()), Stream(H.Close))
    {
      if !core.active {
        return;
      }
      core.active := false;
    }
  }
}
