/** createEventStoreStream (src/client.ts:2612-2747): pending sends on a self-healing stream. */
module EventStoreStream {
  import opened PendingSends
  import opened Runs
  import opened SendFates
  import H = SelfHeal
  import opened Options
  import SelfHealProperties

  datatype State = State(core: H.Core, ledger: Ledger)

  datatype Event =
    | Send(id: string)
    | Data(id: string, sent: bool)
    | Stream(event: H.Event)

  const OPENED := State(H.OPENED, EMPTY)

  /** breakStream rejects what waits, and so does close. */
  function Step(s: State, e: Event): State {
    match e
    case Send(id) =>
      if s.core.active && s.core.streamReady then s.(ledger := Accept(s.ledger, id)) else s
    case Data(id, sent) => s.(ledger := Answer(s.ledger, id, sent))
    case Stream(event) =>
      State(H.Step(s.core, event),
            if H.Breaks(s.core, event) || (event.Close? && s.core.active) then RejectAll(s.ledger) else s.ledger)
  }

  function Run(events: seq<Event>): State {
    if events == [] then OPENED else Step(Run(events[..|events| - 1]), events[|events| - 1])
  }

  /** A send does not reuse the id of one still waiting. */
  predicate Fresh(s: State, e: Event) {
    e.Send? ==> e.id !in s.ledger.pending
  }

  ghost predicate FreshIds(events: seq<Event>) {
    forall k: nat | k < |events| :: Fresh(Run(events[..k]), events[k])
  }

  /** Nothing waits on a handle that is closed or whose stream is not ready. */
  predicate NothingStranded(s: State) {
    !s.core.active || !s.core.streamReady ==> s.ledger.pending == map[]
  }

  lemma StepConservesExactly(s: State, e: Event)
    requires Conserved(s.ledger) && NothingStranded(s)
    ensures Conserved(Step(s, e).ledger) <==> Fresh(s, e)
    ensures NothingStranded(Step(s, e))
  {
    hide Conserved;
    match e
    case Send(id) => AcceptConservesExactly(s.ledger, id);
    case Data(id, sent) => AnswerConserves(s.ledger, id, sent);
    case Stream(event) => RejectAllConserves(s.ledger);
  }

  lemma RunStep(events: seq<Event>, k: nat)
    requires k < |events|
    ensures Run(events[..k + 1]) == Step(Run(events[..k]), events[k])
  {
    assert events[..k + 1][..k] == events[..k];
  }

  lemma AtStart()
    ensures Conserved(Run([]).ledger) && NothingStranded(Run([]))
  {
    assert Run([]) == OPENED;
  }

  /** Through data, errors, ends, reconnects, healers and close, each accepted send is in exactly
      one of waiting, resolved and rejected at all times, exactly when no send reuses the id of
      one still waiting; and then none waits on a closed or broken stream. */
  lemma SendsConservedExactly(events: seq<Event>)
    ensures (forall k: nat | k <= |events| :: Conserved(Run(events[..k]).ledger)) <==> FreshIds(events)
    ensures FreshIds(events) ==> Conserved(Run(events).ledger) && NothingStranded(Run(events))
  {
    hide Run, Step, Conserved, Fresh, NothingStranded;
    var n := |events|;
    AtStart();
    assert events[..0] == [] && events[..n] == events;
    var good := (k: nat) => k <= n && Conserved(Run(events[..k]).ledger) && NothingStranded(Run(events[..k]));
    var holds := (k: nat) => k <= n && Conserved(Run(events[..k]).ledger);
    var keeps := (k: nat) => k < n && Fresh(Run(events[..k]), events[k]);
    forall k: nat | k < n && good(k)
      ensures (good(k + 1) <==> keeps(k)) && (holds(k + 1) ==> good(k + 1))
    {
      RunStep(events, k);
      StepConservesExactly(Run(events[..k]), events[k]);
    }
    ThroughoutExactly(n, good, holds, keeps);
    forall k: nat | k <= n ensures holds(k) <==> Conserved(Run(events[..k]).ledger) {}
    forall k: nat | k < n ensures keeps(k) <==> Fresh(Run(events[..k]), events[k]) {}
    assert good(n) ==> NothingStranded(Run(events));
  }

  /** Recreations never exceed breaks, whatever the ids. */
  lemma {:induction false} RecreationsBounded(events: seq<Event>)
    ensures var c := Run(events).core; H.Balanced(c) && c.healed + c.resubscribed <= c.breaks
  {
    hide H.Step;
    if events != [] {
      var before, e := events[..|events| - 1], events[|events| - 1];
      RecreationsBounded(before);
      if e.Stream? {
        H.StepBalanced(Run(before).core, e.event);
      }
    }
  }

  /** The stream's own events of a run. */
  function StreamEvents(events: seq<Event>): seq<H.Event> {
    SelfHealProperties.StreamEvents(events, AsStreamEvent)
  }

  function AsStreamEvent(e: Event): Option<H.Event> {
    if e.Stream? then Some(e.event) else None
  }

  /** Sends and results do not disturb the healing: what is proved of its runs holds here. */
  lemma HealsAlone(events: seq<Event>)
    ensures Run(events).core == SelfHealProperties.Run(StreamEvents(events))
  {
    hide H.Step, H.Breaks, H.Recreates;
    SelfHealProperties.HealsAlone(events, AsStreamEvent, run => Run(run).core);
  }

  /** What the last event is to the sends. */
  function OpOf(events: seq<Event>): Op
    requires events != []
  {
    var c := SelfHealProperties.Run(StreamEvents(events[..|events| - 1]));
    match events[|events| - 1]
    case Send(id) => if c.active && c.streamReady then Accepted(id) else Other
    case Data(id, sent) => Answered(id, sent)
    case Stream(event) => if SelfHealProperties.Loses(c, event) || (event.Close? && c.active) then AllLost else Other
  }

  function OpsOf(events: seq<Event>): seq<Op> {
    if events == [] then [] else OpsOf(events[..|events| - 1]) + [OpOf(events)]
  }

  lemma {:induction false} LedgerFollows(events: seq<Event>)
    ensures Run(events).ledger == LedgerOf(OpsOf(events))
  {
    hide Accept, Answer, RejectAll, H.Step, StreamEvents;
    if events != [] {
      hide LedgerOf;
      var before := events[..|events| - 1];
      LedgerFollows(before);
      HealsAlone(before);
      LedgerNext(OpsOf(before), OpOf(events));
    }
  }

  /** Every accepted send is resolved exactly when the first event to end its wait is a result for
      its id that was sent, and rejected exactly when that is one that was not, an error or end
      that breaks the stream, a reconnect, or close. */
  lemma FatesExactly(events: seq<Event>, p: nat)
    requires FreshOps(OpsOf(events))
    ensures Shows(Run(events).ledger, p, FateOf(OpsOf(events), p))
  {
    LedgerFollows(events);
    FatesShown(OpsOf(events), p);
  }

  /** The handle the application holds. */
  class EventStoreStreamHandle {
    const core: H.HealingStream
    const table: PendingTable

    ghost function View(): State
      reads core, table
    {
      State(core.View(), table.View())
    }

    constructor ()
      ensures table.Valid() && View() == OPENED && fresh(core) && fresh(table)
    {
      core := new H.HealingStream();
      table := new PendingTable();
    }

    /** breakStream (src/client.ts:2626-2632). */
    method BreakStream()
      requires table.Valid()
      modifies core, table
      ensures table.Valid() && View() == State(H.Broken(old(core.View())), RejectAll(old(table.View())))
    {
      core.Break();
      table.RejectPending();
    }

    /** Rejected at once when the handle is closed or its stream broken, else waiting. */
    method Send(id: string) returns (outcome: Outcome)
      requires table.Valid()
      modifies table
      ensures table.Valid() && View() == Step(old(View()), Event.Send(id))
      ensures outcome == Outcome.Closed <==> !core.active
      ensures outcome == Reconnecting <==> core.active && !core.streamReady
      ensures outcome.Waiting? ==> id in table.pending && table.pending[id] == outcome.promise
      ensures !outcome.Waiting? ==> View() == old(View())
    {
      if !core.active {
        return Outcome.Closed;
      }
      if !core.streamReady {
        return Reconnecting;
      }
      var promise := table.Put(id);
      return Waiting(promise);
    }

    method OnData(id: string, sent: bool)
      requires table.Valid()
      modifies table
      ensures table.Valid() && View() == Step(old(View()), Data(id, sent))
    {
      table.Settle(id, sent);
    }

    method OnErrorHandled(ready: bool)
      requires table.Valid()
      modifies core, table
      ensures table.Valid() && View() == Step(old(View()), Stream(H.ErrorHandled(ready)))
    {
      if core.inErrorHandler {
        core.inErrorHandler := false;
        BreakStream();
        core.StartHealing(ready);
      }
    }

    method OnEnd(ready: bool)
      requires table.Valid()
      modifies core, table
      ensures table.Valid() && View() == Step(old(View()), Stream(H.StreamEnds(ready)))
    {
      if !core.active || core.healingInProgress {
        return;
      }
      BreakStream();
      core.StartHealing(ready);
    }

    method Resubscribe(fails: bool)
      requires table.Valid()
      modifies core, table
      ensures table.Valid() && View() == Step(old(View()), Stream(H.Resubscribe(fails)))
    {
      if !core.active {
        return;
      }
      BreakStream();
      if !fails {
        core.streamReady := true;
        core.resubscribed := core.resubscribed + 1;
      }
    }

    /** A healer's last wait is over (src/client.ts:2667-2681). */
    method OnSettleTimer(fails: bool)
      requires table.Valid()
      modifies core
      ensures table.Valid() && View() == Step(old(View()), Stream(H.SettleTimer(fails)))
    {
      hide H.Step;
      var _ := core.OnSettleTimer(fails);
    }

    method Close()
      requires table.Valid()
      modifies core, table
      ensures table.Valid() && View() == Step(old(View()), Stream(H.Close))
    {
      if !core.active {
        return;
      }
      core.active := false;
      table.RejectPending();
    }
  }
}
