/** createQueueUpstream (src/client.ts:2274-2354). */
module QueueUpstream {
  import opened PendingSends
  import opened Runs
  import opened SendFates

  datatype State = State(active: bool, ledger: Ledger)

  datatype Event =
    | Send(id: string)
    | Data(id: string, isError: bool)
    | StreamError
    | StreamEnd
    | Resubscribe
    | Close

  const OPENED := State(true, EMPTY)

  function Step(s: State, e: Event): State {
    match e
    case Send(id) => if s.active then s.(ledger := Accept(s.ledger, id)) else s
    case Data(id, isError) => s.(ledger := Answer(s.ledger, id, !isError))
    case StreamError | StreamEnd | Resubscribe => if s.active then s.(ledger := RejectAll(s.ledger)) else s
    case Close => if s.active then State(false, RejectAll(s.ledger)) else s
  }

  function Run(events: seq<Event>): State {
    if events == [] then OPENED else Step(Run(events[..|events| - 1]), events[|events| - 1])
  }

  /** A send does not reuse the id of one still waiting. */
  predicate Fresh(s: State, e: Event) {
    e.Send? ==> e.id !in s.ledger.pending
  }

  /** All that fresh request ids are needed for. */
  ghost predicate FreshIds(events: seq<Event>) {
    forall k: nat | k < |events| :: Fresh(Run(events[..k]), events[k])
  }

  /** Once the handle is inactive nothing waits. */
  predicate NothingStranded(s: State) {
    !s.active ==> s.ledger.pending == map[]
  }

  lemma StepConservesExactly(s: State, e: Event)
    requires Conserved(s.ledger) && NothingStranded(s)
    ensures Conserved(Step(s, e).ledger) <==> Fresh(s, e)
    ensures NothingStranded(Step(s, e))
  {
    hide Conserved;
    match e
    case Send(id) => AcceptConservesExactly(s.ledger, id);
    case Data(id, isError) => AnswerConserves(s.ledger, id, !isError);
    case _ => RejectAllConserves(s.ledger);
  }

  lemma RunStep(events: seq<Event>, k: nat)
    requires k < |events|
    ensures Run(events[..k + 1]) == Step(Run(events[..k]), events[k])
  {
    assert events[..k + 1][..k] == events[..k];
  }

  lemma AtStart()
    ensures Conserved(Run([]).ledger) && NothingStranded(Run([]))
  {
    assert Run([]) == OPENED;
  }

  /** At all times each accepted send is in exactly one of waiting, resolved and rejected, exactly
      when no send reuses the id of one still waiting; and then nothing waits on an inactive
      handle. */
  lemma SendsConservedExactly(events: seq<Event>)
    ensures (forall k: nat | k <= |events| :: Conserved(Run(events[..k]).ledger)) <==> FreshIds(events)
    ensures FreshIds(events) ==> Conserved(Run(events).ledger) && NothingStranded(Run(events))
  {
    hide Run, Step, Conserved, Fresh, NothingStranded;
    var n := |events|;
    AtStart();
    assert events[..0] == [] && events[..n] == events;
    var good := (k: nat) => k <= n && Conserved(Run(events[..k]).ledger) && NothingStranded(Run(events[..k]));
    var holds := (k: nat) => k <= n && Conserved(Run(events[..k]).ledger);
    var keeps := (k: nat) => k < n && Fresh(Run(events[..k]), events[k]);
    forall k: nat | k < n && good(k)
      ensures (good(k + 1) <==> keeps(k)) && (holds(k + 1) ==> good(k + 1))
    {
      RunStep(events, k);
      StepConservesExactly(Run(events[..k]), events[k]);
    }
    ThroughoutExactly(n, good, holds, keeps);
    forall k: nat | k <= n ensures holds(k) <==> Conserved(Run(events[..k]).ledger) {}
    forall k: nat | k < n ensures keeps(k) <==> Fresh(Run(events[..k]), events[k]) {}
    assert good(n) ==> NothingStranded(Run(events));
  }

  /** No close has come. */
  predicate Open(events: seq<Event>) {
    Close !in events
  }

  /** What an event is to the sends, on a handle that is open or not. */
  function OpOf(open: bool, e: Event): Op {
    match e
    case Send(id) => if open then Accepted(id) else Other
    case Data(id, isError) => Answered(id, !isError)
    case StreamError | StreamEnd | Resubscribe | Close => if open then AllLost else Other
  }

  function OpsOf(events: seq<Event>): seq<Op> {
    if events == [] then []
    else
      var before := events[..|events| - 1];
      OpsOf(before) + [OpOf(Open(before), events[|events| - 1])]
  }

  lemma OpApplies(s: State, e: Event)
    ensures Step(s, e).ledger == Applied(s.ledger, OpOf(s.active, e))
    ensures Step(s, e).active <==> s.active && e != Close
  {
  }

  lemma OpenNext(events: seq<Event>)
    requires events != []
    ensures Open(events) <==> Open(events[..|events| - 1]) && events[|events| - 1] != Close
  {
    assert events == events[..|events| - 1] + [events[|events| - 1]];
  }

  lemma {:induction false} LedgerFollows(events: seq<Event>)
    ensures Run(events).ledger == LedgerOf(OpsOf(events)) && Run(events).active == Open(events)
  {
    if events != [] {
      hide Step, Applied, OpOf, Open, LedgerOf;
      var before, e := events[..|events| - 1], events[|events| - 1];
      LedgerFollows(before);
      OpApplies(Run(before), e);
      OpenNext(events);
      LedgerNext(OpsOf(before), OpOf(Open(before), e));
    }
  }

  /** Every accepted send is resolved exactly when the first event to end its wait is a response to
      its id without error, and rejected exactly when that is one with an error, an error or end of
      the stream, a reconnect, or close. */
  lemma FatesExactly(events: seq<Event>, p: nat)
    requires FreshOps(OpsOf(events))
    ensures Shows(Run(events).ledger, p, FateOf(OpsOf(events), p))
  {
    LedgerFollows(events);
    FatesShown(OpsOf(events), p);
  }

  /** The handle itself: its closure variables, updated in place. */
  class QueueUpstreamHandle {
    var active: bool
    const table: PendingTable

    ghost function View(): State
      reads this, table
    {
      State(active, table.View())
    }

    constructor ()
      ensures table.Valid() && View() == OPENED && fresh(table)
    {
      active := true;
      table := new PendingTable();
    }

    /** Rejected at once when the handle is closed, else waiting under the request's id. */
    method Send(id: string) returns (outcome: Outcome)
      requires table.Valid()
      modifies table
      ensures table.Valid() && View() == Step(old(View()), Event.Send(id))
      ensures outcome == Outcome.Closed <==> !active
      ensures active ==> outcome.Waiting? && id in table.pending && table.pending[id] == outcome.promise
      ensures !active ==> View() == old(View())
    {
      if !active {
        return Outcome.Closed;
      }
      var promise := table.Put(id);
      return Waiting(promise);
    }

    method OnData(refRequestId: string, isError: bool)
      requires table.Valid()
      modifies table
      ensures table.Valid() && View() == Step(old(View()), Data(refRequestId, isError))
    {
      table.Settle(refRequestId, !isError);
    }

    /** onError and onEnd, and resubscribe up to the new stream. */
    method OnStreamLost(e: Event)
      requires table.Valid()
      requires e in {StreamError, StreamEnd, Event.Resubscribe}
      modifies table
      ensures table.Valid() && View() == Step(old(View()), e)
    {
      if !active {
        return;
      }
      table.RejectPending();
    }

    method Close()
      requires table.Valid()
      modifies this, table
      ensures table.Valid() && View() == Step(old(View()), Event.Close)
    {
      if !active {
        return;
      }
      active := false;
      table.RejectPending();
    }
  }
}
