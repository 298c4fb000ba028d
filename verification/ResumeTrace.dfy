/** What a resuming subscription dispatches, read off the deliveries. */
module ResumeTrace {
  import opened Options
  import opened ResumeModel

  /** How many streams were opened: the first one, and one for each reconnect before cancel. */
  function Opens(events: seq<Event>): nat {
    if events == [] then 1
    else Opens(events[..|events| - 1]) + if Reconnects(events) then 1 else 0
  }

  predicate Reconnects(events: seq<Event>)
    requires events != []
  {
    events[|events| - 1].Reconnect? && Cancel !in events
  }

  /** Does the last event deliver a stored event on the stream opened last, before any cancel? */
  predicate Delivers(log: seq<int>, first: nat, events: seq<Event>)
    requires events != []
  {
    var before, e := events[..|events| - 1], events[|events| - 1];
    var w := Run(log, first, before);
    && e.Deliver? && Cancel !in before && e.stream == Opens(before) - 1
    && e.stream in w.cursors && w.cursors[e.stream] < |w.log|
  }

  /** The stored sequences delivered so, in order. */
  function Received(log: seq<int>, first: nat, events: seq<Event>): seq<int> {
    if events == [] then []
    else
      var before, e := events[..|events| - 1], events[|events| - 1];
      var w := Run(log, first, before);
      if Delivers(log, first, events) then Received(log, first, before) + [w.log[w.cursors[e.stream]]]
      else Received(log, first, before)
  }

  lemma LastEvent(events: seq<Event>)
    requires events != []
    ensures Cancel in events <==> Cancel in events[..|events| - 1] || events[|events| - 1] == Cancel
  {
    assert events == events[..|events| - 1] + [events[|events| - 1]];
  }

  /** The client as the events tell of it. */
  ghost predicate Tells(log: seq<int>, first: nat, events: seq<Event>) {
    var c := Run(log, first, events).client;
    && (c.closed <==> Cancel in events) && (c.registered <==> Cancel !in events)
    && c.streams == Opens(events) && c.stream == Opens(events) - 1 && c.listening == {c.stream}
    && c.dispatched == Received(log, first, events)
    && (c.registered ==>
          c.lastSequence == if c.dispatched == [] then None else Some(c.dispatched[|c.dispatched| - 1]))
  }

  /** Over every run: whatever was delivered on the stream opened last, until cancel, was dispatched,
      in that order, and nothing else; its last is what the tracker remembers. */
  lemma {:induction false} DispatchedExactly(log: seq<int>, first: nat, events: seq<Event>)
    ensures Tells(log, first, events)
  {
    if events != [] {
      LastEvent(events);
      DispatchedExactly(log, first, events[..|events| - 1]);
    }
  }

  // Where the dispatched stretch starts.

  /** The index of the server's choice for the requested position, by the stream that was opened
      last before anything was delivered. */
  function StartIndex(log: seq<int>, first: nat, events: seq<Event>): nat {
    if events == [] then (if first <= |log| then first else |log|)
    else
      var before, e := events[..|events| - 1], events[|events| - 1];
      var stored := Run(log, first, before).log;
      if Reconnects(events) && Received(log, first, before) == [] then
        (if e.first <= |stored| then e.first else |stored|)
      else StartIndex(log, first, before)
  }

  /** The dispatched sequences are the stored ones from `start` to where the current stream is. */
  ghost predicate Reached(w: World, start: nat) {
    && w.client.stream in w.cursors && start <= w.cursors[w.client.stream] <= |w.log|
    && w.client.dispatched == w.log[start..w.cursors[w.client.stream]]
  }

  /** Where they start after one more event. */
  function NextStart(w: World, e: Event, start: nat): nat {
    if e.Reconnect? && w.client.dispatched == [] then (if e.first <= |w.log| then e.first else |w.log|) else start
  }

  lemma StepReached(w: World, e: Event, start: nat)
    requires Inv(w) && w.client.registered && Reached(w, start) && e != Cancel
    ensures Reached(Step(w, e), NextStart(w, e, start))
  {
    match e
    case Store(q) => StoreReached(w, q, start);
    case Deliver(k) => DeliverReached(w, k, start);
    case Reconnect(first) => ReconnectReached(w, first, start);
  }

  lemma StoreReached(w: World, q: int, start: nat)
    requires Reached(w, start)
    ensures Reached(Step(w, Store(q)), start)
  {
    var next := Step(w, Store(q));
    var cursor := w.cursors[w.client.stream];
    assert next.log[start..cursor] == w.log[start..cursor];
  }

  lemma ReconnectReached(w: World, first: nat, start: nat)
    requires Inv(w) && w.client.registered && Reached(w, start)
    ensures Reached(Step(w, Reconnect(first)), NextStart(w, Reconnect(first), start))
  {
    if w.client.dispatched != [] {
      ResumesThere(w.log, w.cursors[w.client.stream]);
    }
  }

  lemma DeliverReached(w: World, k: nat, start: nat)
    requires Inv(w) && w.client.registered && Reached(w, start)
    ensures Reached(Step(w, Deliver(k)), start)
  {
    var cursor := w.cursors[w.client.stream];
    if cursor < |w.log| {
      assert w.log[start..cursor + 1] == w.log[start..cursor] + [w.log[cursor]];
    }
  }

  /** Until cancel the dispatched sequences are the whole stored stretch from the server's choice to
      where the current stream is. */
  lemma {:induction false} DispatchedFromStart(log: seq<int>, first: nat, events: seq<Event>)
    requires Increasing(log) && Cancel !in events
    ensures Reached(Run(log, first, events), StartIndex(log, first, events))
  {
    if events != [] {
      var before, e := events[..|events| - 1], events[|events| - 1];
      LastEvent(events);
      DispatchedFromStart(log, first, before);
      DispatchedExactly(log, first, before);
      RunInv(log, first, before);
      StartNext(log, first, events);
      hide Step, Inv, Reached, StartIndex, Received, Opens;
      StepReached(Run(log, first, before), e, StartIndex(log, first, before));
    }
  }

  lemma StartNext(log: seq<int>, first: nat, events: seq<Event>)
    requires events != [] && Cancel !in events && Tells(log, first, events[..|events| - 1])
    ensures var before := events[..|events| - 1];
            StartIndex(log, first, events) ==
            NextStart(Run(log, first, before), events[|events| - 1], StartIndex(log, first, before))
  {
    hide Run, Received, Opens;
  }

  /** Once the current stream of a subscription that is not cancelled has delivered all that is
      stored, everything stored from the server's choice on was dispatched, and nothing else. */
  lemma AllDispatched(log: seq<int>, first: nat, events: seq<Event>)
    requires Increasing(log) && Cancel !in events
    ensures var w := Run(log, first, events);
            && w.client.stream in w.cursors && StartIndex(log, first, events) <= |w.log|
            && (w.cursors[w.client.stream] >= |w.log| ==>
                  w.client.dispatched == w.log[StartIndex(log, first, events)..])
  {
    hide Run, StartIndex;
    DispatchedFromStart(log, first, events);
  }
}
