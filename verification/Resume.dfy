/** The subscription tracker (src/internal/transport/subscription-tracker.ts) and the handle of
    an events-store subscription. */
module Resume {
  import opened Options
  import opened ResumeModel

  datatype Pattern = Events | EventsStore | Commands | Queries | QueueStream

  datatype TrackedSubscription = TrackedSubscription(pattern: Pattern, lastSequence: Option<int>)

  class SubscriptionTracker {
    var subscriptions: map<string, TrackedSubscription>

    constructor ()
      ensures subscriptions == map[]
    {
      subscriptions := map[];
    }

    method Register(id: string, pattern: Pattern)
      modifies this
      ensures subscriptions == old(subscriptions)[id := TrackedSubscription(pattern, None)]
    {
      subscriptions := subscriptions[id := TrackedSubscription(pattern, None)];
    }

    method Unregister(id: string)
      modifies this
      ensures subscriptions == old(subscriptions) - {id}
    {
      subscriptions := subscriptions - {id};
    }

    method UpdateSequence(id: string, sequence: int)
      modifies this
      ensures id in old(subscriptions) && old(subscriptions)[id].pattern == EventsStore ==>
                subscriptions == old(subscriptions)[id := TrackedSubscription(EventsStore, Some(sequence))]
      ensures id !in old(subscriptions) || old(subscriptions)[id].pattern != EventsStore ==>
                subscriptions == old(subscriptions)
    {
      if id in subscriptions && subscriptions[id].pattern == EventsStore {
        subscriptions := subscriptions[id := subscriptions[id].(lastSequence := Some(sequence))];
      }
    }
  }

  class EventsStoreSubscription {
    const tracker: SubscriptionTracker
    const subId: string
    var stream: nat
    var streams: nat
    var closed: bool
    ghost var listening: set<nat>
    ghost var dispatched: seq<int>

    ghost predicate Valid()
      reads this, tracker
    {
      subId in tracker.subscriptions ==> tracker.subscriptions[subId].pattern == EventsStore
    }

    ghost function View(): Client
      reads this, tracker
    {
      var registered := subId in tracker.subscriptions;
      Client(registered, if registered then tracker.subscriptions[subId].lastSequence else None,
             stream, listening, streams, closed, dispatched)
    }

    /** subscribeToEventsStore; the first stream starts where the subscriber asked. */
    constructor (tracker: SubscriptionTracker, subId: string)
      requires subId !in tracker.subscriptions
      modifies tracker
      ensures Valid() && this.tracker == tracker && this.subId == subId && View() == SUBSCRIBED
      ensures tracker.subscriptions - {subId} == old(tracker.subscriptions)
    {
      this.tracker, this.subId := tracker, subId;
      stream, streams, closed, listening, dispatched := 0, 1, false, {0}, [];
      new;
      tracker.Register(subId, EventsStore);
    }

    /** Opens a stream and listens to it. */
    method CreateAndAttachStream() returns (newStream: nat, start: Start)
      requires Valid()
      modifies this
      ensures newStream == old(streams) && start == StartOf(old(View()))
      ensures View() == old(View()).(listening := old(listening) + {newStream}, streams := newStream + 1)
    {
      start := Requested;
      if subId in tracker.subscriptions && tracker.subscriptions[subId].lastSequence.Some? {
        start := AtSequence(tracker.subscriptions[subId].lastSequence.value + 1);
      }
      newStream := streams;
      streams := streams + 1;
      listening := listening + {newStream};
    }

    /** The resubscribe callback, called by the tracker for registered subscriptions. */
    method Resubscribe() returns (start: Start)
      requires Valid() && subId in tracker.subscriptions
      modifies this
      ensures View() == Rebound(old(View())) && start == StartOf(old(View()))
    {
      var newStream;
      newStream, start := CreateAndAttachStream();
      Rebind(newStream);
    }

    method Rebind(newStream: nat)
      modifies this
      ensures View() == old(View()).(stream := newStream, listening := old(listening) - {old(stream)})
    {
      listening := listening - {stream};
      stream := newStream;
    }

    method OnData(sequence: int)
      requires Valid()
      modifies this, tracker
      ensures Valid() && View() == DataArrives(old(View()), sequence)
      ensures tracker.subscriptions - {subId} == old(tracker.subscriptions) - {subId}
    {
      tracker.UpdateSequence(subId, sequence);
      if !closed {
        dispatched := dispatched + [sequence];
      }
    }

    method Cancel()
      requires Valid()
      modifies this, tracker
      ensures Valid() && View() == Cancelled(old(View()))
      ensures tracker.subscriptions == old(tracker.subscriptions) - {subId}
    {
      tracker.Unregister(subId);
      closed := true;
    }
  }
}
