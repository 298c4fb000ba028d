/** What a worker counts, read off the events since the last reset. */
module WorkerTrace {
  import opened Options
  import opened Crc
  import opened WorkerModel
  import opened WorkerProperties
  import CrcHex
  import T = TrackerModel
  import L = PeakRate

  // Corruption.

  /** Is the tag of a delivery the text of its body's checksum? */
  predicate TagHolds(d: Delivery) {
    d.crcTag == CrcHex.Hex8(CrcByBits(d.body))
  }

  /** How many of the deliveries in positions 100, 200 and so on carry another tag. */
  function BadSamples(deliveries: seq<Delivery>): nat {
    if deliveries == [] then 0
    else
      BadSamples(deliveries[..|deliveries| - 1]) +
      if |deliveries| % 100 == 0 && !TagHolds(deliveries[|deliveries| - 1]) then 1 else 0
  }

  function Arrivals(deliveries: seq<Delivery>): seq<(string, int)> {
    if deliveries == [] then []
    else
      var d := deliveries[|deliveries| - 1];
      Arrivals(deliveries[..|deliveries| - 1]) + [(d.producerId, d.n)]
  }

  lemma {:induction false} PassedCount(deliveries: seq<Delivery>)
    ensures |Passed(deliveries)| == |deliveries| - BadSamples(deliveries)
    ensures (forall d | d in deliveries :: TagHolds(d)) ==>
              Passed(deliveries) == Arrivals(deliveries) && BadSamples(deliveries) == 0
  {
    hide CrcHex.Hex8, CrcByBits;
    if deliveries != [] {
      PassedCount(deliveries[..|deliveries| - 1]);
      assert deliveries[|deliveries| - 1] in deliveries;
      assert forall d | d in deliveries[..|deliveries| - 1] :: d in deliveries;
    }
  }

  /** Over every run the corrupted deliveries since the last reset are those in a sampled position
      whose tag is not the text of their body's checksum. */
  lemma CorruptedExactly(w: nat, events: seq<Event>)
    ensures Run(w, events).corrupted == BadSamples(DeliveriesOf(events))
  {
    hide Run, DeliveriesOf, Passed, BadSamples;
    TrackerSeesPassed(w, events);
    PassedCount(DeliveriesOf(events));
  }

  /** A run whose deliveries all carry their own checksum counts none corrupted and shows them all
      to the tracker. */
  lemma IntactAllPass(w: nat, events: seq<Event>)
    requires forall d | d in DeliveriesOf(events) :: d.crcTag == CrcHex.Hex8(CrcByBits(d.body))
    ensures Run(w, events).corrupted == 0
    ensures Run(w, events).producers == T.RunAll(w, Arrivals(DeliveriesOf(events)))
  {
    hide Run, DeliveriesOf, Passed, BadSamples, T.RunAll, CrcHex.Hex8, CrcByBits;
    TrackerSeesPassed(w, events);
    PassedCount(DeliveriesOf(events));
  }

  // The deliveries that count.

  /** Does the last event deliver a message that passes its sample, if any? */
  predicate Passes(events: seq<Event>)
    requires events != []
  {
    var e := events[|events| - 1];
    e.Receive? && (|DeliveriesOf(events)| % 100 == 0 ==> TagHolds(e.d))
  }

  /** Does the tracker, as the events before left it, call the delivery a duplicate? */
  predicate Repeats(w: nat, before: seq<Event>, d: Delivery) {
    T.RecordAll(w, Run(w, before).producers, d.producerId, d.n).1.isDuplicate
  }

  predicate Counts(w: nat, events: seq<Event>)
    requires events != []
  {
    Passes(events) && !Repeats(w, events[..|events| - 1], events[|events| - 1].d)
  }

  predicate Doubles(w: nat, events: seq<Event>)
    requires events != []
  {
    Passes(events) && Repeats(w, events[..|events| - 1], events[|events| - 1].d)
  }

  /** The new messages since the last reset. */
  function NewOnes(w: nat, events: seq<Event>): seq<Delivery> {
    if events == [] then []
    else
      var before, e := events[..|events| - 1], events[|events| - 1];
      if e.ResetAfterWarmup? then []
      else NewOnes(w, before) + if Counts(w, events) then [e.d] else []
  }

  function Of(deliveries: seq<Delivery>, consumerId: string): nat {
    if deliveries == [] then 0
    else
      Of(deliveries[..|deliveries| - 1], consumerId) +
      if deliveries[|deliveries| - 1].consumerId == consumerId then 1 else 0
  }

  /** The send time stored for a message: of its last recorded send, until it is received as new
      or a reset purges it. */
  function SendTime(w: nat, events: seq<Event>, key: (string, int)): Option<int> {
    if events == [] then None
    else
      var before, e := events[..|events| - 1], events[|events| - 1];
      var earlier := SendTime(w, before, key);
      match e
      case Send(id, n, skip, now) => if (id, n) == key && !skip then Some(now) else earlier
      case Receive(d, _) => if (d.producerId, d.n) == key && Counts(w, events) then None else earlier
      case ResetAfterWarmup(now) => if earlier.Some? && earlier.value < now then None else earlier
      case _ => earlier
  }

  /** The latencies of the new messages whose send time is known, since the last reset. */
  function LatenciesOf(w: nat, events: seq<Event>): multiset<int> {
    if events == [] then multiset{}
    else
      var before, e := events[..|events| - 1], events[|events| - 1];
      if e.ResetAfterWarmup? then multiset{}
      else if e.Receive? && Counts(w, events) && SendTime(w, before, (e.d.producerId, e.d.n)).Some? then
        var sent := SendTime(w, before, (e.d.producerId, e.d.n)).value;
        LatenciesOf(w, before) + multiset{L.Clamped((e.now - sent) as real / 1000000000.0)}
      else LatenciesOf(w, before)
  }

  /** What a delivery does, when it counts as new or as a duplicate. */
  ghost predicate Effect(s: State, t: State, d: Delivery, now: int, counts: bool, doubles: bool) {
    var key := (d.producerId, d.n);
    && t.sent == s.sent && t.rates == s.rates && t.latencies.rpc == s.latencies.rpc
    && t.health == (if doubles then DuplicateSeen(s.health) else s.health)
    && (if counts then
          && t.received == s.received + 1
          && t.consumerCounts == CountedFor(s.consumerCounts, d.consumerId)
          && t.sendTimes == s.sendTimes - {key}
          && t.latencies.own == (if key in s.sendTimes then s.latencies.own + multiset{Micros(s.sendTimes[key], now)}
                                 else s.latencies.own)
        else
          && t.received == s.received && t.consumerCounts == s.consumerCounts
          && t.sendTimes == s.sendTimes && t.latencies.own == s.latencies.own)
  }

  lemma ReceiveEffect(w: nat, events: seq<Event>)
    requires events != [] && events[|events| - 1].Receive?
    ensures var before, e := events[..|events| - 1], events[|events| - 1];
            Effect(Run(w, before), Run(w, events), e.d, e.now, Counts(w, events), Doubles(w, events))
  {
    hide Run, Counts, Doubles, Rejected, T.RecordAll, Effect, Received;
    var before, e := events[..|events| - 1], events[|events| - 1];
    LastJudged(w, events);
    RunLast(w, events);
    ReceivedEffect(w, Run(w, before), e.d, e.now);
  }

  lemma LastJudged(w: nat, events: seq<Event>)
    requires events != [] && events[|events| - 1].Receive?
    ensures var s, d := Run(w, events[..|events| - 1]), events[|events| - 1].d;
            var passes := !Rejected(s.crcSampleCounter + 1, d);
            var repeats := T.RecordAll(w, s.producers, d.producerId, d.n).1.isDuplicate;
            (Counts(w, events) <==> passes && !repeats) && (Doubles(w, events) <==> passes && repeats)
  {
    hide Run, Passed, Rejected, TagHolds, T.RecordAll, T.RunAll;
    var before := events[..|events| - 1];
    TrackerSeesPassed(w, before);
    DeliveriesNext(events);
    hide DeliveriesOf;
    RejectedIs(Run(w, before).crcSampleCounter + 1, events[|events| - 1].d);
  }

  lemma RunLast(w: nat, events: seq<Event>)
    requires events != []
    ensures Run(w, events) == Step(w, Run(w, events[..|events| - 1]), events[|events| - 1])
  {
  }

  lemma DeliveriesNext(events: seq<Event>)
    requires events != [] && events[|events| - 1].Receive?
    ensures |DeliveriesOf(events)| == |DeliveriesOf(events[..|events| - 1])| + 1
  {
  }

  lemma RejectedIs(k: nat, d: Delivery)
    ensures Rejected(k, d) <==> k % 100 == 0 && !TagHolds(d)
  {
    hide CrcHex.Hex8, CrcByBits;
  }

  lemma ReceivedEffect(w: nat, s: State, d: Delivery, now: int)
    ensures var passes := !Rejected(s.crcSampleCounter + 1, d);
            var repeats := T.RecordAll(w, s.producers, d.producerId, d.n).1.isDuplicate;
            Effect(s, Received(w, s, d, now), d, now, passes && !repeats, passes && repeats)
  {
    hide Rejected, Micros, DuplicateSeen, CountedFor, T.RecordAll;
    var key := (d.producerId, d.n);
    assert key !in s.sendTimes ==> s.sendTimes - {key} == s.sendTimes;
  }

  ghost predicate CountShown(received: nat, counts: map<string, int>, news: seq<Delivery>, consumerId: string) {
    && received == |news|
    && (consumerId in counts <==> Of(news, consumerId) > 0)
    && (consumerId in counts ==> counts[consumerId] == Of(news, consumerId))
  }

  lemma CountShownNext(received: nat, counts: map<string, int>, news: seq<Delivery>, d: Delivery, consumerId: string)
    requires CountShown(received, counts, news, consumerId)
    ensures CountShown(received + 1, CountedFor(counts, d.consumerId), news + [d], consumerId)
  {
    assert (news + [d])[..|news|] == news;
  }

  /** received is the number of new messages, and each consumer's count that of its own. */
  lemma {:induction false} NewOnesCounted(w: nat, events: seq<Event>, consumerId: string)
    ensures CountShown(Run(w, events).received, Run(w, events).consumerCounts, NewOnes(w, events), consumerId)
  {
    if events == [] {
      NoneCounted(consumerId);
    } else {
      var before, e := events[..|events| - 1], events[|events| - 1];
      NewOnesCounted(w, before, consumerId);
      NewOnesNext(w, events);
      RunLast(w, events);
      hide Run, NewOnes, Counts, Doubles, CountShown, CountedFor;
      if e.Receive? {
        ReceiveEffect(w, events);
        hide Micros, DuplicateSeen, Step;
        var s := Run(w, before);
        CountShownNext(s.received, s.consumerCounts, NewOnes(w, before), e.d, consumerId);
      } else if e.ResetAfterWarmup? {
        NoneCounted(consumerId);
      } else {
        hide L.Clamped;
        DeliveriesUntouched(w, Run(w, before), e);
        hide Step;
      }
    }
  }

  lemma NoneCounted(consumerId: string)
    ensures CountShown(0, map[], [], consumerId)
  {
  }

  lemma NewOnesNext(w: nat, events: seq<Event>)
    requires events != []
    ensures var before, e := events[..|events| - 1], events[|events| - 1];
            NewOnes(w, events) ==
            if e.ResetAfterWarmup? then []
            else if Counts(w, events) then NewOnes(w, before) + [e.d]
            else NewOnes(w, before)
    ensures !events[|events| - 1].Receive? ==> !Counts(w, events)
  {
    hide Repeats, TagHolds, DeliveriesOf;
    assert NewOnes(w, events[..|events| - 1]) + [] == NewOnes(w, events[..|events| - 1]);
  }

  /** The stored send time of every message. */
  lemma {:induction false} SendTimesExactly(w: nat, events: seq<Event>, key: (string, int))
    ensures var s := Run(w, events);
            SendTime(w, events, key) == if key in s.sendTimes then Some(s.sendTimes[key]) else None
  {
    if events != [] {
      var before, e := events[..|events| - 1], events[|events| - 1];
      SendTimesExactly(w, before, key);
      hide Counts, Doubles, Micros, L.Clamped;
      if e.Receive? {
        ReceiveEffect(w, events);
        hide Run;
      } else {
        TimesKept(w, Run(w, before), e);
      }
    }
  }

  lemma TimesKept(w: nat, s: State, e: Event)
    requires !e.Receive?
    ensures Step(w, s, e).sendTimes ==
            match e
            case Send(id, n, skip, now) => if skip then s.sendTimes else s.sendTimes[(id, n) := now]
            case ResetAfterWarmup(now) =>
              map key | key in s.sendTimes && s.sendTimes[key] >= now :: s.sendTimes[key]
            case _ => s.sendTimes
  {
    hide L.Clamped;
  }

  /** The latency samples are the times from send to receipt of the new messages whose send time is
      known, in microseconds. */
  lemma {:induction false} LatenciesExactly(w: nat, events: seq<Event>)
    ensures Run(w, events).latencies.own == LatenciesOf(w, events)
  {
    if events != [] {
      var before, e := events[..|events| - 1], events[|events| - 1];
      LatenciesExactly(w, before);
      hide Counts, Doubles, SendTime, L.Clamped;
      if e.Receive? {
        ReceiveEffect(w, events);
        SendTimesExactly(w, before, (e.d.producerId, e.d.n));
        hide Run;
      } else if !e.ResetAfterWarmup? {
        DeliveriesUntouched(w, Run(w, before), e);
      }
    }
  }

  // Counters.

  /** How many events since the last reset are of a kind. */
  function Since(events: seq<Event>, kind: Event -> bool): nat {
    if events == [] then 0
    else
      var e := events[|events| - 1];
      if e.ResetAfterWarmup? then 0 else Since(events[..|events| - 1], kind) + if kind(e) then 1 else 0
  }

  lemma CountersNext(w: nat, s: State, e: Event)
    requires !e.Receive? && !e.ResetAfterWarmup?
    ensures var t := Step(w, s, e);
            && t.sent == s.sent + (if e.Send? then 1 else 0)
            && t.health.errors == s.health.errors + (if e.Error? then 1 else 0)
            && t.health.reconnections == s.health.reconnections + (if e.Reconnection? then 1 else 0)
            && t.health.rpcSuccess == s.health.rpcSuccess + (if e == RpcAnswered(Success) then 1 else 0)
            && t.health.rpcTimeout == s.health.rpcTimeout + (if e == RpcAnswered(Timeout) then 1 else 0)
            && t.health.rpcError == s.health.rpcError + (if e == RpcAnswered(Failure) then 1 else 0)
            && t.health.reconnDuplicates == s.health.reconnDuplicates
            && t.health.recentlyReconnected == (s.health.recentlyReconnected || e.Reconnection?)
            && t.health.reconnDupCooldown == (if e.Reconnection? then 0 else s.health.reconnDupCooldown)
  {
    hide L.Clamped, Purged;
  }

  /** Every counter is the number of its events since the last reset. */
  lemma {:induction false} CountersExactly(w: nat, events: seq<Event>)
    ensures var s := Run(w, events);
            && s.sent == Since(events, (e: Event) => e.Send?)
            && s.health.errors == Since(events, (e: Event) => e.Error?)
            && s.health.reconnections == Since(events, (e: Event) => e.Reconnection?)
            && s.health.rpcSuccess == Since(events, (e: Event) => e == RpcAnswered(Success))
            && s.health.rpcTimeout == Since(events, (e: Event) => e == RpcAnswered(Timeout))
            && s.health.rpcError == Since(events, (e: Event) => e == RpcAnswered(Failure))
  {
    if events != [] {
      var before, e := events[..|events| - 1], events[|events| - 1];
      CountersExactly(w, before);
      hide Counts, Doubles, L.Clamped, Micros;
      if e.Receive? {
        ReceiveEffect(w, events);
        hide Run;
      } else if !e.ResetAfterWarmup? {
        CountersNext(w, Run(w, before), e);
        hide Step;
      }
    }
  }

  // Duplicates put down to a reconnection.

  /** The duplicates since the last reconnection, if there was one; a reset does not matter. */
  function DoublesSince(w: nat, events: seq<Event>): Option<nat> {
    if events == [] then None
    else
      var earlier := DoublesSince(w, events[..|events| - 1]);
      if events[|events| - 1].Reconnection? then Some(0)
      else if Doubles(w, events) && earlier.Some? then Some(earlier.value + 1)
      else earlier
  }

  /** The duplicates that were among the first 100 since a reconnection. */
  function PutDown(w: nat, events: seq<Event>): nat {
    if events == [] then 0
    else
      var before := events[..|events| - 1];
      var earlier := DoublesSince(w, before);
      PutDown(w, before) +
      if Doubles(w, events) && earlier.Some? && earlier.value < 100 then 1 else 0
  }

  lemma {:induction false} PutDownExactly(w: nat, events: seq<Event>)
    ensures var h, since := Run(w, events).health, DoublesSince(w, events);
            && h.reconnDuplicates == PutDown(w, events)
            && (h.recentlyReconnected <==> since.Some? && since.value < 100)
            && (h.recentlyReconnected ==> h.reconnDupCooldown == since.value)
  {
    if events != [] {
      var before, e := events[..|events| - 1], events[|events| - 1];
      PutDownExactly(w, before);
      hide Doubles, Counts, L.Clamped, Micros;
      if e.Receive? {
        ReceiveEffect(w, events);
        hide Run;
      } else {
        NotDoubled(w, events);
        if !e.ResetAfterWarmup? {
          CountersNext(w, Run(w, before), e);
          hide Step;
        }
      }
    }
  }

  lemma NotDoubled(w: nat, events: seq<Event>)
    requires events != [] && !events[|events| - 1].Receive?
    ensures !Doubles(w, events) && !Counts(w, events)
  {
  }

  // Remote calls and rates.

  /** The durations of the remote calls since the last reset, in microseconds. */
  function RpcLatenciesOf(events: seq<Event>): multiset<int> {
    if events == [] then multiset{}
    else
      var before, e := events[..|events| - 1], events[|events| - 1];
      if e.ResetAfterWarmup? then multiset{}
      else if e.RpcTimed? then RpcLatenciesOf(before) + multiset{L.Clamped(e.durationSec)}
      else RpcLatenciesOf(before)
  }

  /** The sends of each slot since the last reset, the open slot last. */
  function SendsPerSlot(events: seq<Event>): (slots: seq<nat>)
    ensures |slots| > 0
  {
    if events == [] then [0]
    else
      var before, e := events[..|events| - 1], events[|events| - 1];
      var slots := SendsPerSlot(before);
      match e
      case ResetAfterWarmup(_) => [0]
      case Slot => slots + [0]
      case Send(_, _, _, _) => slots[..|slots| - 1] + [slots[|slots| - 1] + 1]
      case _ => slots
  }

  lemma RatesNext(w: nat, s: State, e: Event)
    requires !e.Receive? && !e.ResetAfterWarmup?
    ensures var t := Step(w, s, e);
            && t.latencies.rpc ==
               (if e.RpcTimed? then s.latencies.rpc + multiset{L.Clamped(e.durationSec)} else s.latencies.rpc)
            && (e.Slot? ==> t.rates == Rates(s.rates.peak + [0], s.rates.sliding + [0]))
            && (!e.Slot? && !e.Send? ==> t.rates == s.rates)
            && (e.Send? && s.rates.peak != [] && s.rates.sliding == s.rates.peak ==>
                  var slots := s.rates.peak;
                  var more := slots[..|slots| - 1] + [slots[|slots| - 1] + 1];
                  t.rates == Rates(more, more))
  {
    hide L.Clamped;
  }

  /** Remote calls are timed one by one, and both rate trackers see each slot's own sends. */
  lemma {:induction false} RatesExactly(w: nat, events: seq<Event>)
    ensures var s := Run(w, events);
            && s.latencies.rpc == RpcLatenciesOf(events)
            && s.rates == Rates(SendsPerSlot(events), SendsPerSlot(events))
  {
    if events != [] {
      var before, e := events[..|events| - 1], events[|events| - 1];
      RatesExactly(w, before);
      hide Counts, Doubles, L.Clamped, Micros, DuplicateSeen;
      if e.Receive? {
        ReceiveEffect(w, events);
        hide Run;
      } else if !e.ResetAfterWarmup? {
        RatesNext(w, Run(w, before), e);
        hide Step;
      }
    }
  }

  /** The sample the last event records, if it records one. */
  function SampleOf(w: nat, events: seq<Event>): multiset<int>
    requires events != []
  {
    var before, e := events[..|events| - 1], events[|events| - 1];
    if e.RpcTimed? then multiset{L.Clamped(e.durationSec)}
    else if e.Receive? && Counts(w, events) && SendTime(w, before, (e.d.producerId, e.d.n)).Some? then
      var sent := SendTime(w, before, (e.d.producerId, e.d.n)).value;
      multiset{L.Clamped((e.now - sent) as real / 1000000000.0)}
    else multiset{}
  }

  /** Every sample recorded after the pattern's accumulator was handed over. */
  function SharesOf(w: nat, events: seq<Event>): multiset<int> {
    if events == [] then multiset{}
    else
      var before := events[..|events| - 1];
      SharesOf(w, before) + if Wire in before then SampleOf(w, events) else multiset{}
  }

  lemma ShareNext(w: nat, s: State, e: Event)
    requires !e.Receive?
    ensures var t := Step(w, s, e);
            && t.latencies.share ==
               (if e.RpcTimed? && s.latencies.wired then s.latencies.share + multiset{L.Clamped(e.durationSec)}
                else s.latencies.share)
            && (t.latencies.wired <==> s.latencies.wired || e.Wire?)
  {
    hide L.Clamped, Purged;
  }

  lemma ShareReceived(w: nat, s: State, d: Delivery, now: int)
    ensures var t, key := Step(w, s, Receive(d, now)), (d.producerId, d.n);
            && t.latencies.wired == s.latencies.wired
            && t.latencies.share ==
               (if s.latencies.wired && t.received > s.received && key in s.sendTimes
                then s.latencies.share + multiset{Micros(s.sendTimes[key], now)} else s.latencies.share)
  {
    hide Rejected, Micros, DuplicateSeen, CountedFor, T.RecordAll;
  }

  lemma WiredNext(events: seq<Event>)
    requires events != []
    ensures Wire in events <==> Wire in events[..|events| - 1] || events[|events| - 1] == Wire
  {
    assert events == events[..|events| - 1] + [events[|events| - 1]];
  }

  lemma ShareGrows(w: nat, events: seq<Event>)
    requires events != []
    ensures var l, m := Run(w, events[..|events| - 1]).latencies, Run(w, events).latencies;
            && m.share == l.share + (if l.wired then SampleOf(w, events) else multiset{})
            && (m.wired <==> l.wired || events[|events| - 1].Wire?)
  {
    var before, e := events[..|events| - 1], events[|events| - 1];
    RunLast(w, events);
    if e.Receive? {
      var key := (e.d.producerId, e.d.n);
      CountsIsReceived(w, events);
      SendTimesExactly(w, before, key);
      hide Run, Step, Counts, Doubles, SendTime, L.Clamped;
      ShareReceived(w, Run(w, before), e.d, e.now);
    } else {
      hide Run, Step, Counts, Doubles, SendTime, L.Clamped;
      ShareNext(w, Run(w, before), e);
    }
  }

  /** The pattern's accumulator gets every sample from its hand-over on, and no other of this worker. */
  lemma {:induction false} SharesExactly(w: nat, events: seq<Event>)
    ensures Run(w, events).latencies.share == SharesOf(w, events)
    ensures Run(w, events).latencies.wired <==> Wire in events
  {
    if events != [] {
      SharesExactly(w, events[..|events| - 1]);
      WiredNext(events);
      hide Run, SampleOf;
      ShareGrows(w, events);
    }
  }

  lemma CountsIsReceived(w: nat, events: seq<Event>)
    requires events != [] && events[|events| - 1].Receive?
    ensures Counts(w, events) <==> Run(w, events).received > Run(w, events[..|events| - 1]).received
  {
    hide Run, Counts, Doubles, Micros, DuplicateSeen, CountedFor;
    ReceiveEffect(w, events);
  }
}
