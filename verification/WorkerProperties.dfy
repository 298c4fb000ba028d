/** Delivery accounting over whole runs, resets included. */
module WorkerProperties {
  import opened Sums
  import opened WorkerModel
  import opened Crc
  import CrcHex
  import T = TrackerModel
  import P = TrackerProperties
  import R = TrackerReference
  import U = TrackerWarmup
  import L = PeakRate

  /** The deliveries since the last reset. */
  function DeliveriesOf(events: seq<Event>): seq<Delivery> {
    if events == [] then []
    else
      var before := DeliveriesOf(events[..|events| - 1]);
      match events[|events| - 1]
      case Receive(d, _) => before + [d]
      case ResetAfterWarmup(_) => []
      case _ => before
  }

  /** Those of them the tracker gets to see: all but the ones failing a CRC sample, which is
      taken of every 100th. */
  function Passed(deliveries: seq<Delivery>): seq<(string, int)> {
    if deliveries == [] then []
    else
      var d := deliveries[|deliveries| - 1];
      Passed(deliveries[..|deliveries| - 1]) + if Rejected(|deliveries|, d) then [] else [(d.producerId, d.n)]
  }

  ghost function Duplicates(producers: map<string, T.Producer>): int {
    Sum(T.Counters(producers, T.Duplicates))
  }

  ghost function Arrived(producers: map<string, T.Producer>): int {
    Sum(T.Counters(producers, T.Received))
  }

  lemma CountersAfterRecord(w: nat, all: map<string, T.Producer>, id: string, n: int)
    ensures var (next, v) := T.RecordAll(w, all, id, n);
            && Arrived(next) == Arrived(all) + 1
            && Duplicates(next) == Duplicates(all) + if v.isDuplicate then 1 else 0
  {
    var p := if id in all then all[id] else T.NEW_PRODUCER;
    U.RecordCounts(w, p, n);
    hide T.Record;
    var next := T.RecordAll(w, all, id, n).0;
    forall c: T.Counter
      ensures Sum(T.Counters(next, c)) == Sum(T.Counters(all, c)) + T.CounterOf(next[id], c) - T.CounterOf(p, c)
    {
      SumUpdate(T.Counters(all, c), id, T.CounterOf(next[id], c));
      assert T.Counters(next, c) == T.Counters(all, c)[id := T.CounterOf(next[id], c)];
    }
  }

  /** What one delivery does to the sums. */
  ghost predicate Balanced(s: State) {
    && s.crcSampleCounter == s.corrupted + Arrived(s.producers)
    && Arrived(s.producers) == Duplicates(s.producers) + s.received
    && Sum(s.consumerCounts) == s.received
    && |s.latencies.own| <= s.received
  }

  lemma StepBalanced(w: nat, s: State, e: Event)
    requires Balanced(s)
    ensures Balanced(Step(w, s, e))
  {
    match e
    case Receive(d, now) =>
      hide Balanced, Received;
      ReceivedBalanced(w, s, d, now);
    case ResetAfterWarmup(now) => ResetBalanced(s, now);
    case _ => DeliveriesUntouched(w, s, e);
  }

  /** No other step touches what the balance is about. */
  lemma DeliveriesUntouched(w: nat, s: State, e: Event)
    requires !e.Receive? && !e.ResetAfterWarmup?
    ensures var t := Step(w, s, e);
            && t.crcSampleCounter == s.crcSampleCounter && t.corrupted == s.corrupted
            && t.received == s.received && t.producers == s.producers
            && t.consumerCounts == s.consumerCounts && t.latencies.own == s.latencies.own
  {
    hide L.Clamped;
  }

  lemma ResetBalanced(s: State, now: int)
    ensures Balanced(Reset(s, now))
  {
    hide Purged, Arrived, Duplicates, Sum;
    OpenedBalanced();
  }

  lemma ReceivedBalanced(w: nat, s: State, d: Delivery, now: int)
    requires Balanced(s)
    ensures Balanced(Received(w, s, d, now))
  {
    hide Rejected, Micros, DuplicateSeen, T.RecordAll, Arrived, Duplicates;
    CountersAfterRecord(w, s.producers, d.producerId, d.n);
    var id := d.consumerId;
    SumUpdate(s.consumerCounts, id, (if id in s.consumerCounts then s.consumerCounts[id] else 0) + 1);
  }

  lemma OpenedBalanced()
    ensures Arrived(map[]) == 0 && Duplicates(map[]) == 0 && Sum<string>(map[]) == 0
  {
    assert T.Counters(map[], T.Received) == map[];
    assert T.Counters(map[], T.Duplicates) == map[];
  }

  /** Delivery accounting: over every run, the deliveries since the last reset are the corrupted
      ones, the tracker's duplicates and the received ones, the consumers' counts add up to the
      received, and no received message gives two latency samples. */
  lemma {:induction false} DeliveriesAccounted(w: nat, events: seq<Event>)
    ensures var s, ds := Run(w, events), DeliveriesOf(events);
            && |ds| == s.corrupted + Duplicates(s.producers) + s.received
            && s.corrupted == |ds| - |Passed(ds)|
            && Sum(s.consumerCounts) == s.received
            && |s.latencies.own| <= s.received
  {
    RunBalanced(w, events);
    TrackerSeesPassed(w, events);
  }

  lemma {:induction false} RunBalanced(w: nat, events: seq<Event>)
    ensures Balanced(Run(w, events))
  {
    hide Balanced, Step;
    if events == [] {
      StartBalanced();
    } else {
      RunBalanced(w, events[..|events| - 1]);
      StepBalanced(w, Run(w, events[..|events| - 1]), events[|events| - 1]);
    }
  }

  lemma StartBalanced()
    ensures Balanced(OPENED)
  {
    hide Arrived, Duplicates, Sum;
    OpenedBalanced();
  }

  /** The tracker is where the passed deliveries put it, so all that is proved of the tracker
      holds of the worker's. */
  lemma {:induction false} TrackerSeesPassed(w: nat, events: seq<Event>)
    ensures var s, ds := Run(w, events), DeliveriesOf(events);
            && s.producers == T.RunAll(w, Passed(ds))
            && s.crcSampleCounter == |ds|
            && s.corrupted == |ds| - |Passed(ds)|
  {
    NoDeliveries(w);
    hide Step, Passed, T.RunAll;
    if events != [] {
      var before, e := events[..|events| - 1], events[|events| - 1];
      TrackerSeesPassed(w, before);
      match e
      case Receive(d, now) => OneMoreDelivery(w, Run(w, before), DeliveriesOf(before), d, now);
      case ResetAfterWarmup(now) => ResetClears(w, Run(w, before), now);
      case _ => DeliveriesUntouched(w, Run(w, before), e);
    }
  }

  lemma ResetClears(w: nat, s: State, now: int)
    ensures var t := Step(w, s, ResetAfterWarmup(now));
            t.producers == map[] && t.crcSampleCounter == 0 && t.corrupted == 0
  {
  }

  lemma NoDeliveries(w: nat)
    ensures Passed([]) == [] && T.RunAll(w, []) == map[]
  {
  }

  lemma OneMoreDelivery(w: nat, s: State, ds: seq<Delivery>, d: Delivery, now: int)
    requires s.producers == T.RunAll(w, Passed(ds))
    requires s.crcSampleCounter == |ds| && s.corrupted == |ds| - |Passed(ds)|
    ensures var t := Step(w, s, Receive(d, now));
            && t.producers == T.RunAll(w, Passed(ds + [d]))
            && t.crcSampleCounter == |ds + [d]|
            && t.corrupted == |ds + [d]| - |Passed(ds + [d])|
  {
    hide Rejected, Micros, Purged, T.RecordAll, CountedFor, T.RunAll;
    assert (ds + [d])[..|ds|] == ds;
    if Rejected(|ds| + 1, d) {
      assert Passed(ds + [d]) == Passed(ds);
    } else {
      RunAllOneMore(w, Passed(ds), d.producerId, d.n);
    }
  }

  lemma RunAllOneMore(w: nat, seen: seq<(string, int)>, id: string, n: int)
    ensures T.RunAll(w, seen + [(id, n)]) == T.RecordAll(w, T.RunAll(w, seen), id, n).0
  {
    assert (seen + [(id, n)])[..|seen|] == seen;
  }

  /** How many different numbers of each producer the tracker accepted. */
  function AcceptedCounts(w: nat, arrivals: seq<(string, int)>): map<string, int> {
    map id | id in T.RunAll(w, arrivals) :: |P.Accepted(w, T.ArrivalsOf(arrivals, id))|
  }

  /** received counts every different message once, exactly when no producer's tracker accepted
      a number twice; it never counts fewer. */
  lemma ReceivedIsAcceptedExactly(w: nat, events: seq<Event>)
    ensures var arrivals := Passed(DeliveriesOf(events));
            && Run(w, events).received >= Sum(AcceptedCounts(w, arrivals))
            && (Run(w, events).received == Sum(AcceptedCounts(w, arrivals)) <==>
                  forall id | id in T.RunAll(w, arrivals) :: U.AcceptsOnce(w, T.ArrivalsOf(arrivals, id)))
  {
    hide Passed, DeliveriesOf, Run, Step, Rejected, T.RunAll, T.RecordAll, T.Record, T.CounterOf;
    hide T.Run, T.ArrivalsOf, U.AcceptsOnce, P.Accepted;
    RunBalanced(w, events);
    TrackerSeesPassed(w, events);
    var arrivals := Passed(DeliveriesOf(events));
    var all := T.RunAll(w, arrivals);
    var fresh_ := map id | id in all :: T.CounterOf(all[id], T.Received) - T.CounterOf(all[id], T.Duplicates);
    SumDifference(T.Counters(all, T.Received), T.Counters(all, T.Duplicates), fresh_);
    forall id | id in all
      ensures AcceptedCounts(w, arrivals)[id] <= fresh_[id]
      ensures AcceptedCounts(w, arrivals)[id] == fresh_[id] <==> U.AcceptsOnce(w, T.ArrivalsOf(arrivals, id))
    {
      AcceptedOf(w, arrivals, id);
    }
    SumCompared(AcceptedCounts(w, arrivals), fresh_);
  }

  lemma AcceptedOf(w: nat, arrivals: seq<(string, int)>, id: string)
    requires id in T.RunAll(w, arrivals)
    ensures var p, own := T.RunAll(w, arrivals)[id], T.ArrivalsOf(arrivals, id);
            var counted := T.CounterOf(p, T.Received) - T.CounterOf(p, T.Duplicates);
            && |P.Accepted(w, own)| <= counted
            && (|P.Accepted(w, own)| == counted <==> U.AcceptsOnce(w, own))
  {
    T.ProducersIndependent(w, arrivals, id);
    hide T.RunAll, T.ArrivalsOf, T.Run, U.AcceptsOnce, P.Accepted;
    U.AcceptedCount(w, T.ArrivalsOf(arrivals, id));
  }

  /** In particular when every producer's warm-up fits the window. */
  lemma ReceivedIsAccepted(w: nat, events: seq<Event>)
    requires w > 0
    requires forall id :: R.WarmupFits(w, T.ArrivalsOf(Passed(DeliveriesOf(events)), id))
    ensures Run(w, events).received == Sum(AcceptedCounts(w, Passed(DeliveriesOf(events))))
  {
    hide Passed, DeliveriesOf, Run, AcceptedCounts, T.RunAll, T.ArrivalsOf, R.WarmupFits, U.AcceptsOnce;
    ReceivedIsAcceptedExactly(w, events);
    var arrivals := Passed(DeliveriesOf(events));
    forall id | id in T.RunAll(w, arrivals) ensures U.AcceptsOnce(w, T.ArrivalsOf(arrivals, id)) {
      U.FittingAcceptsOnce(w, T.ArrivalsOf(arrivals, id));
    }
  }

  /** Where no value is greater, the sum is not, and the sums are equal only where all values are. */
  lemma {:induction false} SumCompared(a: map<string, int>, b: map<string, int>)
    requires a.Keys == b.Keys && forall id :: id in a ==> a[id] <= b[id]
    ensures Sum(a) <= Sum(b)
    ensures Sum(a) == Sum(b) <==> forall id :: id in a ==> a[id] == b[id]
    decreases |a|
  {
    if a == map[] {
      assert b == map[];
    } else {
      var id :| id in a;
      SumWithout(a, id);
      SumWithout(b, id);
      SumCompared(a - {id}, b - {id});
      assert forall other | other in a && other != id :: other in a - {id};
    }
  }

  lemma {:induction false} SumDifference(a: map<string, int>, b: map<string, int>, c: map<string, int>)
    requires a.Keys == b.Keys == c.Keys
    requires forall id :: id in a ==> c[id] == a[id] - b[id]
    ensures Sum(c) == Sum(a) - Sum(b)
    decreases |a|
  {
    if a == map[] {
      assert b == map[] && c == map[];
    } else {
      var id :| id in a;
      SumWithout(a, id);
      SumWithout(b, id);
      SumWithout(c, id);
      SumDifference(a - {id}, b - {id}, c - {id});
    }
  }

  /** A delivery in a sampled position that carries the tag of `sent`, with a body damaged within
      32 consecutive bits, fails its sample. */
  lemma SampledBurstRejected(k: nat, d: Delivery, sent: seq<bv8>, from: nat, to: nat)
    requires k % CRC_SAMPLE_RATE == 0
    requires |sent| == |d.body| && sent != d.body && |BitsOf(sent)| == |BitsOf(d.body)|
    requires from <= to <= |BitsOf(sent)| && to - from <= 32
    requires BitsOf(sent)[..from] == BitsOf(d.body)[..from] && BitsOf(sent)[to..] == BitsOf(d.body)[to..]
    ensures Rejected(k, d.(crcTag := CrcHex.Hex8(CrcByBits(sent))))
  {
    hide BitsOf, CrcByBits, CrcHex.Hex8;
    CrcHex.VerifyRejectsBurst(sent, d.body, from, to);
  }

  /** Failing the sample counts the delivery as corrupted, and only then does a delivery reach
      neither the tracker nor any other count. */
  lemma RejectedExactly(w: nat, s: State, d: Delivery, now: int)
    ensures var t := Step(w, s, Receive(d, now));
            && (Rejected(s.crcSampleCounter + 1, d) <==>
                  t == s.(crcSampleCounter := s.crcSampleCounter + 1, corrupted := s.corrupted + 1))
            && (Rejected(s.crcSampleCounter + 1, d) <==> t.producers == s.producers)
  {
    hide Rejected, Micros, DuplicateSeen, T.RecordAll, CountedFor;
    if !Rejected(s.crcSampleCounter + 1, d) {
      CountersAfterRecord(w, s.producers, d.producerId, d.n);
    }
  }

  /** An accepted message gives one latency sample exactly when its send time is stored, and the
      send time gives no second one. */
  lemma OneSamplePerSend(w: nat, s: State, d: Delivery, now: int)
    ensures var t, key := Step(w, s, Receive(d, now)), (d.producerId, d.n);
            && |t.latencies.own| ==
               |s.latencies.own| + (if t.received > s.received && key in s.sendTimes then 1 else 0)
            && (t.latencies.own != s.latencies.own ==> key !in t.sendTimes)
  {
    hide Rejected, Micros, DuplicateSeen, T.RecordAll, CountedFor;
  }

  /** Every sample of the worker is written to its pattern's accumulator too, and nothing else
      is: over any stretch of a run without a reset, once wired, the share grows by what the
      worker's own two accumulators gain. */
  lemma {:induction false} DualWrite(w: nat, s: State, events: seq<Event>)
    requires s.latencies.wired && forall e | e in events :: !e.ResetAfterWarmup?
    ensures var t := StepAll(w, s, events);
            t.latencies.wired &&
            t.latencies.share + (s.latencies.own + s.latencies.rpc)
            == s.latencies.share + (t.latencies.own + t.latencies.rpc)
    decreases |events|
  {
    hide Step;
    if events != [] {
      assert events[0] in events;
      DualWriteStep(w, s, events[0]);
      assert forall e | e in events[1..] :: e in events;
      DualWrite(w, Step(w, s, events[0]), events[1..]);
      var next, t := Step(w, s, events[0]).latencies, StepAll(w, s, events).latencies;
      Telescopes(s.latencies.share, s.latencies.own + s.latencies.rpc, next.share, next.own + next.rpc,
                 t.share, t.own + t.rpc);
    }
  }

  function StepAll(w: nat, s: State, events: seq<Event>): State
    decreases |events|
  {
    if events == [] then s else StepAll(w, Step(w, s, events[0]), events[1..])
  }

  lemma Telescopes(a: multiset<int>, b: multiset<int>, c: multiset<int>, d: multiset<int>, e: multiset<int>,
                   f: multiset<int>)
    requires c + b == a + d && e + d == c + f
    ensures e + b == a + f
  {
    forall x: int ensures (e + b)[x] == (a + f)[x] {
      assert (c + b)[x] == (a + d)[x] && (e + d)[x] == (c + f)[x];
    }
  }

  lemma DualWriteStep(w: nat, s: State, e: Event)
    requires s.latencies.wired && !e.ResetAfterWarmup?
    ensures var t := Step(w, s, e);
            t.latencies.wired &&
            t.latencies.share + (s.latencies.own + s.latencies.rpc)
            == s.latencies.share + (t.latencies.own + t.latencies.rpc)
  {
    hide Rejected, Micros, DuplicateSeen, T.RecordAll, CountedFor, L.Clamped;
  }
}
