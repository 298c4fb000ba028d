/** A worker's accounting on top of the tracker (burnin/src/workers/base.ts). */
module WorkerModel {
  import opened Options
  import opened Crc
  import CrcHex
  import T = TrackerModel
  import L = PeakRate
  import Rings

  const CRC_SAMPLE_RATE: nat := 100
  const RECONNECT_DUPLICATES: nat := 100

  datatype Delivery = Delivery(consumerId: string, body: seq<bv8>, crcTag: string, producerId: string, n: int)

  /** The samples of the three accumulators, in microseconds: end to end, of remote calls, and
      this worker's share of those of its pattern, `wired` once it has that accumulator. */
  datatype Latencies = Latencies(
    own: multiset<int>,
    rpc: multiset<int>,
    wired: bool,
    share: multiset<int>)

  /** The slots the two rate trackers have seen since the last reset. */
  datatype Rates = Rates(peak: seq<nat>, sliding: seq<nat>)

  /** Counters beside the deliveries. `reconnDuplicates` is the metric of duplicates put down to
      a reconnection; downtime is in seconds, its start in milliseconds. */
  datatype Health = Health(
    errors: nat,
    reconnections: nat,
    rpcSuccess: nat,
    rpcTimeout: nat,
    rpcError: nat,
    downtimeTotal: real,
    downtimeStart: Option<int>,
    recentlyReconnected: bool,
    reconnDupCooldown: nat,
    reconnDuplicates: nat)

  /** `sendTimes` is the timestamp store in nanoseconds. */
  datatype State = State(
    sent: nat,
    received: nat,
    corrupted: nat,
    crcSampleCounter: nat,
    consumerCounts: map<string, int>,
    producers: map<string, T.Producer>,
    sendTimes: map<(string, int), int>,
    latencies: Latencies,
    rates: Rates,
    health: Health)

  datatype RpcAnswer = Success | Timeout | Failure

  /** `Slot` is the engine's advance of both rate trackers, `Wire` the pattern group's handing
      over of its accumulator. */
  datatype Event =
    | Send(producerId: string, n: int, skipTimestamp: bool, now: int)
    | Receive(d: Delivery, now: int)
    | ResetAfterWarmup(now: int)
    | Slot
    | Wire
    | RpcTimed(durationSec: real)
    | RpcAnswered(answer: RpcAnswer)
    | Error
    | Reconnection
    | StartDowntime(now: int)
    | StopDowntime(now: int)

  const NO_LATENCIES := Latencies(multiset{}, multiset{}, false, multiset{})
  const NO_RATES := Rates([0], [0])
  const HEALTHY := Health(0, 0, 0, 0, 0, 0.0, None, false, 0, 0)
  const OPENED := State(0, 0, 0, 0, map[], map[], map[], NO_LATENCIES, NO_RATES, HEALTHY)

  /** Does the delivery in position `k` since the reset fail its CRC sample? */
  predicate Rejected(k: nat, d: Delivery) {
    k % CRC_SAMPLE_RATE == 0 && d.crcTag != CrcHex.Hex8(CrcByBits(d.body))
  }

  function CountedFor(counts: map<string, int>, id: string): map<string, int> {
    counts[id := (if id in counts then counts[id] else 0) + 1]
  }

  function Micros(sendTime: int, now: int): int {
    L.Clamped((now - sendTime) as real / 1000000000.0)
  }

  /** The second write of a sample goes to the pattern's accumulator. */
  function Shared(l: Latencies, micros: int): Latencies {
    if l.wired then l.(share := l.share + multiset{micros}) else l
  }

  /** loadAndDelete and the latency sample. */
  function Timed(times: map<(string, int), int>, l: Latencies, key: (string, int), now: int)
    : (map<(string, int), int>, Latencies)
  {
    if key !in times then (times, l)
    else
      var micros := Micros(times[key], now);
      (times - {key}, Shared(l.(own := l.own + multiset{micros}), micros))
  }

  function Sample(s: State, key: (string, int), now: int): State {
    var (times, latencies) := Timed(s.sendTimes, s.latencies, key, now);
    s.(sendTimes := times, latencies := latencies)
  }

  /** One more duplicate while the first ones after a reconnection are put down to it. */
  function DuplicateSeen(h: Health): Health {
    if !h.recentlyReconnected then h
    else
      var counted := h.(reconnDuplicates := h.reconnDuplicates + 1);
      if h.reconnDupCooldown + 1 >= RECONNECT_DUPLICATES
      then counted.(recentlyReconnected := false, reconnDupCooldown := 0)
      else counted.(reconnDupCooldown := h.reconnDupCooldown + 1)
  }

  /** A message the tracker has not seen. */
  function Counted(s: State, d: Delivery, now: int): State {
    Sample(s.(received := s.received + 1, consumerCounts := CountedFor(s.consumerCounts, d.consumerId)),
           (d.producerId, d.n), now)
  }

  function Tracked(w: nat, s: State, d: Delivery, now: int): State {
    var (producers, verdict) := T.RecordAll(w, s.producers, d.producerId, d.n);
    var judged := s.(producers := producers);
    if verdict.isDuplicate then judged.(health := DuplicateSeen(s.health)) else Counted(judged, d, now)
  }

  function Received(w: nat, s: State, d: Delivery, now: int): State {
    var counted := s.(crcSampleCounter := s.crcSampleCounter + 1);
    if Rejected(counted.crcSampleCounter, d) then counted.(corrupted := s.corrupted + 1)
    else Tracked(w, counted, d, now)
  }

  /** The timestamps purge keeps at age 0. */
  function Purged(sendTimes: map<(string, int), int>, now: int): map<(string, int), int> {
    map key | key in sendTimes && sendTimes[key] >= now :: sendTimes[key]
  }

  function Sent(s: State, key: (string, int), skipTimestamp: bool, now: int): State {
    s.(sent := s.sent + 1,
       sendTimes := if skipTimestamp then s.sendTimes else s.sendTimes[key := now],
       rates := Rates(Rings.Recorded(s.rates.peak), Rings.Recorded(s.rates.sliding)))
  }

  function RpcTimes(l: Latencies, durationSec: real): Latencies {
    var micros := L.Clamped(durationSec);
    Shared(l.(rpc := l.rpc + multiset{micros}), micros)
  }

  function Reconnected(h: Health): Health {
    h.(reconnections := h.reconnections + 1, recentlyReconnected := true, reconnDupCooldown := 0)
  }

  function Started(h: Health, now: int): Health {
    if h.downtimeStart.Some? then h else h.(downtimeStart := Some(now))
  }

  function Answered(h: Health, answer: RpcAnswer): Health {
    match answer
    case Success => h.(rpcSuccess := h.rpcSuccess + 1)
    case Timeout => h.(rpcTimeout := h.rpcTimeout + 1)
    case Failure => h.(rpcError := h.rpcError + 1)
  }

  function SecondsFrom(start: int, now: int): real {
    (now - start) as real / 1000.0
  }

  function Stopped(h: Health, now: int): Health {
    if h.downtimeStart.None? then h
    else h.(downtimeTotal := h.downtimeTotal + SecondsFrom(h.downtimeStart.value, now), downtimeStart := None)
  }

  function DowntimeSeconds(h: Health, now: int): real {
    h.downtimeTotal + if h.downtimeStart.Some? then SecondsFrom(h.downtimeStart.value, now) else 0.0
  }

  function AfterReset(h: Health): Health {
    HEALTHY.(recentlyReconnected := h.recentlyReconnected,
             reconnDupCooldown := h.reconnDupCooldown,
             reconnDuplicates := h.reconnDuplicates)
  }

  /** A reset leaves the pattern's samples and the mark of a recent reconnection. */
  function Reset(s: State, now: int): State {
    OPENED.(sendTimes := Purged(s.sendTimes, now),
            latencies := s.latencies.(own := multiset{}, rpc := multiset{}),
            health := AfterReset(s.health))
  }

  function Step(w: nat, s: State, e: Event): State {
    match e
    case Send(id, n, skip, now) => Sent(s, (id, n), skip, now)
    case Receive(d, now) => Received(w, s, d, now)
    case ResetAfterWarmup(now) => Reset(s, now)
    case Slot => s.(rates := Rates(s.rates.peak + [0], s.rates.sliding + [0]))
    case Wire => s.(latencies := s.latencies.(wired := true))
    case RpcTimed(durationSec) => s.(latencies := RpcTimes(s.latencies, durationSec))
    case RpcAnswered(answer) => s.(health := Answered(s.health, answer))
    case Error => s.(health := s.health.(errors := s.health.errors + 1))
    case Reconnection => s.(health := Reconnected(s.health))
    case StartDowntime(now) => s.(health := Started(s.health, now))
    case StopDowntime(now) => s.(health := Stopped(s.health, now))
  }

  function Run(w: nat, events: seq<Event>): State {
    if events == [] then OPENED else Step(w, Run(w, events[..|events| - 1]), events[|events| - 1])
  }
}
