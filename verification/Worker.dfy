/** The worker object (burnin/src/workers/base.ts): its counters, and the tracker, accumulators,
    rate trackers and timestamp store it owns. */
module Worker {
  import opened Options
  import opened Crc
  import opened WorkerModel
  import CrcHex
  import T = TrackerModel
  import Tracker
  import L = PeakRate
  import Rings
  import PackedBits

  class BaseWorker {
    const tracker: Tracker.Tracker
    const latencyAccum: L.LatencyAccumulator
    const rpcLatencyAccum: L.LatencyAccumulator
    const peakRate: L.PeakRateTracker
    const slidingRate: L.SlidingRateTracker
    var patternLatencyAccum: L.LatencyAccumulator?
    ghost var patternShare: multiset<int>
    var sent: nat
    var received: nat
    var corrupted: nat
    var crcSampleCounter: nat
    var consumerCounts: map<string, int>
    var sendTimes: map<(string, int), int>
    var errors: nat
    var reconnections: nat
    var rpcSuccess: nat
    var rpcTimeout: nat
    var rpcError: nat
    var downtimeTotal: real
    var downtimeStart: Option<int>
    var recentlyReconnected: bool
    var reconnDupCooldown: nat
    ghost var reconnDuplicates: nat

    /** The three accumulators are different objects. The pattern's is shared with other workers. */
    ghost predicate AccumulatorsValid()
      reads `patternLatencyAccum, latencyAccum, rpcLatencyAccum, patternLatencyAccum
    {
      && latencyAccum.Valid() && rpcLatencyAccum.Valid() && latencyAccum != rpcLatencyAccum
      && patternLatencyAccum != latencyAccum && patternLatencyAccum != rpcLatencyAccum
      && (patternLatencyAccum != null ==> patternLatencyAccum.Valid())
    }

    ghost predicate RatesValid()
      reads peakRate, peakRate.buckets, slidingRate, slidingRate.buckets
    {
      peakRate.Valid() && slidingRate.Valid()
    }

    /** No window of the tracker is a bucket array of the rates. */
    ghost predicate Apart()
      reads tracker
    {
      forall p | p in tracker.producers.Values ::
        p.window as object != peakRate.buckets && p.window as object != slidingRate.buckets
    }

    ghost predicate Valid()
      reads `patternLatencyAccum, tracker, tracker.producers.Values,
            set p | p in tracker.producers.Values :: p.window,
            latencyAccum, rpcLatencyAccum, patternLatencyAccum,
            peakRate, peakRate.buckets, slidingRate, slidingRate.buckets
    {
      PartsValid() && AccumulatorsValid()
    }

    ghost predicate PartsValid()
      reads tracker, tracker.producers.Values, set p | p in tracker.producers.Values :: p.window,
            peakRate, peakRate.buckets, slidingRate, slidingRate.buckets
    {
      tracker.Valid() && RatesValid() && Apart()
    }

    ghost function LatencyView(): Latencies
      reads `patternLatencyAccum, `patternShare, latencyAccum, rpcLatencyAccum
    {
      Latencies(latencyAccum.inputs, rpcLatencyAccum.inputs, patternLatencyAccum != null, patternShare)
    }

    ghost function HealthView(): Health
      reads `errors, `reconnections, `rpcSuccess, `rpcTimeout, `rpcError, `downtimeTotal, `downtimeStart,
            `recentlyReconnected, `reconnDupCooldown, `reconnDuplicates
    {
      Health(errors, reconnections, rpcSuccess, rpcTimeout, rpcError, downtimeTotal, downtimeStart,
             recentlyReconnected, reconnDupCooldown, reconnDuplicates)
    }

    ghost function View(): State
      reads this, tracker, tracker.producers.Values, latencyAccum, rpcLatencyAccum, peakRate, slidingRate
    {
      State(sent, received, corrupted, crcSampleCounter, consumerCounts, tracker.Views(), sendTimes,
            LatencyView(), Rates(peakRate.history, slidingRate.history), HealthView())
    }

    constructor (reorderWindow: nat)
      requires 1 <= reorderWindow <= PackedBits.TWO_TO_32
      ensures Valid() && View() == OPENED && tracker.reorderWindow == reorderWindow
    {
      hide Tracker.Tracker.Valid, Tracker.Tracker.Views, L.LatencyAccumulator.Valid, Rings.Shows, L.IsPeak;
      tracker := new Tracker.Tracker(reorderWindow);
      latencyAccum := new L.LatencyAccumulator();
      rpcLatencyAccum := new L.LatencyAccumulator();
      peakRate := new L.PeakRateTracker();
      slidingRate := new L.SlidingRateTracker();
      patternLatencyAccum, patternShare := null, multiset{};
      sent, received, corrupted, crcSampleCounter := 0, 0, 0, 0;
      consumerCounts, sendTimes := map[], map[];
      errors, reconnections, rpcSuccess, rpcTimeout, rpcError := 0, 0, 0, 0, 0;
      downtimeTotal, downtimeStart := 0.0, None;
      recentlyReconnected, reconnDupCooldown, reconnDuplicates := false, 0, 0;
    }

    /** The pattern group hands over its accumulator, once (burnin/src/patternGroup.ts:60-61). */
    method WirePattern(accum: L.LatencyAccumulator)
      requires Valid() && accum.Valid() && accum != latencyAccum && accum != rpcLatencyAccum
      modifies this`patternLatencyAccum
      ensures Valid() && LatencyView() == old(LatencyView()).(wired := true)
    {
      hide PartsValid, L.LatencyAccumulator.Valid;
      patternLatencyAccum := accum;
    }

    method RecordSend(producerId: string, n: int, skipTimestamp: bool, now: int)
      requires Valid()
      modifies this`sent, this`sendTimes, peakRate, peakRate.buckets, slidingRate, slidingRate.buckets
      ensures Valid() && View() == Sent(old(View()), (producerId, n), skipTimestamp, now)
    {
      hide Tracker.Tracker.Valid, Tracker.Tracker.Views, AccumulatorsValid, RatesValid, Rings.Recorded, LatencyView;
      hide HealthView;
      sent := sent + 1;
      if !skipTimestamp {
        sendTimes := sendTimes[(producerId, n) := now];
      }
      RecordRates();
    }

    method RecordRates()
      requires RatesValid()
      modifies peakRate, peakRate.buckets, slidingRate, slidingRate.buckets
      ensures RatesValid()
      ensures peakRate.history == Rings.Recorded(old(peakRate.history))
      ensures slidingRate.history == Rings.Recorded(old(slidingRate.history))
    {
      hide Rings.Recorded, Rings.Shows, L.IsPeak;
      peakRate.Record();
      slidingRate.Record();
    }

    /** The engine's timer (burnin/src/engine.ts:1117-1126). */
    method AdvanceRates()
      requires Valid()
      modifies peakRate, peakRate.buckets, slidingRate, slidingRate.buckets
      ensures Valid() && peakRate.history == old(peakRate.history) + [0]
      ensures slidingRate.history == old(slidingRate.history) + [0]
    {
      hide Tracker.Tracker.Valid, AccumulatorsValid, Rings.Shows, L.IsPeak;
      peakRate.Advance();
      slidingRate.Advance();
    }

    /** TimestampStore.loadAndDelete. */
    method LoadAndDelete(producerId: string, n: int) returns (sendTime: Option<int>)
      modifies this`sendTimes
      ensures sendTime.Some? <==> (producerId, n) in old(sendTimes)
      ensures sendTime.Some? ==> sendTime.value == old(sendTimes)[(producerId, n)]
      ensures sendTimes == old(sendTimes) - {(producerId, n)}
    {
      if (producerId, n) !in sendTimes {
        return None;
      }
      sendTime := Some(sendTimes[(producerId, n)]);
      sendTimes := sendTimes - {(producerId, n)};
    }

    /** The dual write of one latency: to the worker's accumulator `accum` and to the pattern's. */
    method RecordLatency(accum: L.LatencyAccumulator, latency: real, draw: real, patternDraw: real)
      requires AccumulatorsValid() && accum in {latencyAccum, rpcLatencyAccum}
      requires 0.0 <= draw < 1.0 && 0.0 <= patternDraw < 1.0
      modifies this`patternShare, accum, patternLatencyAccum
      ensures AccumulatorsValid()
      ensures accum.inputs == old(accum.inputs) + multiset{L.Clamped(latency)}
      ensures patternShare ==
              if patternLatencyAccum != null then old(patternShare) + multiset{L.Clamped(latency)}
              else old(patternShare)
      ensures patternLatencyAccum != null ==>
                patternLatencyAccum.inputs == old(patternLatencyAccum.inputs) + multiset{L.Clamped(latency)}
    {
      hide L.Clamped, L.Sampled, L.LatencyAccumulator.Valid;
      accum.Record(latency, draw);
      if patternLatencyAccum != null {
        patternLatencyAccum.Record(latency, patternDraw);
        patternShare := patternShare + multiset{L.Clamped(latency)};
      }
    }

    method TakeSample(producerId: string, n: int, now: int, draw: real, patternDraw: real)
      requires AccumulatorsValid() && 0.0 <= draw < 1.0 && 0.0 <= patternDraw < 1.0
      modifies this`sendTimes, this`patternShare, latencyAccum, patternLatencyAccum
      ensures AccumulatorsValid()
      ensures (sendTimes, LatencyView()) == Timed(old(sendTimes), old(LatencyView()), (producerId, n), now)
    {
      hide L.Clamped, L.LatencyAccumulator.Valid;
      var sendTime := LoadAndDelete(producerId, n);
      if sendTime.None? {
        assert sendTimes == old(sendTimes);
        return;
      }
      var latency := (now - sendTime.value) as real / 1000000000.0;
      RecordLatency(latencyAccum, latency, draw, patternDraw);
      assert L.Clamped(latency) == Micros(sendTime.value, now);
    }

    /** The tracker's verdict on one delivery. */
    method Judge(d: Delivery) returns (verdict: T.Verdict)
      requires Valid()
      modifies tracker, tracker.producers.Values, set p | p in tracker.producers.Values :: p.window
      ensures Valid()
      ensures fresh(tracker.producers.Values - old(tracker.producers.Values))
      ensures fresh((set p | p in tracker.producers.Values :: p.window)
                    - old(set p | p in tracker.producers.Values :: p.window))
      ensures var (producers, v) := T.RecordAll(tracker.reorderWindow, old(View()).producers, d.producerId, d.n);
              verdict == v && View() == old(View()).(producers := producers)
    {
      hide T.RecordAll, Tracker.Tracker.Valid, Tracker.Tracker.Views, RatesValid, AccumulatorsValid;
      hide LatencyView, HealthView;
      ghost var windows := set p | p in tracker.producers.Values :: p.window;
      verdict := tracker.Record(d.producerId, d.n);
      forall p | p in tracker.producers.Values
        ensures p.window as object != peakRate.buckets && p.window as object != slidingRate.buckets
      {
        assert p.window in windows || fresh(p.window);
      }
    }

    /** A duplicate, while the first ones after a reconnection are put down to it. */
    method CountDuplicate()
      requires Valid()
      modifies this`reconnDuplicates, this`reconnDupCooldown, this`recentlyReconnected
      ensures Valid() && View() == old(View()).(health := DuplicateSeen(old(View()).health))
    {
      hide PartsValid, AccumulatorsValid, Tracker.Tracker.Views, LatencyView;
      if recentlyReconnected {
        reconnDuplicates := reconnDuplicates + 1;
        reconnDupCooldown := reconnDupCooldown + 1;
        if reconnDupCooldown >= 100 {
          recentlyReconnected := false;
          reconnDupCooldown := 0;
        }
      }
    }

    /** A message that is no duplicate. */
    method Count(d: Delivery, now: int, draw: real, patternDraw: real)
      requires Valid() && 0.0 <= draw < 1.0 && 0.0 <= patternDraw < 1.0
      modifies this`received, this`consumerCounts, this`sendTimes, this`patternShare,
               latencyAccum, patternLatencyAccum
      ensures Valid() && View() == Counted(old(View()), d, now)
    {
      hide PartsValid, AccumulatorsValid, Tracker.Tracker.Views, LatencyView, HealthView, Timed;
      received := received + 1;
      var count := if d.consumerId in consumerCounts then consumerCounts[d.consumerId] else 0;
      consumerCounts := consumerCounts[d.consumerId := count + 1];
      TakeSample(d.producerId, d.n, now, draw, patternDraw);
    }

    /** The part of recordReceive past the CRC sample. */
    method Track(d: Delivery, now: int, draw: real, patternDraw: real)
      requires Valid() && 0.0 <= draw < 1.0 && 0.0 <= patternDraw < 1.0
      modifies this`received, this`consumerCounts, this`sendTimes, this`patternShare,
               this`reconnDuplicates, this`reconnDupCooldown, this`recentlyReconnected,
               tracker, tracker.producers.Values, set p | p in tracker.producers.Values :: p.window,
               latencyAccum, patternLatencyAccum
      ensures Valid() && View() == Tracked(tracker.reorderWindow, old(View()), d, now)
    {
      hide T.RecordAll, Valid, View, DuplicateSeen, Counted;
      var verdict := Judge(d);
      if verdict.isDuplicate {
        CountDuplicate();
      } else {
        Count(d, now, draw, patternDraw);
      }
    }

    /** Every 100th delivery has its checksum verified. */
    method SampleFails(crcTable: array<bv32>, d: Delivery) returns (failed: bool)
      requires Valid() && crcTable.Length == 256 && IsTable(crcTable[..])
      modifies this`crcSampleCounter, this`corrupted
      ensures Valid() && (failed <==> Rejected(old(View()).crcSampleCounter + 1, d))
      ensures View() == old(View()).(crcSampleCounter := old(View()).crcSampleCounter + 1,
                                     corrupted := old(View()).corrupted + if failed then 1 else 0)
    {
      hide CrcHex.Hex8, CrcByBits, PartsValid, AccumulatorsValid, Tracker.Tracker.Views, LatencyView, HealthView;
      crcSampleCounter := crcSampleCounter + 1;
      if crcSampleCounter % CRC_SAMPLE_RATE != 0 {
        return false;
      }
      var intact := CrcHex.VerifyCrc(crcTable, d.body, d.crcTag);
      if !intact {
        corrupted := corrupted + 1;
      }
      return !intact;
    }

    /** `now` is the clock in nanoseconds, the draws are the accumulators' random numbers. */
    method RecordReceive(crcTable: array<bv32>, d: Delivery, now: int, draw: real, patternDraw: real)
      requires Valid() && crcTable.Length == 256 && IsTable(crcTable[..])
      requires 0.0 <= draw < 1.0 && 0.0 <= patternDraw < 1.0
      modifies this`received, this`consumerCounts, this`sendTimes, this`patternShare,
               this`reconnDuplicates, this`reconnDupCooldown, this`recentlyReconnected,
               this`crcSampleCounter, this`corrupted,
               tracker, tracker.producers.Values, set p | p in tracker.producers.Values :: p.window,
               latencyAccum, patternLatencyAccum
      ensures Valid() && View() == Received(tracker.reorderWindow, old(View()), d, now)
    {
      hide Rejected, Tracked, Valid, View;
      var failed := SampleFails(crcTable, d);
      if !failed {
        Track(d, now, draw, patternDraw);
      }
    }

    /** The latency of a remote call (burnin/src/workers/commands.ts:104-108). */
    method RecordRpcLatency(durationSec: real, draw: real, patternDraw: real)
      requires Valid() && 0.0 <= draw < 1.0 && 0.0 <= patternDraw < 1.0
      modifies this`patternShare, rpcLatencyAccum, patternLatencyAccum
      ensures Valid() && LatencyView() == RpcTimes(old(LatencyView()), durationSec)
    {
      hide L.Clamped, L.LatencyAccumulator.Valid, PartsValid;
      RecordLatency(rpcLatencyAccum, durationSec, draw, patternDraw);
    }

    method RecordError()
      modifies this`errors
      ensures HealthView() == old(HealthView()).(errors := old(errors) + 1)
    {
      errors := errors + 1;
    }

    method IncReconnection()
      modifies this`reconnections, this`recentlyReconnected, this`reconnDupCooldown
      ensures HealthView() == Reconnected(old(HealthView()))
    {
      reconnections := reconnections + 1;
      recentlyReconnected := true;
      reconnDupCooldown := 0;
    }

    /** incRpcSuccess, incRpcTimeout and incRpcError. */
    method IncRpc(answer: RpcAnswer)
      modifies this`rpcSuccess, this`rpcTimeout, this`rpcError
      ensures HealthView() == Answered(old(HealthView()), answer)
    {
      match answer
      case Success => rpcSuccess := rpcSuccess + 1;
      case Timeout => rpcTimeout := rpcTimeout + 1;
      case Failure => rpcError := rpcError + 1;
    }

    method StartDowntime(now: int)
      modifies this`downtimeStart
      ensures HealthView() == Started(old(HealthView()), now)
    {
      if downtimeStart.None? {
        downtimeStart := Some(now);
      }
    }

    method StopDowntime(now: int)
      modifies this`downtimeStart, this`downtimeTotal
      ensures HealthView() == Stopped(old(HealthView()), now)
    {
      if downtimeStart.Some? {
        downtimeTotal := downtimeTotal + (now - downtimeStart.value) as real / 1000.0;
        downtimeStart := None;
      }
    }

    /** The downtimeSeconds getter. */
    method DowntimeNow(now: int) returns (t: real)
      ensures t == DowntimeSeconds(HealthView(), now)
    {
      t := downtimeTotal;
      if downtimeStart.Some? {
        t := t + (now - downtimeStart.value) as real / 1000.0;
      }
    }

    /** All but the pattern's samples and the mark of a recent reconnection. */
    method ResetAfterWarmup(now: int)
      requires Valid()
      modifies this`sent, this`received, this`corrupted, this`errors, this`reconnections,
               this`rpcSuccess, this`rpcTimeout, this`rpcError, this`downtimeTotal, this`downtimeStart,
               this`crcSampleCounter, this`sendTimes, this`consumerCounts,
               tracker, latencyAccum, rpcLatencyAccum,
               peakRate, peakRate.buckets, slidingRate, slidingRate.buckets
      ensures Valid() && View() == Reset(old(View()), now)
    {
      hide Valid, View, Purged;
      ClearCounters(now);
      ResetParts();
    }

    method ClearCounters(now: int)
      requires Valid()
      modifies this`sent, this`received, this`corrupted, this`errors, this`reconnections,
               this`rpcSuccess, this`rpcTimeout, this`rpcError, this`downtimeTotal, this`downtimeStart,
               this`crcSampleCounter, this`sendTimes, this`consumerCounts
      ensures Valid()
      ensures View() == old(View()).(sent := 0, received := 0, corrupted := 0, crcSampleCounter := 0,
                                     sendTimes := Purged(old(View()).sendTimes, now), consumerCounts := map[],
                                     health := AfterReset(old(View()).health))
    {
      hide PartsValid, AccumulatorsValid, Tracker.Tracker.Views, LatencyView, HealthView, Purged;
      ClearDeliveries(now);
      ClearHealth();
    }

    method ClearDeliveries(now: int)
      modifies this`sent, this`received, this`corrupted, this`crcSampleCounter, this`sendTimes, this`consumerCounts
      ensures sent == received == corrupted == crcSampleCounter == 0
      ensures sendTimes == Purged(old(sendTimes), now) && consumerCounts == map[]
    {
      sent, received, corrupted := 0, 0, 0;
      crcSampleCounter := 0;
      sendTimes := Purged(sendTimes, now);
      consumerCounts := map[];
    }

    /** The mark of a recent reconnection stays. */
    method ClearHealth()
      modifies this`errors, this`reconnections, this`rpcSuccess, this`rpcTimeout, this`rpcError,
               this`downtimeTotal, this`downtimeStart
      ensures HealthView() == AfterReset(old(HealthView()))
    {
      errors, reconnections := 0, 0;
      rpcSuccess, rpcTimeout, rpcError := 0, 0, 0;
      downtimeTotal, downtimeStart := 0.0, None;
    }

    /** The tracker, the accumulators but the pattern's, and the rates. */
    method ResetParts()
      requires Valid()
      modifies tracker, latencyAccum, rpcLatencyAccum,
               peakRate, peakRate.buckets, slidingRate, slidingRate.buckets
      ensures Valid()
      ensures var was := old(View());
              View() == was.(producers := map[], rates := NO_RATES,
                             latencies := was.latencies.(own := multiset{}, rpc := multiset{}))
    {
      hide Tracker.Tracker.Valid, L.LatencyAccumulator.Valid, RatesValid, HealthView;
      tracker.Reset();
      assert PartsValid() by {
        assert tracker.producers == map[];
      }
      latencyAccum.Reset();
      rpcLatencyAccum.Reset();
      ResetRates();
    }

    method ResetRates()
      requires PartsValid()
      modifies peakRate, peakRate.buckets, slidingRate, slidingRate.buckets
      ensures PartsValid() && peakRate.history == slidingRate.history == [0]
    {
      hide Tracker.Tracker.Valid, Rings.Shows, L.IsPeak;
      peakRate.Reset();
      slidingRate.Reset();
    }
  }
}
