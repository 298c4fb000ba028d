/** The rate trackers and the latency accumulator (burnin/src/peakRate.ts). Each keeps, as a
    ghost, the full history it summarises. */
module PeakRate {
  import opened Rings
  import opened Sums
  import opened Percentiles

  const WINDOW_SIZE: nat := 10
  const SLIDING_RATE_WINDOW: nat := 30
  const MAX_SAMPLES: nat := 50_000

  function MinNat(a: nat, b: nat): nat {
    if a < b then a else b
  }

  /** Adds up a ring of buckets. */
  method SumOf(buckets: array<nat>) returns (sum: int)
    ensures sum == Total(buckets[..])
  {
    sum := 0;
    for i := 0 to buckets.Length
      invariant sum == Total(buckets[..i])
    {
      assert buckets[..i + 1][..i] == buckets[..i];
      sum := sum + buckets[i];
    }
    assert buckets[..buckets.Length] == buckets[..];
  }

  /** The events per slot since the last reset, the current slot last. */
  class SlidingRateTracker {
    const buckets: array<nat>
    var idx: nat
    var totalSlots: nat
    ghost var history: seq<nat>

    ghost predicate Valid()
      reads this, buckets
    {
      && buckets.Length == SLIDING_RATE_WINDOW
      && Shows(buckets[..], idx, history)
      && totalSlots == MinNat(|history| - 1, SLIDING_RATE_WINDOW)
    }

    constructor ()
      ensures Valid() && fresh(buckets) && history == [0]
    {
      buckets := new nat[SLIDING_RATE_WINDOW](_ => 0);
      idx, totalSlots, history := 0, 0, [0];
      new;
      assert buckets[..] == Zeros(SLIDING_RATE_WINDOW);
      ShowsReset(SLIDING_RATE_WINDOW, 0);
    }

    method Record()
      requires Valid()
      modifies this, buckets
      ensures Valid() && history == Recorded(old(history))
    {
      hide Shows, Recorded;
      ShowsIndex(buckets[..], idx, history);
      ShowsRecorded(buckets[..], idx, history);
      RecordedLength(history);
      buckets[idx] := buckets[idx] + 1;
      history := Recorded(history);
    }

    method Advance()
      requires Valid()
      modifies this, buckets
      ensures Valid() && history == old(history) + [0]
    {
      hide Shows;
      ShowsIndex(buckets[..], idx, history);
      ShowsAdvanced(buckets[..], idx, history);
      idx := (idx + 1) % SLIDING_RATE_WINDOW;
      buckets[idx] := 0;
      history := history + [0];
      if totalSlots < SLIDING_RATE_WINDOW {
        totalSlots := totalSlots + 1;
      }
    }

    /** The events of the last 30 slots, the open one included, over the number of slots closed,
        at most 30. */
    method Rate() returns (rate: real)
      requires Valid()
      ensures |history| == 1 ==> rate == 0.0
      ensures |history| > 1 ==>
                rate * (if |history| - 1 < 30 then |history| - 1 else 30) as real
                == Total(Recent(history, 30)) as real
    {
      if totalSlots == 0 {
        return 0.0;
      }
      var filled := MinNat(totalSlots, SLIDING_RATE_WINDOW);
      var sum := SumOf(buckets);
      ShowsTotal(buckets[..], idx, history);
      return sum as real / filled as real;
    }

    /** The ring position survives a reset. */
    method Reset()
      requires Valid()
      modifies this, buckets
      ensures Valid() && history == [0] && idx == old(idx)
    {
      forall i | 0 <= i < buckets.Length {
        buckets[i] := 0;
      }
      totalSlots := 0;
      history := [0];
      assert buckets[..] == Zeros(SLIDING_RATE_WINDOW);
      ShowsReset(SLIDING_RATE_WINDOW, idx);
    }
  }

  /** The mean of the last 10 slots. */
  function Average(history: seq<nat>): (average: real)
    ensures 10.0 * average == Total(Recent(history, 10)) as real
  {
    Total(Recent(history, WINDOW_SIZE)) as real / WINDOW_SIZE as real
  }

  /** `peak` is the greatest average at any advance, 0 before the first. */
  ghost predicate IsPeak(peak: real, history: seq<nat>) {
    && (forall k :: 1 <= k < |history| ==> Average(history[..k]) <= peak)
    && (if |history| <= 1 then peak == 0.0
        else exists k :: 1 <= k < |history| && Average(history[..k]) == peak)
  }

  lemma IsPeakUnique(history: seq<nat>, p: real, q: real)
    requires IsPeak(p, history) && IsPeak(q, history)
    ensures p == q
  {
  }

  /** A record leaves every closed slot alone. */
  lemma PeakRecorded(peak: real, history: seq<nat>)
    requires history != [] && IsPeak(peak, history)
    ensures IsPeak(peak, Recorded(history))
  {
    hide Average;
    forall k | 1 <= k < |history| ensures Recorded(history)[..k] == history[..k] {}
    if |history| > 1 {
      var k :| 1 <= k < |history| && Average(history[..k]) == peak;
      assert Average(Recorded(history)[..k]) == peak;
    }
  }

  lemma PeakAdvanced(peak: real, history: seq<nat>)
    requires history != [] && IsPeak(peak, history)
    ensures IsPeak(if Average(history) > peak then Average(history) else peak, history + [0])
  {
    AverageNotNegative(history);
    hide Average;
    var more := history + [0];
    forall k | 1 <= k < |history| ensures more[..k] == history[..k] {}
    assert more[..|history|] == history;
    if |history| > 1 {
      var k :| 1 <= k < |history| && Average(history[..k]) == peak;
      assert Average(more[..k]) == peak;
    }
  }

  lemma AverageNotNegative(history: seq<nat>)
    ensures Average(history) >= 0.0
  {
    TotalNotNegative(Recent(history, WINDOW_SIZE));
  }

  class PeakRateTracker {
    const buckets: array<nat>
    var idx: nat
    var peak: real
    ghost var history: seq<nat>

    ghost predicate Valid()
      reads this, buckets
    {
      && buckets.Length == WINDOW_SIZE
      && Shows(buckets[..], idx, history)
      && IsPeak(peak, history)
    }

    constructor ()
      ensures Valid() && fresh(buckets) && history == [0]
    {
      buckets := new nat[WINDOW_SIZE](_ => 0);
      idx, peak, history := 0, 0.0, [0];
      new;
      assert buckets[..] == Zeros(WINDOW_SIZE);
      ShowsReset(WINDOW_SIZE, 0);
    }

    method Record()
      requires Valid()
      modifies this, buckets
      ensures Valid() && history == Recorded(old(history))
    {
      hide Shows, IsPeak, Recorded;
      ShowsIndex(buckets[..], idx, history);
      ShowsRecorded(buckets[..], idx, history);
      PeakRecorded(peak, history);
      buckets[idx] := buckets[idx] + 1;
      history := Recorded(history);
    }

    method Advance()
      requires Valid()
      modifies this, buckets
      ensures Valid() && history == old(history) + [0]
    {
      hide Shows, IsPeak;
      var total := SumOf(buckets);
      var avg := total as real / WINDOW_SIZE as real;
      ShowsTotal(buckets[..], idx, history);
      assert avg == Average(history);
      ShowsIndex(buckets[..], idx, history);
      PeakAdvanced(peak, history);
      if avg > peak {
        peak := avg;
      }
      ShowsAdvanced(buckets[..], idx, history);
      idx := (idx + 1) % WINDOW_SIZE;
      buckets[idx] := 0;
      history := history + [0];
    }

    method Peak() returns (p: real)
      requires Valid()
      ensures IsPeak(p, history)
    {
      return peak;
    }

    method Reset()
      requires Valid()
      modifies this, buckets
      ensures Valid() && history == [0] && idx == old(idx)
    {
      forall i | 0 <= i < buckets.Length {
        buckets[i] := 0;
      }
      peak := 0.0;
      history := [0];
      assert buckets[..] == Zeros(WINDOW_SIZE);
      ShowsReset(WINDOW_SIZE, idx);
    }
  }

  /** A duration in seconds as whole microseconds, to the nearest with halves up, from 1 to 10
      seconds. */
  function Clamped(durationSec: real): (micros: int)
    ensures 1 <= micros <= 10_000_000
    ensures durationSec * 1000000.0 < 1.5 ==> micros == 1
    ensures durationSec * 1000000.0 >= 9999999.5 ==> micros == 10_000_000
    ensures 0.5 <= durationSec * 1000000.0 < 10000000.5 ==>
              micros as real - 0.5 <= durationSec * 1000000.0 < micros as real + 0.5
  {
    var micros := (durationSec * 1000000.0 + 0.5).Floor;
    if micros < 1 then 1 else if micros > 10_000_000 then 10_000_000 else micros
  }

  /** Where the sample for the `count`-th input goes once the samples are full; nowhere when
      the index is beyond them. */
  function Slot(draw: real, count: nat): (i: nat)
    requires 0.0 <= draw < 1.0 && count > 0
    ensures i < count && i as real <= draw * count as real < i as real + 1.0
  {
    Scaled(draw, 1.0, count as real);
    (draw * count as real).Floor
  }

  /** The samples after the `count`-th input `x`. */
  function Sampled(samples: seq<int>, x: int, draw: real, count: nat): seq<int>
    requires 0.0 <= draw < 1.0 && count > 0
  {
    if |samples| < MAX_SAMPLES then samples + [x]
    else if Slot(draw, count) < |samples| then samples[Slot(draw, count) := x]
    else samples
  }

  /** The samples are some of the inputs, all of them up to the bound. */
  ghost predicate Summarises(samples: seq<int>, inputs: multiset<int>) {
    && |samples| == MinNat(|inputs|, MAX_SAMPLES)
    && multiset(samples) <= inputs
    && (forall x :: x in inputs ==> 1 <= x <= 10_000_000)
  }

  lemma SampledSummarises(samples: seq<int>, inputs: multiset<int>, x: int, draw: real)
    requires Summarises(samples, inputs) && 1 <= x <= 10_000_000 && 0.0 <= draw < 1.0
    ensures Summarises(Sampled(samples, x, draw, |inputs| + 1), inputs + multiset{x})
  {
    hide Slot;
    var i := Slot(draw, |inputs| + 1);
    if |samples| == MAX_SAMPLES && i < |samples| {
      assert multiset(samples[i := x]) <= multiset(samples) + multiset{x};
    }
  }

  /** The reservoir: with 50000 samples the new one takes the place the draw falls on among as many
      places as there are inputs, and is dropped exactly when that is beyond the samples. */
  lemma ReservoirExactly(samples: seq<int>, x: int, draw: real, count: nat, place: nat)
    requires 0.0 <= draw < 1.0 && count > 0
    requires place as real <= draw * count as real < place as real + 1.0
    ensures Sampled(samples, x, draw, count) ==
            if |samples| < 50_000 then samples + [x]
            else if place < |samples| then samples[place := x]
            else samples
  {
  }

  /** Up to the bound the samples are exactly the inputs. */
  lemma AllKept(samples: seq<int>, inputs: multiset<int>)
    requires Summarises(samples, inputs)
    ensures multiset(samples) == inputs <==> |inputs| <= 50_000
  {
    assert |inputs| == |multiset(samples)| + |inputs - multiset(samples)|;
    assert multiset(samples) + (inputs - multiset(samples)) == inputs;
  }

  /** The index percentileMs reads among `n` sorted samples. */
  function RankIndex(p: real, n: nat): (at: nat)
    requires n > 0
    ensures at < n
  {
    var rank := Ceil(p / 100.0 * n as real) - 1;
    var idx := if rank < n - 1 then rank else n - 1;
    if idx < 0 then 0 else idx
  }

  lemma RankAbove(p: real, n: nat)
    requires n > 0 && p > 100.0
    ensures RankIndex(p, n) == n - 1
  {
    assert p / 100.0 > 1.0;
    Scaled(1.0, p / 100.0, n as real);
  }

  lemma Scaled(a: real, b: real, n: real)
    requires a < b && n > 0.0
    ensures a * n < b * n
  {
  }

  lemma RankBelow(p: real, n: nat)
    requires n > 0 && p <= 0.0
    ensures RankIndex(p, n) == 0
  {
    assert p / 100.0 * n as real <= 0.0;
  }

  /** Is `v` the percentile of the samples; the least or greatest one for a `p` outside (0, 100]? */
  ghost predicate IsPercentile(samples: seq<int>, p: real, v: int) {
    && v in samples
    && (0.0 < p <= 100.0 ==> NearestRank(samples, p, v))
    && (p <= 0.0 ==> forall x :: x in samples ==> v <= x)
    && (p > 100.0 ==> forall x :: x in samples ==> x <= v)
  }

  lemma IndexPicks(samples: seq<int>, sorted: seq<int>, p: real)
    requires samples != [] && Ascending(sorted) && (sorted == samples || sorted == Sort(samples))
    requires |sorted| == |samples| && multiset(sorted) == multiset(samples)
    ensures IsPercentile(samples, p, sorted[RankIndex(p, |sorted|)])
  {
    var at := RankIndex(p, |sorted|);
    SameElements(samples, sorted);
    hide Sort, NearestRank, RankIndex;
    assert sorted[at] in sorted;
    if 0.0 < p <= 100.0 {
      RankInside(samples, sorted, p);
    } else if p <= 0.0 {
      RankBelow(p, |sorted|);
    } else {
      RankAbove(p, |sorted|);
    }
  }

  lemma SameElements(a: seq<int>, b: seq<int>)
    requires multiset(a) == multiset(b)
    ensures forall x :: x in a <==> x in b
  {
    forall x ensures x in a <==> x in b {
      assert x in a <==> x in multiset(a);
      assert x in b <==> x in multiset(b);
    }
  }

  lemma RankInside(samples: seq<int>, sorted: seq<int>, p: real)
    requires samples != [] && Ascending(sorted) && (sorted == samples || sorted == Sort(samples))
    requires |sorted| == |samples| && (forall x :: x in samples <==> x in sorted)
    requires 0.0 < p <= 100.0
    ensures NearestRank(samples, p, sorted[RankIndex(p, |sorted|)])
  {
    hide Sort, Ascending, NearestRank;
    IndexIsNearestRank(sorted, p);
    var rank := Ceil(p / 100.0 * |sorted| as real) - 1;
    assert RankIndex(p, |sorted|) == rank;
    if sorted != samples {
      SortedNearestRank(samples, p, sorted[RankIndex(p, |sorted|)]);
    }
  }

  lemma SortedNearestRank(samples: seq<int>, p: real, v: int)
    requires NearestRank(Sort(samples), p, v) && v in samples
    ensures NearestRank(samples, p, v)
  {
    hide Sort, CountAtMost;
    SortKeeps(samples);
    SortCounts(samples, v);
    SortCounts(samples, v - 1);
  }

  class LatencyAccumulator {
    var samples: seq<int>
    var count: nat
    var sorted: bool
    ghost var inputs: multiset<int>

    ghost predicate Valid()
      reads this
    {
      count == |inputs| && Summarises(samples, inputs) && (sorted ==> Ascending(samples))
    }

    constructor ()
      ensures Valid() && inputs == multiset{}
    {
      samples, count, sorted, inputs := [], 0, false, multiset{};
    }

    /** `draw` is the random number in [0, 1), used once the samples are full. */
    method Record(durationSec: real, draw: real)
      requires Valid() && 0.0 <= draw < 1.0
      modifies this
      ensures Valid() && inputs == old(inputs) + multiset{Clamped(durationSec)}
      ensures count == old(count) + 1
      ensures samples == Sampled(old(samples), Clamped(durationSec), draw, count)
    {
      var micros := Clamped(durationSec);
      hide Clamped, Slot, Summarises, Ascending;
      SampledSummarises(samples, inputs, micros, draw);
      count := count + 1;
      if |samples| < MAX_SAMPLES {
        samples := samples + [micros];
      } else {
        assert |samples| == MAX_SAMPLES by {
          SummaryLength(samples, inputs);
        }
        var idx := Slot(draw, count);
        if idx < MAX_SAMPLES {
          samples := samples[idx := micros];
        }
      }
      inputs := inputs + multiset{micros};
      sorted := false;
    }

    /** In milliseconds. The samples are sorted in place. */
    method PercentileMs(p: real) returns (ms: real)
      requires Valid()
      modifies this`samples, this`sorted
      ensures Valid() && multiset(samples) == multiset(old(samples))
      ensures samples == [] ==> ms == 0.0
      ensures samples != [] ==> exists v :: IsPercentile(old(samples), p, v) && ms == v as real / 1000.0
    {
      if |samples| == 0 {
        return 0.0;
      }
      hide Sort, RankIndex, IsPercentile;
      SortKeeps(samples);
      if !sorted {
        samples := Sort(samples);
        sorted := true;
      }
      var idx := RankIndex(p, |samples|);
      IndexPicks(old(samples), samples, p);
      return samples[idx] as real / 1000.0;
    }

    method Count() returns (c: nat)
      requires Valid()
      ensures c == |inputs|
    {
      return count;
    }

    method Reset()
      modifies this
      ensures Valid() && inputs == multiset{}
    {
      samples, count, sorted, inputs := [], 0, false, multiset{};
    }
  }

  lemma SummaryLength(samples: seq<int>, inputs: multiset<int>)
    requires Summarises(samples, inputs)
    ensures |samples| <= MAX_SAMPLES
  {
  }
}
