/** The end of warm-up: what it does not depend on, when it goes wrong, and loss reports. */
module TrackerWarmup {
  import opened Options
  import opened Ranges
  import opened TrackerModel
  import opened TrackerReference
  import opened TrackerProperties

  /** The last arrival is the one that fills the warm-up buffer. */
  predicate EndsWarmup(arrivals: seq<int>) {
    |arrivals| > 0 && PastWarmup(arrivals) && !PastWarmup(arrivals[..|arrivals| - 1])
  }

  lemma {:induction false} WhileWarming(w: nat, arrivals: seq<int>)
    requires |WarmupOf(arrivals)| < WARMUP_COUNT
    ensures var warm := WarmupOf(arrivals);
            Run(w, arrivals) ==
            NEW_PRODUCER.(received := |arrivals|, duplicates := |arrivals| - |warm|, warmup := Some(warm))
  {
    hide FinalizeWarmup;
    if arrivals != [] {
      WhileWarming(w, arrivals[..|arrivals| - 1]);
    }
  }

  /** The state right after warm-up. */
  function AfterWarmup(w: nat, warm: seq<int>, received: int): Producer
    requires |warm| > 0
  {
    FinalizeWarmup(w, NEW_PRODUCER.(received := received, duplicates := received - |warm|, warmup := Some(warm)))
  }

  lemma WarmupEnds(w: nat, arrivals: seq<int>)
    requires EndsWarmup(arrivals)
    ensures Run(w, arrivals) == AfterWarmup(w, WarmupOf(arrivals), |arrivals|)
    ensures Elements(WarmupOf(arrivals)) == Elements(arrivals)
  {
    hide FinalizeWarmup, Begin;
    var before, n := arrivals[..|arrivals| - 1], arrivals[|arrivals| - 1];
    WarmupPhase(w, before);
    WhileWarming(w, before);
    WarmupIsAll(before);
    assert arrivals == before + [n];
    assert Elements(arrivals) == Elements(before) + {n};
    assert Elements(WarmupOf(arrivals)) == Elements(WarmupOf(before)) + {n};
  }

  /** Two arrival orders of the same numbers, equally many arrivals, end warm-up in one state. */
  lemma WarmupOrderIrrelevant(w: nat, a: seq<int>, b: seq<int>)
    requires EndsWarmup(a) && EndsWarmup(b) && |a| == |b| && Elements(a) == Elements(b)
    ensures Run(w, a) == Run(w, b)
  {
    hide Run, WarmupOf, MinOf, MaxOf, Advance;
    WarmupEnds(w, a);
    WarmupEnds(w, b);
    var s, t := WarmupOf(a), WarmupOf(b);
    assert forall x :: x in s <==> x in Elements(s);
    assert forall x :: x in t <==> x in Elements(t);
    assert MinOf(s) == MinOf(t) && MaxOf(s) == MaxOf(t);
    assert (set q | q in s && q < MinOf(s) + w) == (set q | q in t && q < MinOf(t) + w);
  }

  // The one way a number is accepted twice.

  /** No number is accepted at two places of the list. */
  ghost predicate AcceptsOnce(w: nat, arrivals: seq<int>) {
    forall i, j | 0 <= i < j < |arrivals| && arrivals[i] == arrivals[j] ::
      VerdictOf(w, arrivals[..i + 1]).isDuplicate || VerdictOf(w, arrivals[..j + 1]).isDuplicate
  }

  lemma AcceptsOnceStep(w: nat, arrivals: seq<int>)
    requires arrivals != []
    ensures var before, n := arrivals[..|arrivals| - 1], arrivals[|arrivals| - 1];
            AcceptsOnce(w, arrivals) <==>
            AcceptsOnce(w, before) && (VerdictOf(w, arrivals).isDuplicate || n !in Accepted(w, before))
  {
    hide VerdictOf;
    var before, last := arrivals[..|arrivals| - 1], |arrivals| - 1;
    forall k | 0 <= k < last ensures before[..k + 1] == arrivals[..k + 1] && before[k] == arrivals[k] {}
    assert arrivals[..last + 1] == arrivals;
    AcceptedAt(w, before, arrivals[last]);
  }

  /** A number is among the accepted ones when some arrival of it was. */
  lemma {:induction false} AcceptedAt(w: nat, arrivals: seq<int>, n: int)
    ensures n in Accepted(w, arrivals) <==>
            exists i :: 0 <= i < |arrivals| && arrivals[i] == n && !VerdictOf(w, arrivals[..i + 1]).isDuplicate
  {
    hide VerdictOf;
    if arrivals != [] {
      var before, last := arrivals[..|arrivals| - 1], |arrivals| - 1;
      AcceptedAt(w, before, n);
      forall k | 0 <= k < last ensures before[..k + 1] == arrivals[..k + 1] && before[k] == arrivals[k] {}
      assert arrivals[..last + 1] == arrivals;
    }
  }

  /** Arrivals less duplicates are at least the different numbers accepted, and as many exactly
      when none was accepted twice. */
  lemma {:induction false} AcceptedCount(w: nat, arrivals: seq<int>)
    ensures var p := Run(w, arrivals);
            && |Accepted(w, arrivals)| <= p.received - p.duplicates
            && (|Accepted(w, arrivals)| == p.received - p.duplicates <==> AcceptsOnce(w, arrivals))
  {
    if arrivals != [] {
      var before, n := arrivals[..|arrivals| - 1], arrivals[|arrivals| - 1];
      AcceptedCount(w, before);
      RecordCounts(w, Run(w, before), n);
      AcceptsOnceStep(w, arrivals);
      hide Run, AcceptsOnce, Record;
      assert Run(w, arrivals) == Record(w, Run(w, before), n).0 by {
        RunLast(w, arrivals);
      }
      assert VerdictOf(w, arrivals) == Record(w, Run(w, before), n).1;
      if !VerdictOf(w, arrivals).isDuplicate && n in Accepted(w, before) {
        assert Accepted(w, arrivals) == Accepted(w, before);
      }
    }
  }

  lemma RunLast(w: nat, arrivals: seq<int>)
    requires arrivals != []
    ensures Run(w, arrivals) == Record(w, Run(w, arrivals[..|arrivals| - 1]), arrivals[|arrivals| - 1]).0
  {
  }

  lemma RecordCounts(w: nat, p: Producer, n: int)
    ensures var (q, v) := Record(w, p, n);
            && q.received == p.received + 1
            && q.duplicates == p.duplicates + (if v.isDuplicate then 1 else 0)
            && q.outOfOrder == p.outOfOrder + (if v.isOutOfOrder then 1 else 0)
  {
    hide Contiguous, Unmarked, MinOf, MaxOf;
  }

  lemma {:induction false} WarmupKept(arrivals: seq<int>, more: seq<int>)
    requires PastWarmup(arrivals)
    ensures WarmupOf(arrivals + more) == WarmupOf(arrivals)
  {
    if more == [] {
      assert arrivals + more == arrivals;
    } else {
      WarmupKept(arrivals, more[..|more| - 1]);
      assert (arrivals + more)[..|arrivals + more| - 1] == arrivals + more[..|more| - 1];
    }
  }

  lemma FittingAcceptsOnce(w: nat, arrivals: seq<int>)
    requires w > 0 && WarmupFits(w, arrivals)
    ensures AcceptsOnce(w, arrivals)
  {
    hide WarmupFits, VerdictOf;
    forall i, j | 0 <= i < j < |arrivals| && arrivals[i] == arrivals[j]
      ensures VerdictOf(w, arrivals[..i + 1]).isDuplicate || VerdictOf(w, arrivals[..j + 1]).isDuplicate
    {
      if !VerdictOf(w, arrivals[..i + 1]).isDuplicate {
        var prefix := arrivals[..j + 1];
        FitsPrefix(w, arrivals, j + 1);
        assert prefix[..i + 1] == arrivals[..i + 1];
        NeverAcceptedTwice(w, prefix, i);
      }
    }
  }

  lemma {:induction false} FitsPrefix(w: nat, arrivals: seq<int>, k: nat)
    requires WarmupFits(w, arrivals) && k <= |arrivals|
    ensures WarmupFits(w, arrivals[..k])
    decreases |arrivals|
  {
    hide WarmupFits;
    if k < |arrivals| {
      FitsBefore(w, arrivals);
      FitsPrefix(w, arrivals[..|arrivals| - 1], k);
      assert arrivals[..|arrivals| - 1][..k] == arrivals[..k];
    } else {
      assert arrivals[..k] == arrivals;
    }
  }

  /** A buffer too wide for the window loses its greatest number: repeated at once, that
      number is accepted again. */
  lemma WideWarmupForgets(w: nat, arrivals: seq<int>)
    requires w > 0 && EndsWarmup(arrivals) && !WarmupFits(w, arrivals)
    ensures var greatest := MaxOf(WarmupOf(arrivals));
            greatest in arrivals && !VerdictOf(w, arrivals + [greatest]).isDuplicate
  {
    hide Run, WarmupOf, Advance;
    var warm := WarmupOf(arrivals);
    var greatest := MaxOf(warm);
    WarmupEnds(w, arrivals);
    assert greatest in Elements(arrivals);
    assert (arrivals + [greatest])[..|arrivals|] == arrivals;
    AdvanceStays(w, arrivals);
    NotMarkedIsNew(w, Run(w, arrivals), greatest);
  }

  lemma AdvanceStays(w: nat, arrivals: seq<int>)
    requires EndsWarmup(arrivals)
    ensures var p, first := Run(w, arrivals), MinOf(WarmupOf(arrivals));
            && p.warmup.None? && p.highContiguous < first + w
            && forall q :: q in p.marks ==> q < first + w
  {
    hide Run, WarmupOf, FinalizeWarmup;
    WarmupEnds(w, arrivals);
    var warm := WarmupOf(arrivals);
    FinalBounds(w, NEW_PRODUCER.(received := |arrivals|, duplicates := |arrivals| - |warm|, warmup := Some(warm)));
  }

  lemma FinalBounds(w: nat, p: Producer)
    requires p.warmup.Some? && |p.warmup.value| > 0
    ensures var q, first := FinalizeWarmup(w, p), MinOf(p.warmup.value);
            && q.warmup.None? && q.highContiguous < first + w
            && forall n :: n in q.marks ==> n < first + w
  {
    hide Contiguous, MinOf, MaxOf, Span;
    var buf := p.warmup.value;
    var first := MinOf(buf);
    var top := Contiguous(first - 1, set n | n in buf && n < first + w);
    assert first <= top ==> top in Span(first - 1, top);
  }

  lemma NotMarkedIsNew(w: nat, p: Producer, n: int)
    requires p.warmup.None? && n > p.highContiguous && n !in p.marks
    ensures !Record(w, p, n).1.isDuplicate
  {
    hide Advance;
  }

  /** Whatever follows warm-up, no number is accepted twice: exactly when the buffer fits. */
  lemma AcceptsOnceExactly(w: nat, arrivals: seq<int>)
    requires w > 0 && EndsWarmup(arrivals)
    ensures WarmupFits(w, arrivals) <==> forall more: seq<int> :: AcceptsOnce(w, arrivals + more)
  {
    hide AcceptsOnce, VerdictOf, WarmupOf;
    if WarmupFits(w, arrivals) {
      forall more: seq<int> ensures AcceptsOnce(w, arrivals + more) {
        WarmupKept(arrivals, more);
        FittingAcceptsOnce(w, arrivals + more);
      }
    } else {
      AcceptedAgain(w, arrivals);
    }
  }

  lemma AcceptedAgain(w: nat, arrivals: seq<int>)
    requires w > 0 && EndsWarmup(arrivals) && !WarmupFits(w, arrivals)
    ensures !AcceptsOnce(w, arrivals + [MaxOf(WarmupOf(arrivals))])
  {
    hide VerdictOf, WarmupOf, WarmupFits;
    var n := MaxOf(WarmupOf(arrivals));
    WideWarmupForgets(w, arrivals);
    WarmupShape(arrivals[..|arrivals| - 1]);
    var i := AcceptedWhileWarming(w, arrivals, n);
    var longer := arrivals + [n];
    var j := |arrivals|;
    assert longer[..i + 1] == arrivals[..i + 1] && longer[..j + 1] == longer;
    assert longer[i] == longer[j];
  }

  /** Every number of the buffer was accepted when it first came. */
  lemma {:induction false} AcceptedWhileWarming(w: nat, arrivals: seq<int>, n: int) returns (i: nat)
    requires |arrivals| > 0 && |WarmupOf(arrivals[..|arrivals| - 1])| < WARMUP_COUNT && n in arrivals
    ensures i < |arrivals| && arrivals[i] == n && !VerdictOf(w, arrivals[..i + 1]).isDuplicate
  {
    hide FinalizeWarmup;
    var before, last := arrivals[..|arrivals| - 1], arrivals[|arrivals| - 1];
    if n in before {
      assert |WarmupOf(before[..|before| - 1])| < WARMUP_COUNT;
      i := AcceptedWhileWarming(w, before, n);
      assert before[..i + 1] == arrivals[..i + 1];
    } else {
      i := |arrivals| - 1;
      assert arrivals[..i + 1] == arrivals;
      assert n == last by {
        assert arrivals == before + [last];
      }
      WhileWarming(w, before);
      WarmupIsAll(before);
      assert n in WarmupOf(before) ==> n in Elements(before);
    }
  }

  // Loss reports.

  datatype Event = Arrival(n: int) | DetectGaps

  datatype Reported = Reported(producer: Producer, total: int)

  /** detectGaps and record interleaved; `total` adds up the reported deltas. */
  function RunReports(w: nat, events: seq<Event>): Reported {
    if events == [] then Reported(NEW_PRODUCER, 0)
    else
      var r := RunReports(w, events[..|events| - 1]);
      match events[|events| - 1]
      case Arrival(n) => Reported(Record(w, r.producer, n).0, r.total)
      case DetectGaps =>
        var (delta, p) := DetectGap(r.producer);
        Reported(p, r.total + delta)
  }

  lemma RecordKeepsReports(w: nat, p: Producer, n: int)
    requires p.warmup.Some? ==> p.confirmedLost == 0
    ensures var next := Record(w, p, n).0;
            && next.lastReportedLost == p.lastReportedLost && next.confirmedLost >= p.confirmedLost
            && (next.warmup.Some? ==> next.confirmedLost == 0)
  {
    hide Contiguous, MinOf, MaxOf, Above;
  }

  /** Reports never run ahead of the losses, and a report just made has caught up. */
  lemma {:induction false} ReportsAddUp(w: nat, events: seq<Event>)
    ensures var r := RunReports(w, events);
            && 0 <= r.total == r.producer.lastReportedLost <= r.producer.confirmedLost
            && (r.producer.warmup.Some? ==> r.producer.confirmedLost == 0)
            && (|events| > 0 && events[|events| - 1].DetectGaps? ==> r.total == r.producer.confirmedLost)
  {
    hide Record;
    if events != [] {
      var before := events[..|events| - 1];
      ReportsAddUp(w, before);
      if events[|events| - 1].Arrival? {
        RecordKeepsReports(w, RunReports(w, before).producer, events[|events| - 1].n);
      }
    }
  }
}
