/** What a warm-up buffer that does not fit the window costs: each result about the tracker holds
    of every continuation exactly when the buffer fits. */
module TrackerWide {
  import opened Ranges
  import opened TrackerModel
  import opened TrackerReference
  import opened TrackerProperties
  import opened TrackerWarmup

  /** The integers from `lo` up to, but not with, `hi`, in order. */
  function Counting(lo: int, hi: int): (s: seq<int>)
    ensures lo <= hi ==> |s| == hi - lo
    ensures forall i :: 0 <= i < |s| ==> s[i] == lo + i
  {
    if lo >= hi then [] else seq(hi - lo, i => lo + i)
  }

  // When a buffer fits.

  lemma SubsetSize(a: set<int>, b: set<int>)
    requires a <= b
    ensures |a| <= |b|
  {
    assert b == a + (b - a);
  }

  /** No full buffer fits a window of fewer than 64 bits. */
  lemma NarrowNeverFits(w: nat, arrivals: seq<int>)
    requires PastWarmup(arrivals) && w < WARMUP_COUNT
    ensures !WarmupFits(w, arrivals)
  {
    hide MinOf, MaxOf, Span;
    WarmupShape(arrivals);
    var warm := WarmupOf(arrivals);
    DistinctSize(warm);
    SubsetSize(Elements(warm), Span(MinOf(warm) - 1, MaxOf(warm)));
  }

  // Right after warm-up.

  lemma WarmupExtremes(arrivals: seq<int>)
    requires EndsWarmup(arrivals)
    ensures |WarmupOf(arrivals)| == WARMUP_COUNT
    ensures var least, greatest := MinOf(WarmupOf(arrivals)), MaxOf(WarmupOf(arrivals));
            least <= greatest && greatest in arrivals && First(arrivals) == least
  {
    hide Run, WarmupOf;
    WarmupEnds(1, arrivals);
    assert MaxOf(WarmupOf(arrivals)) in Elements(WarmupOf(arrivals));
    assert MaxOf(WarmupOf(arrivals)) in Elements(arrivals);
  }

  /** A wide buffer leaves its greatest number above the anchor and unmarked, though it arrived. */
  lemma WideDropsGreatest(w: nat, arrivals: seq<int>)
    requires EndsWarmup(arrivals) && !WarmupFits(w, arrivals)
    ensures var p, greatest := Run(w, arrivals), MaxOf(WarmupOf(arrivals));
            p.warmup.None? && p.highContiguous < greatest && greatest !in p.marks
  {
    hide Run, WarmupOf;
    WarmupExtremes(arrivals);
    AdvanceStays(w, arrivals);
  }

  /** The window marks what arrived above the anchor exactly when the buffer fits. */
  lemma MarksExactly(w: nat, arrivals: seq<int>)
    requires w > 0 && EndsWarmup(arrivals)
    ensures Run(w, arrivals).marks == Above(Elements(arrivals), Run(w, arrivals).highContiguous)
            <==> WarmupFits(w, arrivals)
  {
    hide Run, WarmupOf, WarmupFits, RefRun;
    if WarmupFits(w, arrivals) {
      WarmupEnds(w, arrivals);
      WarmupPhaseIs(w, arrivals);
      PastWarmupMatches(w, arrivals);
    } else {
      WarmupExtremes(arrivals);
      WideDropsGreatest(w, arrivals);
      assert MaxOf(WarmupOf(arrivals)) in Elements(arrivals);
    }
  }

  /** At the end of warm-up the reference starts from the buffer. */
  lemma WarmupPhaseIs(w: nat, arrivals: seq<int>)
    requires EndsWarmup(arrivals)
    ensures RefRun(w, arrivals).phase == Begin(WarmupOf(arrivals))
  {
    hide Begin;
    WarmupPhase(w, arrivals[..|arrivals| - 1]);
  }

  /** The packed window agrees with the unbounded tracker, whatever follows, exactly when the
      buffer fits. */
  lemma RefinesExactly(w: nat, arrivals: seq<int>)
    requires w > 0 && EndsWarmup(arrivals)
    ensures WarmupFits(w, arrivals) <==>
            forall more: seq<int> :: Matches(w, Run(w, arrivals + more), RefRun(w, arrivals + more))
  {
    hide Run, WarmupOf, WarmupFits, RefRun, Matches;
    if WarmupFits(w, arrivals) {
      forall more: seq<int> ensures Matches(w, Run(w, arrivals + more), RefRun(w, arrivals + more)) {
        StillFits(w, arrivals, more);
        WindowRefinesReference(w, arrivals + more);
      }
    } else {
      assert arrivals + [] == arrivals;
      WideMismatch(w, arrivals);
    }
  }

  lemma StillFits(w: nat, arrivals: seq<int>, more: seq<int>)
    requires PastWarmup(arrivals)
    ensures WarmupOf(arrivals + more) == WarmupOf(arrivals) && PastWarmup(arrivals + more)
    ensures WarmupFits(w, arrivals + more) <==> WarmupFits(w, arrivals)
  {
    hide WarmupOf;
    WarmupKept(arrivals, more);
  }

  lemma WideMismatch(w: nat, arrivals: seq<int>)
    requires EndsWarmup(arrivals) && !WarmupFits(w, arrivals)
    ensures !Matches(w, Run(w, arrivals), RefRun(w, arrivals))
  {
    hide Run, WarmupOf, WarmupFits, RefRun, Contiguous;
    WarmupExtremes(arrivals);
    WideDropsGreatest(w, arrivals);
    WarmupPhaseIs(w, arrivals);
    assert MaxOf(WarmupOf(arrivals)) in Elements(WarmupOf(arrivals));
  }

  /** Sequence space is conserved, whatever follows, exactly when the buffer fits. */
  lemma ConservesExactly(w: nat, arrivals: seq<int>)
    requires w > 0 && EndsWarmup(arrivals)
    ensures WarmupFits(w, arrivals) <==>
            forall more: seq<int> :: PastWarmup(arrivals + more) && Conserves(w, arrivals + more)
  {
    hide WarmupOf, WarmupFits, Conserves;
    if WarmupFits(w, arrivals) {
      forall more: seq<int> ensures PastWarmup(arrivals + more) && Conserves(w, arrivals + more) {
        StillFits(w, arrivals, more);
        Conservation(w, arrivals + more);
      }
    } else {
      assert arrivals + [] == arrivals;
      WideNotConserved(w, arrivals);
    }
  }

  lemma WideNotConserved(w: nat, arrivals: seq<int>)
    requires w > 0 && EndsWarmup(arrivals) && !WarmupFits(w, arrivals)
    ensures !Conserves(w, arrivals)
  {
    hide Run, WarmupOf, WarmupFits, VerdictOf, Accepted, Span;
    var greatest := MaxOf(WarmupOf(arrivals));
    WarmupExtremes(arrivals);
    WideDropsGreatest(w, arrivals);
    WarmupShape(arrivals[..|arrivals| - 1]);
    var i := AcceptedWhileWarming(w, arrivals, greatest);
    AcceptedStays(w, arrivals, i);
  }

  // Losses.

  /** The number `g` has been passed and counted lost, or is still unmarked above the anchor. */
  ghost predicate Doomed(p: Producer, g: int) {
    && p.warmup.None? && p.confirmedLost >= 0
    && (p.confirmedLost == 0 ==> p.highContiguous < g && g !in p.marks)
  }

  /** It stays so as long as `g` does not come again. */
  lemma DoomedStays(w: nat, p: Producer, g: int, n: int)
    requires Doomed(p, g) && n != g
    ensures var q := Record(w, p, n).0; Doomed(q, g) && q.confirmedLost >= p.confirmedLost
  {
    hide Unmarked, Contiguous;
    var slid := Slide(w, Counted(p), n);
    assert Doomed(slid, g) && slid.confirmedLost >= p.confirmedLost by {
      var target := n - w;
      if p.confirmedLost == 0 && target > p.highContiguous && target >= g {
        PassedIsLost(p.highContiguous, target, p.marks, g);
      }
    }
    if n > p.highContiguous && n !in slid.marks && slid.confirmedLost == 0 {
      AdvanceStopsBelow(slid.highContiguous, slid.marks + {n}, g);
    }
  }

  lemma PassedIsLost(lo: int, hi: int, marks: set<int>, g: int)
    requires lo < g <= hi && g !in marks
    ensures Unmarked(lo, hi, marks) >= 1
  {
    assert g in Span(lo, hi) - marks;
  }

  lemma AdvanceStopsBelow(hc: int, marks: set<int>, g: int)
    requires hc < g && g !in marks
    ensures Contiguous(hc, marks) < g
  {
    var top := Contiguous(hc, marks);
    assert g <= top ==> g in Span(hc, top);
  }

  /** A number a window above `g` settles it. */
  lemma DoomedIsLost(w: nat, p: Producer, g: int, n: int)
    requires Doomed(p, g) && w > 0 && n >= g + w
    ensures Record(w, p, n).0.confirmedLost >= 1
  {
    hide Unmarked, Contiguous;
    if p.confirmedLost == 0 {
      PassedIsLost(p.highContiguous, n - w, p.marks, g);
    } else {
      DoomedStays(w, p, g, n);
    }
  }

  lemma {:induction false} DoomedRun(w: nat, arrivals: seq<int>, g: int, more: seq<int>)
    requires Doomed(Run(w, arrivals), g) && g !in more
    ensures Doomed(Run(w, arrivals + more), g)
  {
    hide Record, Doomed;
    if more == [] {
      assert arrivals + more == arrivals;
    } else {
      var before, n := more[..|more| - 1], more[|more| - 1];
      DoomedRun(w, arrivals, g, before);
      assert (arrivals + more)[..|arrivals + more| - 1] == arrivals + before;
      DoomedStays(w, Run(w, arrivals + before), g, n);
    }
  }

  /** All numbers from the least on in order, but for the greatest of the buffer, and on until a
      window beyond it. */
  function Filling(least: int, greatest: int, w: nat): seq<int> {
    Counting(least, greatest) + Counting(greatest + 1, greatest + w + 1)
  }

  /** In a filling every number below another comes before it, the greatest one apart. */
  lemma FillingOrdered(least: int, greatest: int, w: nat, j: nat, q: int)
    requires least <= greatest && w > 0 && j < |Filling(least, greatest, w)|
    requires least <= q < Filling(least, greatest, w)[j] && q != greatest
    ensures q in Filling(least, greatest, w)[..j]
  {
    var s := Filling(least, greatest, w);
    var i := if q < greatest then q - least else q - least - 1;
    assert s[i] == q && i < j;
    assert s[..j][i] == q;
  }

  /** A wide buffer that overtook nothing, filled up: nothing is overtaken, and a loss counted. */
  lemma FilledYetLost(w: nat, arrivals: seq<int>)
    requires w > 0 && EndsWarmup(arrivals) && !WarmupFits(w, arrivals) && LostOf(w, arrivals) == {}
    ensures var more := Filling(First(arrivals), MaxOf(WarmupOf(arrivals)), w);
            && PastWarmup(arrivals + more) && LostOf(w, arrivals + more) == {}
            && Run(w, arrivals + more).confirmedLost >= 1
  {
    hide Run, WarmupOf, WarmupFits, LostOf, Overtaken, MinOf, MaxOf;
    WarmupExtremes(arrivals);
    var least, greatest := First(arrivals), MaxOf(WarmupOf(arrivals));
    var more := Filling(least, greatest, w);
    StillFits(w, arrivals, more);
    forall q ensures q !in LostOf(w, arrivals + more) {
      LostOfShape(w, arrivals + more, q);
      LostOfShape(w, arrivals, q);
      if q >= least {
        NotOvertakenByFilling(w, arrivals, least, greatest, q);
      }
    }
    WideDropsGreatest(w, arrivals);
    NoLossYet(w, arrivals);
    LostByFilling(w, arrivals, least, greatest);
  }

  lemma NoLossYet(w: nat, arrivals: seq<int>)
    requires EndsWarmup(arrivals)
    ensures Run(w, arrivals).confirmedLost == 0
  {
    hide Run, WarmupOf, Contiguous, MinOf, MaxOf;
    WarmupEnds(w, arrivals);
  }

  lemma LostByFilling(w: nat, arrivals: seq<int>, least: int, greatest: int)
    requires w > 0 && least <= greatest && Doomed(Run(w, arrivals), greatest)
    ensures Run(w, arrivals + Filling(least, greatest, w)).confirmedLost >= 1
  {
    hide Record, Doomed;
    var more := Filling(least, greatest, w);
    var before, last := more[..|more| - 1], more[|more| - 1];
    assert last == greatest + w;
    DoomedRun(w, arrivals, greatest, before);
    DoomedIsLost(w, Run(w, arrivals + before), greatest, last);
    assert (arrivals + more)[..|arrivals + more| - 1] == arrivals + before;
    assert Run(w, arrivals + more) == Record(w, Run(w, arrivals + before), last).0;
  }

  lemma NotOvertakenByFilling(w: nat, arrivals: seq<int>, least: int, greatest: int, q: int)
    requires w > 0 && least <= greatest && greatest in arrivals && q >= least && !Overtaken(w, arrivals, q)
    ensures !Overtaken(w, arrivals + Filling(least, greatest, w), q)
  {
    var more := Filling(least, greatest, w);
    var all := arrivals + more;
    forall i | 0 <= i < |all| && all[i] >= q + w ensures q in all[..i] {
      if i < |arrivals| {
        assert all[..i] == arrivals[..i];
      } else {
        var j := i - |arrivals|;
        assert all[..i] == arrivals + more[..j];
        if q != greatest {
          FillingOrdered(least, greatest, w, j, q);
        }
      }
    }
  }

  /** The losses counted are the overtaken numbers, whatever follows, exactly when the buffer
      fits. */
  lemma LossesExactly(w: nat, arrivals: seq<int>)
    requires w > 0 && EndsWarmup(arrivals)
    ensures WarmupFits(w, arrivals) <==>
            forall more: seq<int> :: PastWarmup(arrivals + more) && LossesExact(w, arrivals + more)
  {
    hide Run, WarmupOf, WarmupFits, LostOf, MinOf, MaxOf, Overtaken;
    if WarmupFits(w, arrivals) {
      forall more: seq<int> ensures PastWarmup(arrivals + more) && LossesExact(w, arrivals + more) {
        var all := arrivals + more;
        StillFits(w, arrivals, more);
        forall q ensures q in LostOf(w, all) <==> q >= First(all) && Overtaken(w, all, q) {
          LostOfShape(w, all, q);
        }
        ExactLoss(w, all, LostOf(w, all));
      }
    } else if LostOf(w, arrivals) == {} {
      FilledYetLost(w, arrivals);
      var more := Filling(First(arrivals), MaxOf(WarmupOf(arrivals)), w);
      assert !LossesExact(w, arrivals + more);
    } else {
      NoLossYet(w, arrivals);
      assert arrivals + [] == arrivals;
      assert !LossesExact(w, arrivals);
    }
  }

  // Two such buffers.

  lemma {:induction false} DistinctWarmup(s: seq<int>)
    requires Distinct(s) && |s| <= WARMUP_COUNT
    ensures WarmupOf(s) == s
  {
    if s != [] {
      var before := s[..|s| - 1];
      DistinctWarmup(before);
      assert s == before + [s[|s| - 1]];
    }
  }

  lemma CountingDistinct(lo: int, hi: int)
    requires lo <= hi
    ensures Distinct(Counting(lo, hi)) && forall q :: q in Counting(lo, hi) <==> lo <= q < hi
  {
    var s := Counting(lo, hi);
    forall q | lo <= q < hi ensures q in s {
      var i := q - lo;
      assert s[i] == q;
    }
  }

  lemma CountingNext(lo: int, hi: int)
    requires lo <= hi
    ensures Counting(lo, hi + 1) == Counting(lo, hi) + [hi]
  {
  }

  /** 64 different numbers are a warm-up buffer. */
  lemma FullBuffer(warm: seq<int>)
    requires Distinct(warm) && |warm| == WARMUP_COUNT
    ensures WarmupOf(warm) == warm && EndsWarmup(warm)
  {
    DistinctWarmup(warm);
    DistinctWarmup(warm[..WARMUP_COUNT - 1]);
  }

  /** In order, nothing is overtaken. */
  lemma InOrderNothingLost(w: nat, lo: int, hi: int)
    requires w > 0 && lo <= hi && PastWarmup(Counting(lo, hi)) && First(Counting(lo, hi)) == lo
    ensures LostOf(w, Counting(lo, hi)) == {}
  {
    hide WarmupOf, MinOf, MaxOf;
    var s := Counting(lo, hi);
    forall i, q | 0 <= i < |s| && lo <= q < s[i] ensures q in s[..i] {
      var k := q - lo;
      assert s[..i][k] == q;
    }
    forall q ensures q !in LostOf(w, s) {
      LostOfShape(w, s, q);
    }
  }

  /** With a window of 32, any 65 numbers in order, none missing: a loss is counted at the last. */
  lemma InOrderYetLost(lo: int)
    ensures var arrivals := Counting(lo, lo + 65);
            && PastWarmup(arrivals) && LostOf(32, arrivals) == {}
            && Run(32, arrivals).confirmedLost == 1
  {
    hide Run, WarmupOf, LostOf, Overtaken, MinOf, MaxOf, Record;
    var warm, all := Counting(lo, lo + 64), Counting(lo, lo + 65);
    CountingDistinct(lo, lo + 64);
    CountingNext(lo, lo + 64);
    FullBuffer(warm);
    StillFits(32, warm, [lo + 64]);
    LeastCounted(lo);
    InOrderNothingLost(32, lo, lo + 65);
    NarrowAfterWarmup(lo);
    NarrowNext(Run(32, warm), lo);
    RunNext(32, warm, lo + 64);
  }

  lemma RunNext(w: nat, arrivals: seq<int>, n: int)
    ensures Run(w, arrivals + [n]) == Record(w, Run(w, arrivals), n).0
  {
    assert (arrivals + [n])[..|arrivals|] == arrivals;
  }

  lemma LeastCounted(lo: int)
    ensures |Counting(lo, lo + 64)| == 64 && MinOf(Counting(lo, lo + 64)) == lo
  {
    CountingDistinct(lo, lo + 64);
  }

  lemma NarrowAfterWarmup(lo: int)
    requires WarmupOf(Counting(lo, lo + 64)) == Counting(lo, lo + 64) && EndsWarmup(Counting(lo, lo + 64))
    ensures var p := Run(32, Counting(lo, lo + 64));
            p.warmup.None? && p.highContiguous == lo + 31 && p.marks == {} && p.confirmedLost == 0
  {
    hide Run, WarmupOf, Contiguous, MinOf, MaxOf, Span;
    var warm := Counting(lo, lo + 64);
    WarmupEnds(32, warm);
    LeastCounted(lo);
    CountingDistinct(lo, lo + 64);
    assert (set q | q in warm && q < lo + 32) == Span(lo - 1, lo + 31);
    ContiguousUnique(lo - 1, Span(lo - 1, lo + 31), lo + 31);
  }

  lemma NarrowNext(p: Producer, lo: int)
    requires p.warmup.None? && p.highContiguous == lo + 31 && p.marks == {} && p.confirmedLost == 0
    ensures Record(32, p, lo + 64).0.confirmedLost == 1
  {
    hide Contiguous;
    assert Span(lo + 31, lo + 32) - {} == Span(lo + 31, lo + 32);
    assert Unmarked(lo + 31, lo + 32, {}) == |Span(lo + 31, lo + 32)|;
  }

  /** With a window of 10000, the default, one number far ahead is enough: 0 to 62, then 20000. */
  lemma FarAheadDropped()
    ensures var arrivals := Counting(0, 63) + [20_000];
            && EndsWarmup(arrivals) && !WarmupFits(10_000, arrivals)
            && 20_000 !in Run(10_000, arrivals).marks
            && !VerdictOf(10_000, arrivals + [20_000]).isDuplicate
  {
    hide Run, MinOf, MaxOf, VerdictOf;
    var arrivals := Counting(0, 63) + [20_000];
    CountingDistinct(0, 63);
    FullBuffer(arrivals);
    assert 0 in arrivals && 20_000 in arrivals by {
      assert arrivals[0] == 0 && arrivals[63] == 20_000;
    }
    assert MaxOf(arrivals) == 20_000 by {
      assert forall q :: q in arrivals ==> q <= 20_000;
      assert MaxOf(arrivals) in arrivals;
    }
    WideDropsGreatest(10_000, arrivals);
    WideWarmupForgets(10_000, arrivals);
  }
}
