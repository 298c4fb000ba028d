/** The unbounded tracker the packed window stands for: it keeps every accepted number and a
    floor below which nothing is accepted any more. The window is proved to agree with it on
    every run, and what the tracker promises is proved of it. */
module TrackerReference {
  import opened Options
  import opened Ranges
  import opened M = TrackerModel

  datatype Phase =
    | Collecting(seen: seq<int>)
    | Tracking(first: int, accepted: set<int>, floor: int, lastSeen: int)

  datatype Reference = Reference(phase: Phase, received: int, duplicates: int, outOfOrder: int)

  function Begin(seen: seq<int>): Phase
    requires |seen| > 0
  {
    Tracking(MinOf(seen), Elements(seen), Contiguous(MinOf(seen) - 1, Elements(seen)), MaxOf(seen))
  }

  function Judge(phase: Phase, n: int): Verdict {
    match phase
    case Collecting(seen) => Verdict(n in seen, false)
    case Tracking(_, accepted, floor, lastSeen) =>
      var duplicate := n <= floor || n in accepted;
      Verdict(duplicate, !duplicate && n < lastSeen)
  }

  /** A new number. The floor keeps within `w` of it and then takes in the run above. */
  function Admit(w: nat, phase: Phase, n: int): Phase {
    match phase
    case Collecting(seen) =>
      if |seen| + 1 >= WARMUP_COUNT then Begin(seen + [n]) else Collecting(seen + [n])
    case Tracking(first, accepted, floor, lastSeen) =>
      var all := accepted + {n};
      Tracking(first, all, Contiguous(Max(floor, n - w), all), Max(lastSeen, n))
  }

  function Step(w: nat, r: Reference, n: int): Reference {
    var v := Judge(r.phase, n);
    Reference(if v.isDuplicate then r.phase else Admit(w, r.phase, n),
              r.received + 1,
              r.duplicates + (if v.isDuplicate then 1 else 0),
              r.outOfOrder + (if v.isOutOfOrder then 1 else 0))
  }

  function RefRun(w: nat, arrivals: seq<int>): Reference {
    if arrivals == [] then Reference(Collecting([]), 0, 0, 0)
    else Step(w, RefRun(w, arrivals[..|arrivals| - 1]), arrivals[|arrivals| - 1])
  }

  function Lost(phase: Phase): set<int>
    requires phase.Tracking?
  {
    Span(phase.first - 1, phase.floor) - phase.accepted
  }

  /** The first distinct arrivals, up to WARMUP_COUNT of them, in order: the warm-up buffer. */
  function WarmupOf(arrivals: seq<int>): seq<int> {
    if arrivals == [] then []
    else
      var before := WarmupOf(arrivals[..|arrivals| - 1]);
      var n := arrivals[|arrivals| - 1];
      if n in before || |before| >= WARMUP_COUNT then before else before + [n]
  }

  /** The warm-up buffer, once full, spans less than the window. Lines 109-114 of tracker.ts
      drop what does not fit. */
  predicate WarmupFits(w: nat, arrivals: seq<int>) {
    var warm := WarmupOf(arrivals);
    |warm| == WARMUP_COUNT ==> MaxOf(warm) - MinOf(warm) < w
  }

  lemma FitsBefore(w: nat, arrivals: seq<int>)
    requires |arrivals| > 0 && WarmupFits(w, arrivals)
    ensures WarmupFits(w, arrivals[..|arrivals| - 1])
  {
    hide MinOf, MaxOf;
  }

  lemma {:induction false} WarmupShape(arrivals: seq<int>)
    ensures |WarmupOf(arrivals)| <= WARMUP_COUNT && Distinct(WarmupOf(arrivals))
    ensures Elements(WarmupOf(arrivals)) <= Elements(arrivals)
  {
    if arrivals != [] {
      WarmupShape(arrivals[..|arrivals| - 1]);
      var before, n := WarmupOf(arrivals[..|arrivals| - 1]), arrivals[|arrivals| - 1];
      assert arrivals == arrivals[..|arrivals| - 1] + [n];
      if n !in before {
        DistinctAppend(before, n);
      }
      assert forall x | x in before :: x in Elements(before);
    }
  }

  // Refinement.

  /** The state a producer and the reference tracker are in after the same arrivals. */
  ghost predicate Matches(w: nat, p: Producer, r: Reference) {
    && p.received == r.received && p.duplicates == r.duplicates && p.outOfOrder == r.outOfOrder
    && match r.phase
       case Collecting(seen) => p.warmup == Some(seen) && |seen| < WARMUP_COUNT && p.confirmedLost == 0
       case Tracking(_, _, _, _) => InStep(w, p, r.phase)
  }

  ghost predicate InStep(w: nat, p: Producer, t: Phase)
    requires t.Tracking?
  {
    && p.warmup.None?
    && p.highContiguous == t.floor && t.first - 1 <= t.floor && t.floor + 1 !in t.accepted
    && p.marks == Above(t.accepted, t.floor)
    && p.lastSeen == t.lastSeen
    && p.confirmedLost == Unmarked(t.first - 1, t.floor, t.accepted)
    && forall q :: q in t.accepted ==> t.first <= q <= t.floor + w
  }

  lemma BeginMatches(w: nat, p: Producer)
    requires p.warmup.Some? && |p.warmup.value| > 0 && p.confirmedLost == 0
    requires MaxOf(p.warmup.value) - MinOf(p.warmup.value) < w
    ensures Matches(w, FinalizeWarmup(w, p),
                    Reference(Begin(p.warmup.value), p.received, p.duplicates, p.outOfOrder))
  {
    hide Contiguous, Span, MinOf, MaxOf;
    var buf := p.warmup.value;
    var kept := set q | q in buf && q < MinOf(buf) + w;
    assert kept == Elements(buf);
    assert Lost(Begin(buf)) == {};
  }

  /** What is lost when the floor moves from `floor` through `base` to `top`. */
  lemma LossGrows(first: int, accepted: set<int>, floor: int, n: int, base: int, top: int)
    requires first - 1 <= floor <= base < n && base <= top
    requires Span(base, top) <= accepted + {n}
    ensures Unmarked(first - 1, top, accepted + {n}) ==
            Unmarked(first - 1, floor, accepted) + Unmarked(floor, base, Above(accepted, floor))
  {
    hide Span;
    var before, newly := Span(first - 1, floor) - accepted, Span(floor, base) - Above(accepted, floor);
    assert Span(first - 1, top) - (accepted + {n}) == before + newly;
    assert before !! newly;
  }

  /** A slide in one formula, whether or not the window moves. */
  lemma SlideTotal(w: nat, p: Producer, n: int)
    requires p.marks == Above(p.marks, p.highContiguous)
    ensures var base := Max(p.highContiguous, n - w);
            Slide(w, p, n) ==
            p.(highContiguous := base, marks := Above(p.marks, base),
               confirmedLost := p.confirmedLost + Unmarked(p.highContiguous, base, p.marks))
  {
    if p.highContiguous >= n - w {
      assert Span(p.highContiguous, p.highContiguous) - p.marks == {};
    }
  }

  /** A number the reference admits slides the window and is accepted there. */
  lemma AdmitSlides(w: nat, p: Producer, accepted: set<int>, n: int)
    requires p.warmup.None? && p.marks == Above(accepted, p.highContiguous)
    requires n > p.highContiguous && n !in accepted && w > 0
    ensures var base := Max(p.highContiguous, n - w);
            var slid := Counted(p).(highContiguous := base, marks := Above(accepted, base),
                                    confirmedLost := p.confirmedLost + Unmarked(p.highContiguous, base, p.marks));
            Record(w, p, n) == Accept(slid, n) && base < n
  {
    hide Unmarked, Slide, Accept;
    SlideTotal(w, Counted(p), n);
    assert Above(p.marks, Max(p.highContiguous, n - w)) == Above(accepted, Max(p.highContiguous, n - w));
  }

  lemma AdmitMatches(w: nat, p: Producer, t: Phase, n: int)
    requires t.Tracking? && InStep(w, p, t) && n > t.floor && n !in t.accepted && w > 0
    ensures var (next, v) := Record(w, p, n);
            && InStep(w, next, Admit(w, t, n)) && v == Judge(t, n)
            && next.received == p.received + 1 && next.duplicates == p.duplicates
            && next.outOfOrder == p.outOfOrder + if v.isOutOfOrder then 1 else 0
  {
    hide Unmarked, Contiguous, Record, Accept, Above, Span;
    var Tracking(first, accepted, floor, lastSeen) := t;
    AdmitSlides(w, p, accepted, n);
    var base := Max(floor, n - w);
    var top := Contiguous(base, accepted + {n});
    AcceptMatches(Counted(p).(highContiguous := base, marks := Above(accepted, base),
                              confirmedLost := p.confirmedLost + Unmarked(floor, base, p.marks)),
                  accepted, n);
    LossGrows(first, accepted, floor, n, base, top);
  }

  lemma AcceptMatches(slid: Producer, accepted: set<int>, n: int)
    requires slid.marks == Above(accepted, slid.highContiguous) && n > slid.highContiguous
    ensures var top := Contiguous(slid.highContiguous, accepted + {n}); var late := n < slid.lastSeen;
            Accept(slid, n) ==
            (slid.(highContiguous := top, marks := Above(accepted + {n}, top),
                   outOfOrder := slid.outOfOrder + (if late then 1 else 0),
                   lastSeen := Max(slid.lastSeen, n)),
             Verdict(false, late))
  {
    hide Contiguous;
    var base, all := slid.highContiguous, accepted + {n};
    assert slid.marks + {n} == Above(all, base);
    ContiguousAbove(base, all);
    var top := Contiguous(base, all);
    assert Above(Above(all, base), top) == Above(all, top);
  }

  lemma ContiguousAbove(hc: int, marks: set<int>)
    ensures Contiguous(hc, Above(marks, hc)) == Contiguous(hc, marks)
  {
    var top := Contiguous(hc, marks);
    ContiguousUnique(hc, Above(marks, hc), top);
  }

  lemma DuplicateMatches(w: nat, p: Producer, r: Reference, n: int)
    requires Matches(w, p, r) && Judge(r.phase, n).isDuplicate
    ensures Matches(w, Record(w, p, n).0, Step(w, r, n))
    ensures Record(w, p, n).1 == Judge(r.phase, n)
  {
    if r.phase.Tracking? && n > r.phase.floor {
      NoSlide(w, Counted(p), n);
    }
  }

  /** Same verdicts, same counters, same losses, on every run. */
  lemma {:induction false} WindowRefinesReference(w: nat, arrivals: seq<int>)
    requires w > 0 && WarmupFits(w, arrivals)
    ensures Matches(w, Run(w, arrivals), RefRun(w, arrivals))
    ensures |arrivals| > 0 ==>
              VerdictOf(w, arrivals) ==
              Judge(RefRun(w, arrivals[..|arrivals| - 1]).phase, arrivals[|arrivals| - 1])
  {
    WarmupPhase(w, arrivals);
    if arrivals != [] {
      var before, n := arrivals[..|arrivals| - 1], arrivals[|arrivals| - 1];
      FitsBefore(w, arrivals);
      WindowRefinesReference(w, before);
      WarmupPhase(w, before);
      var p, r := Run(w, before), RefRun(w, before);
      if Judge(r.phase, n).isDuplicate {
        DuplicateMatches(w, p, r, n);
      } else if r.phase.Tracking? {
        AdmitMatches(w, p, r.phase, n);
      } else if |r.phase.seen| + 1 >= WARMUP_COUNT {
        BeginMatches(w, Counted(p).(warmup := Some(r.phase.seen + [n])));
      }
    }
  }

  lemma VerdictIsJudgement(w: nat, arrivals: seq<int>)
    requires w > 0 && WarmupFits(w, arrivals) && |arrivals| > 0
    ensures VerdictOf(w, arrivals) == Judge(RefRun(w, arrivals[..|arrivals| - 1]).phase, arrivals[|arrivals| - 1])
  {
    hide Matches;
    WindowRefinesReference(w, arrivals);
  }

  /** Past warm-up, the producer's state in terms of the reference. */
  lemma PastWarmupMatches(w: nat, arrivals: seq<int>)
    requires w > 0 && WarmupFits(w, arrivals) && |WarmupOf(arrivals)| == WARMUP_COUNT
    ensures var t := RefRun(w, arrivals).phase;
            t.Tracking? && t.first == MinOf(WarmupOf(arrivals)) && InStep(w, Run(w, arrivals), t)
  {
    hide InStep, MinOf, MaxOf;
    WindowRefinesReference(w, arrivals);
    WarmupPhase(w, arrivals);
  }

  lemma SameCounters(w: nat, arrivals: seq<int>)
    requires w > 0 && WarmupFits(w, arrivals)
    ensures var p, r := Run(w, arrivals), RefRun(w, arrivals);
            p.received == r.received && p.duplicates == r.duplicates && p.outOfOrder == r.outOfOrder
  {
    WindowRefinesReference(w, arrivals);
  }

  /** The reference collects exactly the warm-up buffer, then starts at its least number. */
  lemma {:induction false} WarmupPhase(w: nat, arrivals: seq<int>)
    ensures var phase := RefRun(w, arrivals).phase; var warm := WarmupOf(arrivals);
            if |warm| < WARMUP_COUNT then phase == Collecting(warm)
            else |warm| == WARMUP_COUNT && phase.Tracking? && phase.first == MinOf(warm)
  {
    if arrivals != [] {
      WarmupPhase(w, arrivals[..|arrivals| - 1]);
    }
  }
}
