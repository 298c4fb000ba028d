/** What the tracker promises over whole runs. Everything is stated of the tracker's own state
    after a list of arrivals and proved through the reference tracker. */
module TrackerProperties {
  import opened Ranges
  import opened TrackerModel
  import opened TrackerReference

  predicate PastWarmup(arrivals: seq<int>) {
    |WarmupOf(arrivals)| == WARMUP_COUNT
  }

  /** The least number of the warm-up buffer: where loss accounting starts. */
  function First(arrivals: seq<int>): int
    requires PastWarmup(arrivals)
  {
    MinOf(WarmupOf(arrivals))
  }

  /** The arrivals the tracker did not call duplicates. */
  function Accepted(w: nat, arrivals: seq<int>): set<int> {
    if arrivals == [] then {}
    else
      Accepted(w, arrivals[..|arrivals| - 1]) +
      if VerdictOf(w, arrivals).isDuplicate then {} else {arrivals[|arrivals| - 1]}
  }

  lemma {:induction false} AcceptedIsReference(w: nat, arrivals: seq<int>)
    requires w > 0 && WarmupFits(w, arrivals)
    ensures Accepted(w, arrivals) == AcceptedBy(RefRun(w, arrivals).phase)
    ensures |Accepted(w, arrivals)| == RefRun(w, arrivals).received - RefRun(w, arrivals).duplicates
  {
    hide Run, VerdictOf, WarmupFits, WarmupOf, Admit, Judge;
    if arrivals != [] {
      var before, n := arrivals[..|arrivals| - 1], arrivals[|arrivals| - 1];
      FitsBefore(w, arrivals);
      AcceptedIsReference(w, before);
      VerdictIsJudgement(w, arrivals);
      if !Judge(RefRun(w, before).phase, n).isDuplicate {
        AcceptedGrows(w, RefRun(w, before).phase, n);
      }
    }
  }

  function AcceptedBy(phase: Phase): set<int> {
    match phase
    case Collecting(seen) => Elements(seen)
    case Tracking(_, accepted, _, _) => accepted
  }

  lemma AcceptedGrows(w: nat, phase: Phase, n: int)
    requires !Judge(phase, n).isDuplicate
    ensures AcceptedBy(Admit(w, phase, n)) == AcceptedBy(phase) + {n} && n !in AcceptedBy(phase)
  {
    hide Contiguous, MinOf, MaxOf;
    if phase.Collecting? {
      assert Elements(phase.seen + [n]) == Elements(phase.seen) + {n};
    }
  }

  /** Conservation of sequence space: every number from First up to the anchor is accepted or
      counted lost, the marks are the accepted numbers above it, none lies beyond the window, and
      every arrival is an acceptance or a duplicate. */
  ghost predicate Conserves(w: nat, arrivals: seq<int>)
    requires PastWarmup(arrivals)
  {
    var p, accepted := Run(w, arrivals), Accepted(w, arrivals);
    && p.warmup.None?
    && p.highContiguous - (First(arrivals) - 1)
       == |Span(First(arrivals) - 1, p.highContiguous) * accepted| + p.confirmedLost
    && p.marks == Above(accepted, p.highContiguous)
    && (forall q :: q in accepted ==> First(arrivals) <= q <= p.highContiguous + w)
    && p.highContiguous + 1 !in accepted
    && p.received == |accepted| + p.duplicates
  }

  lemma Conservation(w: nat, arrivals: seq<int>)
    requires w > 0 && WarmupFits(w, arrivals) && PastWarmup(arrivals)
    ensures Conserves(w, arrivals)
  {
    hide Run, RefRun, Accepted, WarmupOf, WarmupFits, MinOf, Span;
    PastWarmupMatches(w, arrivals);
    SameCounters(w, arrivals);
    AcceptedIsReference(w, arrivals);
    var p, accepted := Run(w, arrivals), Accepted(w, arrivals);
    var range := Span(First(arrivals) - 1, p.highContiguous);
    assert range == range * accepted + (range - accepted);
  }

  /** No number is accepted twice. */
  lemma {:induction false} NeverAcceptedTwice(w: nat, arrivals: seq<int>, i: nat)
    requires w > 0 && WarmupFits(w, arrivals)
    requires |arrivals| > 0 && i < |arrivals| - 1 && arrivals[i] == arrivals[|arrivals| - 1]
    requires !VerdictOf(w, arrivals[..i + 1]).isDuplicate
    ensures VerdictOf(w, arrivals).isDuplicate
  {
    var before := arrivals[..|arrivals| - 1];
    hide Run, RefRun, Accepted, WarmupOf, WarmupFits, VerdictOf;
    FitsBefore(w, arrivals);
    VerdictIsJudgement(w, arrivals);
    AcceptedIsReference(w, before);
    assert arrivals[..i + 1] == before[..i + 1];
    AcceptedStays(w, before, i);
  }

  lemma {:induction false} AcceptedStays(w: nat, arrivals: seq<int>, i: nat)
    requires i < |arrivals| && !VerdictOf(w, arrivals[..i + 1]).isDuplicate
    ensures arrivals[i] in Accepted(w, arrivals)
  {
    if i == |arrivals| - 1 {
      assert arrivals[..i + 1] == arrivals;
    } else {
      var before := arrivals[..|arrivals| - 1];
      assert before[..i + 1] == arrivals[..i + 1];
      AcceptedStays(w, before, i);
    }
  }

  // Loss.

  /** A number at least `w` above `q` arrived while `q` had not. */
  ghost predicate Overtaken(w: nat, arrivals: seq<int>, q: int) {
    exists i :: 0 <= i < |arrivals| && arrivals[i] >= q + w && q !in arrivals[..i]
  }

  lemma OvertakenStep(w: nat, arrivals: seq<int>, n: int, q: int)
    ensures Overtaken(w, arrivals + [n], q) <==> Overtaken(w, arrivals, q) || (n >= q + w && q !in arrivals)
  {
    var more := arrivals + [n];
    forall i | 0 <= i <= |arrivals| ensures more[..i] == arrivals[..i] {}
    if n >= q + w && q !in arrivals {
      assert more[|arrivals|] >= q + w && q !in more[..|arrivals|];
    }
    if Overtaken(w, arrivals, q) {
      var i :| 0 <= i < |arrivals| && arrivals[i] >= q + w && q !in arrivals[..i];
      assert more[i] >= q + w && q !in more[..i];
    }
  }

  /** A number already overtaken by one that arrived. */
  lemma OvertakenBy(w: nat, arrivals: seq<int>, n: int, q: int)
    requires n in arrivals && n >= q + w && q !in arrivals
    ensures Overtaken(w, arrivals, q)
  {
    var i :| 0 <= i < |arrivals| && arrivals[i] == n;
    assert arrivals[i] >= q + w && q !in arrivals[..i];
  }

  /** What a tracking reference knows of the arrivals. */
  ghost predicate Accounts(w: nat, arrivals: seq<int>, t: Phase)
    requires t.Tracking?
  {
    && t.first - 1 <= t.floor
    && (forall q :: q in t.accepted ==> q in arrivals)
    && (forall q :: q in arrivals && q > t.floor ==> q in t.accepted)
    && (forall q :: q in Lost(t) <==> q >= t.first && Overtaken(w, arrivals, q))
  }

  lemma BeginAccounts(w: nat, arrivals: seq<int>)
    requires w > 0 && PastWarmup(arrivals) && WarmupFits(w, arrivals)
    requires Elements(arrivals) == Elements(WarmupOf(arrivals))
    ensures Accounts(w, arrivals, Begin(WarmupOf(arrivals)))
  {
    var warm := WarmupOf(arrivals);
    var t := Begin(warm);
    assert forall q | q in arrivals :: q in Elements(arrivals);
    assert forall q | q in t.accepted :: q in Elements(arrivals);
    forall q | q >= t.first ensures !Overtaken(w, arrivals, q) {
      forall i | 0 <= i < |arrivals| ensures arrivals[i] < q + w {
        assert arrivals[i] in Elements(arrivals);
        assert arrivals[i] in warm;
      }
    }
    assert Lost(t) == {};
  }

  lemma AdmitAccounts(w: nat, arrivals: seq<int>, t: Phase, n: int)
    requires t.Tracking? && Accounts(w, arrivals, t) && w > 0
    requires n > t.floor && n !in t.accepted
    ensures Accounts(w, arrivals + [n], Admit(w, t, n))
  {
    var next := Admit(w, t, n);
    AdmitFloor(w, t, n);
    hide Admit, Overtaken;
    forall q
      ensures q in Lost(next) <==> q >= t.first && Overtaken(w, arrivals + [n], q)
    {
      OvertakenStep(w, arrivals, n, q);
      assert q in Lost(t) <==> q >= t.first && Overtaken(w, arrivals, q);
    }
  }

  /** What the floor passes by admitting `n`: numbers a window below it, and accepted ones. */
  lemma AdmitFloor(w: nat, t: Phase, n: int)
    requires t.Tracking? && n > t.floor
    ensures var next := Admit(w, t, n); var base := Max(t.floor, n - w);
            && next.Tracking? && next.first == t.first && next.accepted == t.accepted + {n}
            && base <= next.floor
            && forall q :: base < q <= next.floor ==> q in next.accepted
  {
    var next, base := Admit(w, t, n), Max(t.floor, n - w);
    assert forall q :: base < q <= next.floor ==> q in Span(base, next.floor);
  }

  lemma DuplicateAccounts(w: nat, arrivals: seq<int>, t: Phase, n: int)
    requires t.Tracking? && Accounts(w, arrivals, t) && w > 0
    requires n <= t.floor || n in t.accepted
    ensures Accounts(w, arrivals + [n], t)
  {
    forall q
      ensures q >= t.first ==> (Overtaken(w, arrivals + [n], q) <==> Overtaken(w, arrivals, q))
    {
      OvertakenStep(w, arrivals, n, q);
      if q >= t.first && n >= q + w && q !in arrivals {
        if n in t.accepted {
          OvertakenBy(w, arrivals, n, q);
        } else {
          assert q in Lost(t);
        }
      }
    }
  }

  lemma {:induction false} RunAccounts(w: nat, arrivals: seq<int>)
    requires w > 0 && PastWarmup(arrivals) && WarmupFits(w, arrivals)
    ensures RefRun(w, arrivals).phase.Tracking? && Accounts(w, arrivals, RefRun(w, arrivals).phase)
  {
    var before, n := arrivals[..|arrivals| - 1], arrivals[|arrivals| - 1];
    assert arrivals == before + [n];
    hide Accounts, Begin, Admit, MinOf, MaxOf, Elements;
    WarmupPhase(w, before);
    WarmupPhase(w, arrivals);
    if PastWarmup(before) {
      FitsBefore(w, arrivals);
      hide WarmupFits, WarmupOf;
      RunAccounts(w, before);
      var t := RefRun(w, before).phase;
      if n <= t.floor || n in t.accepted {
        DuplicateAccounts(w, before, t, n);
      } else {
        AdmitAccounts(w, before, t, n);
      }
    } else {
      FilledByLast(arrivals);
      BeginAccounts(w, arrivals);
    }
  }

  lemma FilledByLast(arrivals: seq<int>)
    requires |arrivals| > 0 && |WarmupOf(arrivals[..|arrivals| - 1])| < WARMUP_COUNT
    ensures Elements(arrivals) == Elements(WarmupOf(arrivals))
  {
    var before, n := arrivals[..|arrivals| - 1], arrivals[|arrivals| - 1];
    WarmupIsAll(before);
    assert arrivals == before + [n];
    assert n in WarmupOf(before) ==> n in Elements(WarmupOf(before));
    assert Elements(arrivals) == Elements(before) + {n};
    assert n !in WarmupOf(before) ==> Elements(WarmupOf(arrivals)) == Elements(WarmupOf(before)) + {n};
  }

  /** Until the buffer is full it holds every number that arrived. */
  lemma {:induction false} WarmupIsAll(arrivals: seq<int>)
    requires |WarmupOf(arrivals)| < WARMUP_COUNT
    ensures Elements(arrivals) == Elements(WarmupOf(arrivals))
  {
    if arrivals != [] {
      var before, n := arrivals[..|arrivals| - 1], arrivals[|arrivals| - 1];
      WarmupIsAll(before);
      assert Elements(arrivals) == Elements(before) + {n};
      assert n !in WarmupOf(before) ==> Elements(WarmupOf(arrivals)) == Elements(WarmupOf(before)) + {n};
      assert n in WarmupOf(before) ==> n in Elements(WarmupOf(before));
    }
  }

  /** Exact loss: the tracker counts `q` lost exactly when it had not arrived by the time a
      number at least `q + w` did; each such number once. */
  lemma ExactLoss(w: nat, arrivals: seq<int>, lost: set<int>)
    requires w > 0 && PastWarmup(arrivals) && WarmupFits(w, arrivals)
    requires forall q :: q in lost <==> q >= First(arrivals) && Overtaken(w, arrivals, q)
    ensures Run(w, arrivals).confirmedLost == |lost|
    ensures forall q :: q in lost ==> q <= Run(w, arrivals).highContiguous && q !in Accepted(w, arrivals)
  {
    hide Run, RefRun, Accepted, WarmupOf, WarmupFits, MinOf, Span, Overtaken;
    RunAccounts(w, arrivals);
    PastWarmupMatches(w, arrivals);
    AcceptedIsReference(w, arrivals);
    assert lost == Lost(RefRun(w, arrivals).phase);
  }

  /** No losses exactly when no number from First on was overtaken. */
  lemma NoLossExactly(w: nat, arrivals: seq<int>)
    requires w > 0 && PastWarmup(arrivals) && WarmupFits(w, arrivals)
    ensures Run(w, arrivals).confirmedLost == 0 <==>
            forall i, q | 0 <= i < |arrivals| && First(arrivals) <= q <= arrivals[i] - w :: q in arrivals[..i]
  {
    RunAccounts(w, arrivals);
    WarmupPhase(w, arrivals);
    var lost := Lost(RefRun(w, arrivals).phase);
    ExactLoss(w, arrivals, lost);
    if lost != {} {
      var q :| q in lost;
      var i :| 0 <= i < |arrivals| && arrivals[i] >= q + w && q !in arrivals[..i];
      assert First(arrivals) <= q <= arrivals[i] - w;
    } else {
      forall i, q | 0 <= i < |arrivals| && First(arrivals) <= q <= arrivals[i] - w ensures q in arrivals[..i] {
        assert q !in lost;
      }
    }
  }

  /** The numbers from First on that were overtaken. */
  ghost function LostOf(w: nat, arrivals: seq<int>): set<int>
    requires PastWarmup(arrivals)
  {
    set q | q in Span(First(arrivals) - 1, MaxOf(arrivals)) && Overtaken(w, arrivals, q)
  }

  lemma LostOfShape(w: nat, arrivals: seq<int>, q: int)
    requires w > 0 && PastWarmup(arrivals)
    ensures q in LostOf(w, arrivals) <==> q >= First(arrivals) && Overtaken(w, arrivals, q)
  {
    hide WarmupOf, MinOf;
    if Overtaken(w, arrivals, q) {
      var i :| 0 <= i < |arrivals| && arrivals[i] >= q + w && q !in arrivals[..i];
      assert arrivals[i] in arrivals;
    }
  }

  /** The losses counted are the overtaken numbers. */
  ghost predicate LossesExact(w: nat, arrivals: seq<int>)
    requires PastWarmup(arrivals)
  {
    Run(w, arrivals).confirmedLost == |LostOf(w, arrivals)|
  }
}
