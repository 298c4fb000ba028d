/** The tracker's verdicts and totals, read off the arrivals. */
module TrackerVerdicts {
  import opened Options
  import opened Ranges
  import opened Sums
  import opened TrackerModel
  import opened TrackerReference
  import opened TrackerProperties
  import opened TrackerWarmup

  // Duplicates.

  /** While warming a number is a duplicate exactly when it came before, and never out of order. */
  lemma WarmingVerdict(w: nat, arrivals: seq<int>)
    requires arrivals != [] && !PastWarmup(arrivals[..|arrivals| - 1])
    ensures VerdictOf(w, arrivals).isDuplicate <==> arrivals[|arrivals| - 1] in arrivals[..|arrivals| - 1]
    ensures !VerdictOf(w, arrivals).isOutOfOrder
  {
    var before, n := arrivals[..|arrivals| - 1], arrivals[|arrivals| - 1];
    WarmupShape(before);
    WhileWarming(w, before);
    WarmupIsAll(before);
    hide Run, WarmupOf, FinalizeWarmup;
    assert n in WarmupOf(before) <==> n in Elements(WarmupOf(before));
    assert n in before <==> n in Elements(before);
  }

  /** Past a fitting warm-up a number is a duplicate exactly when it came before, lies below the
      first, or was overtaken. */
  lemma DuplicateExactly(w: nat, arrivals: seq<int>)
    requires w > 0 && arrivals != [] && PastWarmup(arrivals[..|arrivals| - 1])
    requires WarmupFits(w, arrivals[..|arrivals| - 1])
    ensures var before, n := arrivals[..|arrivals| - 1], arrivals[|arrivals| - 1];
            VerdictOf(w, arrivals).isDuplicate <==>
            n in before || n < First(before) || Overtaken(w, before, n)
  {
    var before, n := arrivals[..|arrivals| - 1], arrivals[|arrivals| - 1];
    assert arrivals == before + [n];
    WarmupKept(before, [n]);
    hide Run, WarmupOf, MinOf, MaxOf, RefRun, VerdictOf, Overtaken;
    VerdictIsJudgement(w, arrivals);
    RunAccounts(w, before);
    WarmupPhase(w, before);
    var t := RefRun(w, before).phase;
    assert n in Lost(t) <==> n >= t.first && Overtaken(w, before, n);
  }

  // Order.

  /** The greatest number so far is remembered, and the window holds none above it. */
  ghost predicate SeenUpTo(p: Producer, top: int) {
    && p.warmup.None? && p.lastSeen == top && p.highContiguous <= top
    && (forall q :: q in p.marks ==> q <= top)
  }

  lemma AdvanceSeen(p: Producer, top: int)
    requires p.highContiguous <= top && forall q :: q in p.marks ==> q <= top
    ensures Advance(p).highContiguous <= top && forall q :: q in Advance(p).marks ==> q <= top
  {
    hide Contiguous;
    var hc := Contiguous(p.highContiguous, p.marks);
    assert p.highContiguous < hc ==> hc in Span(p.highContiguous, hc);
  }

  lemma RecordSeen(w: nat, p: Producer, top: int, n: int)
    requires w > 0 && SeenUpTo(p, top)
    ensures SeenUpTo(Record(w, p, n).0, Max(top, n))
    ensures Record(w, p, n).1.isDuplicate ==> n <= top
    ensures Record(w, p, n).1.isOutOfOrder <==> !Record(w, p, n).1.isDuplicate && n < top
  {
    hide Unmarked, Advance, Contiguous;
    var slid := Slide(w, Counted(p), n);
    if n > p.highContiguous && n !in slid.marks {
      AdvanceSeen(slid.(marks := slid.marks + {n}, lastSeen := Max(top, n),
                        outOfOrder := slid.outOfOrder + if n < top then 1 else 0), Max(top, n));
      AdvanceShape(slid.(marks := slid.marks + {n}, lastSeen := Max(top, n),
                         outOfOrder := slid.outOfOrder + if n < top then 1 else 0));
    }
  }

  lemma AdvanceShape(p: Producer)
    ensures Advance(p) == p.(highContiguous := Advance(p).highContiguous, marks := Advance(p).marks)
  {
  }

  lemma WarmupSeen(w: nat, arrivals: seq<int>)
    requires EndsWarmup(arrivals)
    ensures SeenUpTo(Run(w, arrivals), MaxOf(arrivals))
  {
    hide Run, WarmupOf, Contiguous, Advance, MinOf, MaxOf;
    WarmupEnds(w, arrivals);
    var warm := WarmupOf(arrivals);
    SameMax(warm, arrivals);
    var raw := NEW_PRODUCER.(received := |arrivals|, duplicates := |arrivals| - |warm|, warmup := None,
                             highContiguous := MinOf(warm) - 1, lastSeen := MaxOf(warm),
                             marks := set q | q in warm && q < MinOf(warm) + w);
    AdvanceSeen(raw, MaxOf(arrivals));
    AdvanceShape(raw);
  }

  lemma SameMax(a: seq<int>, b: seq<int>)
    requires a != [] && b != [] && Elements(a) == Elements(b)
    ensures MaxOf(a) == MaxOf(b)
  {
    assert MaxOf(a) in Elements(a) && MaxOf(b) in Elements(b);
    assert MaxOf(a) in b && MaxOf(b) in a;
  }

  lemma {:induction false} SeenAlways(w: nat, arrivals: seq<int>)
    requires w > 0 && PastWarmup(arrivals)
    ensures SeenUpTo(Run(w, arrivals), MaxOf(arrivals))
  {
    hide SeenUpTo, Record, WarmupOf, MaxOf;
    WarmupNotEmpty(arrivals);
    var before, n := arrivals[..|arrivals| - 1], arrivals[|arrivals| - 1];
    if PastWarmup(before) {
      SeenAlways(w, before);
      WarmupNotEmpty(before);
      RecordSeen(w, Run(w, before), MaxOf(before), n);
      assert arrivals == before + [n];
      MaxAppend(before, n);
    } else {
      WarmupSeen(w, arrivals);
    }
  }

  lemma WarmupNotEmpty(arrivals: seq<int>)
    requires PastWarmup(arrivals)
    ensures arrivals != []
  {
  }

  lemma MaxAppend(s: seq<int>, n: int)
    requires s != []
    ensures MaxOf(s + [n]) == Max(MaxOf(s), n)
  {
    hide MaxOf;
    var t := s + [n];
    assert forall x | x in s :: x in t;
    assert n in t && (MaxOf(t) in s || MaxOf(t) == n);
  }

  /** Past warm-up a number is out of order exactly when it is new and a greater one came before. */
  lemma LateExactly(w: nat, arrivals: seq<int>)
    requires w > 0 && arrivals != [] && PastWarmup(arrivals[..|arrivals| - 1])
    ensures var before, n := arrivals[..|arrivals| - 1], arrivals[|arrivals| - 1];
            VerdictOf(w, arrivals).isOutOfOrder <==>
            !VerdictOf(w, arrivals).isDuplicate && exists q :: q in before && n < q
  {
    var before, n := arrivals[..|arrivals| - 1], arrivals[|arrivals| - 1];
    hide Run, Record, WarmupOf, MaxOf;
    SeenAlways(w, before);
    WarmupNotEmpty(before);
    RecordSeen(w, Run(w, before), MaxOf(before), n);
    assert n < MaxOf(before) <==> exists q :: q in before && n < q;
  }

  // Totals.

  /** The verdicts on a list of deliveries, in order. */
  function Verdicts(w: nat, deliveries: seq<(string, int)>): (verdicts: seq<Verdict>)
    ensures |verdicts| == |deliveries|
  {
    if deliveries == [] then []
    else
      var before := deliveries[..|deliveries| - 1];
      var (id, n) := deliveries[|deliveries| - 1];
      Verdicts(w, before) + [RecordAll(w, RunAll(w, before), id, n).1]
  }

  function Amount(verdicts: seq<Verdict>, kind: Verdict -> bool): nat {
    if verdicts == [] then 0
    else Amount(verdicts[..|verdicts| - 1], kind) + if kind(verdicts[|verdicts| - 1]) then 1 else 0
  }

  lemma AmountNext(verdicts: seq<Verdict>, v: Verdict, kind: Verdict -> bool)
    ensures Amount(verdicts + [v], kind) == Amount(verdicts, kind) + if kind(v) then 1 else 0
  {
    assert (verdicts + [v])[..|verdicts|] == verdicts;
  }

  lemma CounterNext(w: nat, all: map<string, Producer>, id: string, n: int, c: Counter, amount: int)
    requires var p := if id in all then all[id] else NEW_PRODUCER;
             CounterOf(Record(w, p, n).0, c) == CounterOf(p, c) + amount
    ensures Sum(Counters(RecordAll(w, all, id, n).0, c)) == Sum(Counters(all, c)) + amount
  {
    hide Record;
    var p := if id in all then all[id] else NEW_PRODUCER;
    var q := Record(w, p, n).0;
    SumUpdate(Counters(all, c), id, CounterOf(q, c));
    assert Counters(RecordAll(w, all, id, n).0, c) == Counters(all, c)[id := CounterOf(q, c)];
  }

  /** The totals are the numbers of deliveries, of duplicate verdicts and of out-of-order verdicts,
      and the losses of the producers together. */
  lemma {:induction false} TotalsExactly(w: nat, deliveries: seq<(string, int)>)
    ensures var all, verdicts := RunAll(w, deliveries), Verdicts(w, deliveries);
            && Sum(Counters(all, Received)) == |deliveries|
            && Sum(Counters(all, Duplicates)) == Amount(verdicts, (v: Verdict) => v.isDuplicate)
            && Sum(Counters(all, OutOfOrder)) == Amount(verdicts, (v: Verdict) => v.isOutOfOrder)
            && Sum(Counters(all, ConfirmedLost)) == Sum(map id | id in all :: all[id].confirmedLost)
  {
    var all := RunAll(w, deliveries);
    assert Counters(all, ConfirmedLost) == map id | id in all :: all[id].confirmedLost;
    if deliveries == [] {
      NothingCounted(w);
    } else {
      var before := deliveries[..|deliveries| - 1];
      var (id, n) := deliveries[|deliveries| - 1];
      TotalsExactly(w, before);
      hide Record, Sum, Counters, Amount, RunAll, Verdicts;
      TotalsNext(w, deliveries);
    }
  }

  lemma TotalsNext(w: nat, deliveries: seq<(string, int)>)
    requires deliveries != []
    ensures var before := deliveries[..|deliveries| - 1];
            var was, all, verdicts := RunAll(w, before), RunAll(w, deliveries), Verdicts(w, before);
            var v := Verdicts(w, deliveries)[|before|];
            var dup, late := (v: Verdict) => v.isDuplicate, (v: Verdict) => v.isOutOfOrder;
            && Verdicts(w, deliveries) == verdicts + [v]
            && Sum(Counters(all, Received)) == Sum(Counters(was, Received)) + 1
            && Sum(Counters(all, Duplicates)) - Sum(Counters(was, Duplicates))
               == Amount(Verdicts(w, deliveries), dup) - Amount(verdicts, dup)
            && Sum(Counters(all, OutOfOrder)) - Sum(Counters(was, OutOfOrder))
               == Amount(Verdicts(w, deliveries), late) - Amount(verdicts, late)
  {
    hide Record, Sum, Counters, Amount;
    var before := deliveries[..|deliveries| - 1];
    var (id, n) := deliveries[|deliveries| - 1];
    var was := RunAll(w, before);
    var p := if id in was then was[id] else NEW_PRODUCER;
    var v := Record(w, p, n).1;
    RecordCounts(w, p, n);
    CounterNext(w, was, id, n, Received, 1);
    CounterNext(w, was, id, n, Duplicates, if v.isDuplicate then 1 else 0);
    CounterNext(w, was, id, n, OutOfOrder, if v.isOutOfOrder then 1 else 0);
    AmountNext(Verdicts(w, before), v, (v: Verdict) => v.isDuplicate);
    AmountNext(Verdicts(w, before), v, (v: Verdict) => v.isOutOfOrder);
  }

  lemma NothingCounted(w: nat)
    ensures forall c: Counter :: Sum(Counters(RunAll(w, []), c)) == 0
  {
    assert forall c: Counter :: Counters(RunAll(w, []), c) == map[];
  }
}
