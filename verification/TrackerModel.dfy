/** What one producer's state means, with the packed window read as the set of sequence
    numbers it marks, and what each operation of the tracker does to it. */
module TrackerModel {
  import opened Options
  import opened Ranges

  const WARMUP_COUNT: nat := 64

  datatype Verdict = Verdict(isDuplicate: bool, isOutOfOrder: bool)

  /** `marks` holds the numbers above `highContiguous` whose window bit is set. `warmup` is
      the warm-up buffer in insertion order, None once the bitset is active. */
  datatype Producer = Producer(
    highContiguous: int,
    marks: set<int>,
    received: int,
    duplicates: int,
    outOfOrder: int,
    confirmedLost: int,
    lastReportedLost: int,
    lastSeen: int,
    warmup: Option<seq<int>>)

  const NEW_PRODUCER := Producer(0, {}, 0, 0, 0, 0, 0, 0, Some([]))

  /** Where the advance loop stops: the last number of the unbroken run of marks above `hc`. */
  function Contiguous(hc: int, marks: set<int>): (r: int)
    ensures hc <= r && r + 1 !in marks && Span(hc, r) <= marks
    decreases |marks|
  {
    if hc + 1 in marks then Contiguous(hc + 1, marks - {hc + 1}) else hc
  }

  /** Its three properties determine it. */
  lemma ContiguousUnique(hc: int, marks: set<int>, r: int)
    requires hc <= r && r + 1 !in marks && Span(hc, r) <= marks
    ensures Contiguous(hc, marks) == r
  {
    var c := Contiguous(hc, marks);
    assert c < r ==> c + 1 in Span(hc, r);
    assert r < c ==> r + 1 in Span(hc, c);
  }

  /** How many numbers above `lo` and up to `hi` are not marked. */
  function Unmarked(lo: int, hi: int, marks: set<int>): nat {
    |Span(lo, hi) - marks|
  }

  /** slideTo: everything up to `n - w` leaves the window, and what was unmarked is lost. */
  function Slide(w: nat, p: Producer, n: int): Producer {
    var target := n - w;
    if target <= p.highContiguous then p
    else
      p.(highContiguous := target,
         marks := Above(p.marks, target),
         confirmedLost := p.confirmedLost + Unmarked(p.highContiguous, target, p.marks))
  }

  lemma NoSlide(w: nat, p: Producer, n: int)
    requires n - p.highContiguous - 1 < w
    ensures Slide(w, p, n) == p
  {
  }

  function Advance(p: Producer): Producer {
    var hc := Contiguous(p.highContiguous, p.marks);
    p.(highContiguous := hc, marks := Above(p.marks, hc))
  }

  function FinalizeWarmup(w: nat, p: Producer): Producer
    requires p.warmup.Some? && |p.warmup.value| > 0
  {
    var first := MinOf(p.warmup.value);
    Advance(p.(highContiguous := first - 1,
               lastSeen := MaxOf(p.warmup.value),
               warmup := None,
               marks := set q | q in p.warmup.value && q < first + w))
  }

  function Counted(p: Producer): Producer {
    p.(received := p.received + 1)
  }

  function Duplicate(p: Producer): (Producer, Verdict) {
    (p.(duplicates := p.duplicates + 1), Verdict(true, false))
  }

  function RecordWarmup(w: nat, p: Producer, n: int): (Producer, Verdict)
    requires p.warmup.Some?
  {
    var buf := p.warmup.value;
    if n in buf then Duplicate(Counted(p))
    else
      var added := Counted(p).(warmup := Some(buf + [n]));
      (if |buf| + 1 >= WARMUP_COUNT then FinalizeWarmup(w, added) else added, Verdict(false, false))
  }

  /** The number `n` is new and inside the window. */
  function Accept(p: Producer, n: int): (Producer, Verdict) {
    var late := n < p.lastSeen;
    (Advance(p.(marks := p.marks + {n},
                outOfOrder := p.outOfOrder + (if late then 1 else 0),
                lastSeen := Max(p.lastSeen, n))),
     Verdict(false, late))
  }

  function RecordActive(w: nat, p: Producer, n: int): (Producer, Verdict) {
    if n <= p.highContiguous then Duplicate(Counted(p))
    else
      var slid := Slide(w, Counted(p), n);
      if n in slid.marks then Duplicate(slid) else Accept(slid, n)
  }

  /** One call of record for this producer. */
  function Record(w: nat, p: Producer, n: int): (Producer, Verdict) {
    if p.warmup.Some? then RecordWarmup(w, p, n) else RecordActive(w, p, n)
  }

  function DetectGap(p: Producer): (int, Producer) {
    if p.warmup.None? && p.confirmedLost > p.lastReportedLost
    then (p.confirmedLost - p.lastReportedLost, p.(lastReportedLost := p.confirmedLost))
    else (0, p)
  }

  /** The deltas detectGaps reports for the producers `ids`. */
  function Gaps(all: map<string, Producer>, ids: set<string>): map<string, int> {
    map id | id in all && id in ids && DetectGap(all[id]).0 > 0 :: DetectGap(all[id]).0
  }

  /** A producer is reported exactly when it is past warm-up and lost more than was reported, with
      the difference. */
  lemma GapsExactly(all: map<string, Producer>, id: string)
    ensures var gaps := Gaps(all, all.Keys);
            && (id in gaps <==>
                  id in all && all[id].warmup.None? && all[id].confirmedLost > all[id].lastReportedLost)
            && (id in gaps ==> gaps[id] == all[id].confirmedLost - all[id].lastReportedLost)
  {
  }

  lemma GapsNone(all: map<string, Producer>)
    ensures Gaps(all, {}) == map[]
  {
  }

  lemma GapsOneMore(all: map<string, Producer>, ids: set<string>, id: string)
    requires id in all && id !in ids
    ensures var delta := DetectGap(all[id]).0;
            Gaps(all, ids + {id}) == if delta > 0 then Gaps(all, ids)[id := delta] else Gaps(all, ids)
  {
  }

  datatype Counter = Received | Duplicates | OutOfOrder | ConfirmedLost

  function CounterOf(p: Producer, c: Counter): int {
    match c
    case Received => p.received
    case Duplicates => p.duplicates
    case OutOfOrder => p.outOfOrder
    case ConfirmedLost => p.confirmedLost
  }

  function Counters(all: map<string, Producer>, c: Counter): map<string, int> {
    map id | id in all :: CounterOf(all[id], c)
  }

  /** One call of record, over all producers. */
  function RecordAll(w: nat, all: map<string, Producer>, id: string, n: int): (map<string, Producer>, Verdict) {
    var (p, v) := Record(w, if id in all then all[id] else NEW_PRODUCER, n);
    (all[id := p], v)
  }

  /** All producers' states after a list of deliveries. */
  function RunAll(w: nat, deliveries: seq<(string, int)>): map<string, Producer> {
    if deliveries == [] then map[]
    else
      var (id, n) := deliveries[|deliveries| - 1];
      RecordAll(w, RunAll(w, deliveries[..|deliveries| - 1]), id, n).0
  }

  /** The arrivals of one producer. */
  function ArrivalsOf(deliveries: seq<(string, int)>, id: string): seq<int> {
    if deliveries == [] then []
    else
      var last := deliveries[|deliveries| - 1];
      ArrivalsOf(deliveries[..|deliveries| - 1], id) + if last.0 == id then [last.1] else []
  }

  /** Producers do not disturb one another: each is where its own arrivals put it. */
  lemma {:induction false} ProducersIndependent(w: nat, deliveries: seq<(string, int)>, id: string)
    ensures var own := ArrivalsOf(deliveries, id);
            (id in RunAll(w, deliveries) <==> own != []) &&
            (id in RunAll(w, deliveries) ==> RunAll(w, deliveries)[id] == Run(w, own))
  {
    hide Record;
    if deliveries != [] {
      var before := deliveries[..|deliveries| - 1];
      ProducersIndependent(w, before, id);
      var (last, n) := deliveries[|deliveries| - 1];
      if last == id {
        var own := ArrivalsOf(before, id);
        assert (own + [n])[..|own|] == own;
        assert own == [] ==> Run(w, own) == NEW_PRODUCER;
        assert Run(w, own + [n]) == Record(w, Run(w, own), n).0;
      } else {
        assert ArrivalsOf(before, id) + [] == ArrivalsOf(before, id);
      }
    }
  }

  /** The state after a list of arrivals. */
  function Run(w: nat, arrivals: seq<int>): Producer {
    if arrivals == [] then NEW_PRODUCER
    else Record(w, Run(w, arrivals[..|arrivals| - 1]), arrivals[|arrivals| - 1]).0
  }

  /** What the last arrival of a list was judged to be. */
  function VerdictOf(w: nat, arrivals: seq<int>): Verdict
    requires |arrivals| > 0
  {
    Record(w, Run(w, arrivals[..|arrivals| - 1]), arrivals[|arrivals| - 1]).1
  }
}
