/** burnin/src/tracker.ts: the tracker's state, updated in place. */
module Tracker {
  import opened Options
  import opened Ranges
  import opened PackedBits
  import opened Sums
  import M = TrackerModel

  /** One producer's record: a packed window anchored just above `highContiguous`. */
  class ProducerState {
    var highContiguous: int
    const window: array<bv32>
    const windowBits: nat
    var received: int
    var duplicates: int
    var outOfOrder: int
    var confirmedLost: int
    var lastReportedLost: int
    var lastSeen: int
    var warmupBuf: Option<seq<int>>

    /** The offsets whose bit is set in `window`. */
    ghost var bits: set<nat>

    /** A window that 32-bit offsets can address. */
    ghost predicate Sized() {
      1 <= windowBits <= TWO_TO_32 && window.Length == (windowBits + 31) / 32
    }

    ghost predicate Packed()
      reads `bits, window
    {
      bits == BitsOf(window[..])
    }

    ghost predicate Valid()
      reads `bits, `warmupBuf, window
    {
      && Sized()
      && Packed()
      && (forall k :: k in bits ==> k < windowBits)
      && (warmupBuf.Some? ==> bits == {} && |warmupBuf.value| < M.WARMUP_COUNT)
    }

    ghost function Marks(): set<int>
      reads `highContiguous, `bits
    {
      MarksOf(highContiguous, bits)
    }

    ghost function View(): M.Producer
      reads this
    {
      M.Producer(highContiguous, Marks(), received, duplicates, outOfOrder, confirmedLost,
                 lastReportedLost, lastSeen, warmupBuf)
    }

    function Counter(c: M.Counter): int
      reads this
    {
      match c
      case Received => received
      case Duplicates => duplicates
      case OutOfOrder => outOfOrder
      case ConfirmedLost => confirmedLost
    }

    constructor (reorderWindow: nat)
      requires 1 <= reorderWindow <= TWO_TO_32
      ensures Valid() && fresh(window) && windowBits == reorderWindow
      ensures View() == M.NEW_PRODUCER
    {
      highContiguous := 0;
      window := new bv32[(reorderWindow + 31) / 32](_ => 0);
      windowBits := reorderWindow;
      received, duplicates, outOfOrder := 0, 0, 0;
      confirmedLost, lastReportedLost, lastSeen := 0, 0, 0;
      warmupBuf := Some([]);
      bits := {};
      new;
      NoBits(window[..]);
    }

    /** Is the number at `offset` from the window's anchor marked? */
    method IsMarked(offset: nat) returns (marked: bool)
      requires Sized() && Packed() && offset < windowBits
      ensures marked <==> highContiguous + 1 + offset in Marks()
      ensures marked <==> offset in bits
    {
      hide BitsOf, MarksOf;
      marked := GetBit(window, offset);
      MarkAt(highContiguous, bits, highContiguous + 1 + offset);
    }

    method Mark(offset: nat)
      requires Sized() && Packed() && offset < windowBits
      modifies window, this`bits
      ensures Packed() && bits == old(bits) + {offset}
      ensures Marks() == old(Marks()) + {highContiguous + 1 + offset}
    {
      hide BitsOf, MarksOf;
      SetBit(window, offset);
      bits := bits + {offset};
      AddedMark(highContiguous, old(bits), highContiguous + 1 + offset);
    }

    /** The window loses its lowest number and `highContiguous` takes it over. */
    method StepUp()
      requires Packed()
      modifies this`highContiguous, window, this`bits
      ensures Packed() && highContiguous == old(highContiguous) + 1
      ensures bits == Lowered(old(bits))
      ensures Marks() == Above(old(Marks()), highContiguous)
      ensures |bits| == |old(bits)| - if 0 in old(bits) then 1 else 0
    {
      hide BitsOf, MarksOf, Lowered;
      highContiguous := highContiguous + 1;
      ShiftRight1(window);
      bits := Lowered(bits);
      LoweredMarks(old(highContiguous), old(bits));
    }

    method ClearWindow()
      requires Packed()
      modifies window, this`bits
      ensures Packed() && bits == {}
    {
      hide BitsOf;
      FillZero(window);
      bits := {};
    }

    /** The advance loop of record and finalizeWarmup (burnin/src/tracker.ts:93-96, 116-119). */
    method AdvanceContiguous()
      requires Valid()
      modifies this`highContiguous, window, this`bits
      ensures Valid() && View() == M.Advance(old(View())) && 0 !in bits
    {
      hide BitsOf, MarksOf, Lowered, Packed, Advanced;
      ghost var hc0, was := highContiguous, Marks();
      AdvanceStart(hc0, bits);
      var low := IsMarked(0);
      while low
        invariant Valid() && low == (0 in bits) == (highContiguous + 1 in Marks())
        invariant Advanced(hc0, was, highContiguous, Marks())
        decreases |bits|
      {
        AdvanceStep(hc0, was, highContiguous, Marks());
        StepUp();
        low := IsMarked(0);
      }
      AdvanceEnd(hc0, was, highContiguous, Marks());
    }

    /** slideTo (burnin/src/tracker.ts:152-161). */
    method SlideTo(newSeq: int)
      requires Valid()
      modifies this`highContiguous, this`confirmedLost, window, this`bits
      ensures Valid() && View() == M.Slide(windowBits, old(View()), newSeq)
      ensures highContiguous == Max(old(highContiguous), newSeq - windowBits)
    {
      hide BitsOf, MarksOf, Lowered, Packed, Slid, M.Unmarked, Above;
      var targetHC := newSeq - windowBits;
      if targetHC <= highContiguous {
        return;
      }
      ghost var hc0, was := highContiguous, Marks();
      SlideStart(hc0, bits);
      var advance := targetHC - highContiguous;
      var i := 0;
      while i < advance
        invariant 0 <= i <= advance && highContiguous == hc0 + i
        invariant Valid()
        invariant Slid(hc0, was, highContiguous, Marks(), confirmedLost - old(confirmedLost))
      {
        SlideStep(hc0, was, highContiguous, Marks(), confirmedLost - old(confirmedLost));
        var low := IsMarked(0);
        if !low {
          confirmedLost := confirmedLost + 1;
        }
        StepUp();
        i := i + 1;
      }
      SlideEnd(hc0, was, highContiguous, Marks(), confirmedLost - old(confirmedLost));
    }

    /** finalizeWarmup (burnin/src/tracker.ts:101-120). */
    method FinalizeWarmup()
      requires Sized() && Packed() && warmupBuf.Some? && |warmupBuf.value| > 0
      modifies this`highContiguous, this`lastSeen, this`warmupBuf, window, this`bits
      ensures Valid() && View() == M.FinalizeWarmup(windowBits, old(View()))
    {
      hide BitsOf, MarksOf, Lowered, Packed, M.Advance, M.Contiguous;
      var seqs := warmupBuf.value;
      var minSeq := MinOf(seqs);
      highContiguous := minSeq - 1;
      lastSeen := MaxOf(seqs);
      warmupBuf := None;
      ClearWindow();
      MarksAbove(highContiguous, bits);
      var i := 0;
      while i < |seqs|
        invariant 0 <= i <= |seqs| && highContiguous == minSeq - 1
        invariant Marks() == set q | q in seqs[..i] && q < minSeq + windowBits
        invariant warmupBuf.None? && lastSeen == MaxOf(seqs)
        invariant Packed() && forall k :: k in bits ==> k < windowBits
      {
        var offset := seqs[i] - highContiguous - 1;
        assert seqs[i] in seqs;
        if 0 <= offset < windowBits {
          Mark(offset);
        }
        assert seqs[..i + 1] == seqs[..i] + [seqs[i]];
        i := i + 1;
      }
      assert seqs[..i] == seqs;
      AdvanceContiguous();
    }

    /** The per-producer part of record (burnin/src/tracker.ts:51-98). */
    method Record(n: int) returns (v: M.Verdict)
      requires Valid()
      modifies this, window
      ensures Valid()
      ensures (View(), v) == M.Record(windowBits, old(View()), n)
    {
      if warmupBuf.Some? {
        v := RecordWarmup(n);
      } else {
        v := RecordActive(n);
      }
    }

    method RecordWarmup(n: int) returns (v: M.Verdict)
      requires Valid() && warmupBuf.Some?
      modifies this, window
      ensures Valid()
      ensures (View(), v) == M.RecordWarmup(windowBits, old(View()), n)
    {
      hide BitsOf, MarksOf, Lowered, Packed, M.FinalizeWarmup;
      if n in warmupBuf.value {
        received := received + 1;
        duplicates := duplicates + 1;
        return M.Verdict(true, false);
      }
      warmupBuf := Some(warmupBuf.value + [n]);
      received := received + 1;
      if |warmupBuf.value| >= M.WARMUP_COUNT {
        FinalizeWarmup();
      }
      return M.Verdict(false, false);
    }

    method RecordActive(n: int) returns (v: M.Verdict)
      requires Valid() && warmupBuf.None?
      modifies this, window
      ensures Valid()
      ensures (View(), v) == M.RecordActive(windowBits, old(View()), n)
    {
      hide BitsOf, MarksOf, Lowered, Packed, M.Slide, M.Accept;
      received := received + 1;
      if n <= highContiguous {
        duplicates := duplicates + 1;
        return M.Verdict(true, false);
      }
      var offset := n - highContiguous - 1;
      if offset >= windowBits {
        SlideTo(n);
      } else {
        M.NoSlide(windowBits, View(), n);
      }
      var off2 := n - highContiguous - 1;
      var seen := IsMarked(off2);
      if seen {
        duplicates := duplicates + 1;
        return M.Verdict(true, false);
      }
      v := Accept(n, off2);
    }

    method Accept(n: int, offset: nat) returns (v: M.Verdict)
      requires Valid() && warmupBuf.None? && offset < windowBits && n == highContiguous + 1 + offset
      modifies this, window
      ensures Valid() && (View(), v) == M.Accept(old(View()), n)
    {
      hide BitsOf, MarksOf, Lowered, Packed, M.Advance;
      Mark(offset);
      var isOOO := n < lastSeen;
      if isOOO {
        outOfOrder := outOfOrder + 1;
      }
      lastSeen := Max(lastSeen, n);
      AdvanceContiguous();
      return M.Verdict(false, isOOO);
    }
  }

  /** The body of the detectGaps loop. */
  method Detect(state: ProducerState) returns (delta: int)
    modifies state`lastReportedLost
    ensures (delta, state.View()) == M.DetectGap(old(state.View()))
    ensures old(state.Valid()) == state.Valid()
  {
    delta := 0;
    if state.warmupBuf.Some? {
      return;
    }
    if state.confirmedLost - state.lastReportedLost > 0 {
      delta := state.confirmedLost - state.lastReportedLost;
      state.lastReportedLost := state.confirmedLost;
    }
  }

  /** The tracker: one producer state per producer id. */
  class Tracker {
    const reorderWindow: nat
    var producers: map<string, ProducerState>

    ghost predicate Valid()
      reads this, producers.Values, set p | p in producers.Values :: p.window
    {
      && 1 <= reorderWindow <= TWO_TO_32
      && (forall id | id in producers :: producers[id].Valid() && producers[id].windowBits == reorderWindow)
      && (forall a, b | a in producers && b in producers && a != b ::
            producers[a] != producers[b] && producers[a].window != producers[b].window)
    }

    ghost function Views(): map<string, M.Producer>
      reads this, producers.Values
    {
      map id | id in producers :: producers[id].View()
    }

    constructor (reorderWindow: nat)
      requires 1 <= reorderWindow <= TWO_TO_32
      ensures Valid() && this.reorderWindow == reorderWindow && Views() == map[] && producers == map[]
    {
      this.reorderWindow := reorderWindow;
      producers := map[];
    }

    /** record (burnin/src/tracker.ts:33-99): one producer changes, the others do not. */
    method Record(producerId: string, n: int) returns (v: M.Verdict)
      requires Valid()
      modifies this, producers.Values, set p | p in producers.Values :: p.window
      ensures Valid() && fresh(producers.Values - old(producers.Values))
      ensures fresh((set p | p in producers.Values :: p.window) - old(set p | p in producers.Values :: p.window))
      ensures (Views(), v) == M.RecordAll(reorderWindow, old(Views()), producerId, n)
    {
      hide ProducerState.Valid, ProducerState.View, M.Record;
      if producerId !in producers {
        var fresh_ := new ProducerState(reorderWindow);
        producers := producers[producerId := fresh_];
      }
      var state := producers[producerId];
      label before:
      v := state.Record(n);
      assert forall id | id in producers && id != producerId ::
        producers[id].View() == old@before(producers[id].View());
      assert Views() == old(Views())[producerId := state.View()];
    }

    /** detectGaps (burnin/src/tracker.ts:122-133). */
    method DetectGaps() returns (result: map<string, int>)
      requires Valid()
      modifies producers.Values
      ensures Valid() && producers == old(producers)
      ensures Views() == map id | id in old(Views()) :: M.DetectGap(old(Views())[id]).1
      ensures result == M.Gaps(old(Views()), old(Views()).Keys)
    {
      hide ProducerState.Valid, ProducerState.View, M.DetectGap, M.Gaps;
      result := map[];
      var left := producers.Keys;
      ghost var was, done := Views(), {};
      M.GapsNone(was);
      while left != {}
        invariant Valid() && producers == old(producers)
        invariant left !! done && left + done == producers.Keys
        invariant forall id | id in left :: producers[id].View() == was[id]
        invariant forall id | id in done :: producers[id].View() == M.DetectGap(was[id]).1
        invariant result == M.Gaps(was, done)
      {
        var id :| id in left;
        var delta := Detect(producers[id]);
        if delta > 0 {
          result := result[id := delta];
        }
        M.GapsOneMore(was, done, id);
        left := left - {id};
        done := done + {id};
      }
      assert done == was.Keys;
    }

    /** totalReceived, totalDuplicates, totalOutOfOrder, totalLost
        (burnin/src/tracker.ts:135-146, 183-187). */
    method Total(c: M.Counter) returns (total: int)
      requires Valid()
      ensures total == Sum(M.Counters(Views(), c))
    {
      hide ProducerState.Valid;
      total := 0;
      var left := producers.Keys;
      ghost var all := M.Counters(Views(), c);
      ghost var counted: map<string, int> := map[];
      while left != {}
        invariant left !! counted.Keys && left + counted.Keys == producers.Keys
        invariant forall id | id in counted :: counted[id] == all[id]
        invariant total == Sum(counted)
      {
        var id :| id in left;
        SumUpdate(counted, id, all[id]);
        total := total + producers[id].Counter(c);
        counted := counted[id := all[id]];
        left := left - {id};
      }
      assert counted == all;
    }

    /** reset (burnin/src/tracker.ts:148-150). */
    method Reset()
      requires Valid()
      modifies this
      ensures Valid() && Views() == map[] && producers == map[]
    {
      producers := map[];
    }
  }

  /** The sequence numbers a window anchored at `hc` marks. */
  function MarksOf(hc: int, bits: set<nat>): set<int> {
    set k | k in bits :: hc + 1 + k
  }

  lemma MarkAt(hc: int, bits: set<nat>, q: int)
    ensures q in MarksOf(hc, bits) <==> q > hc && q - hc - 1 in bits
  {
    if q > hc && q - hc - 1 in bits {
      assert hc + 1 + (q - hc - 1) == q;
    }
  }

  lemma MarksAbove(hc: int, bits: set<nat>)
    ensures Above(MarksOf(hc, bits), hc) == MarksOf(hc, bits)
    ensures bits == {} ==> MarksOf(hc, bits) == {}
  {
  }

  lemma LoweredMarks(hc: int, bits: set<nat>)
    ensures MarksOf(hc + 1, Lowered(bits)) == Above(MarksOf(hc, bits), hc + 1)
  {
    var before, after := MarksOf(hc, bits), MarksOf(hc + 1, Lowered(bits));
    forall q: int
      ensures q in after <==> q in before && q > hc + 1
    {
      MarkAt(hc + 1, Lowered(bits), q);
      MarkAt(hc, bits, q);
    }
  }

  lemma AddedMark(hc: int, bits: set<nat>, n: int)
    requires n > hc
    ensures MarksOf(hc, bits + {n - hc - 1}) == MarksOf(hc, bits) + {n}
  {
    var before, after := MarksOf(hc, bits), MarksOf(hc, bits + {n - hc - 1});
    forall q: int
      ensures q in after <==> q in before + {n}
    {
      MarkAt(hc, bits + {n - hc - 1}, q);
      MarkAt(hc, bits, q);
    }
  }

  // What holds part-way through the two loops that move the window up from `hc0`, when
  // it marked `was`.

  ghost predicate Advanced(hc0: int, was: set<int>, hc: int, marks: set<int>) {
    hc0 <= hc && Span(hc0, hc) <= was && marks == Above(was, hc)
  }

  lemma AdvanceStart(hc: int, bits: set<nat>)
    ensures Advanced(hc, MarksOf(hc, bits), hc, MarksOf(hc, bits))
  {
    MarksAbove(hc, bits);
  }

  lemma AdvanceStep(hc0: int, was: set<int>, hc: int, marks: set<int>)
    requires Advanced(hc0, was, hc, marks) && hc + 1 in marks
    ensures Advanced(hc0, was, hc + 1, Above(marks, hc + 1))
  {
  }

  lemma AdvanceEnd(hc0: int, was: set<int>, hc: int, marks: set<int>)
    requires Advanced(hc0, was, hc, marks) && hc + 1 !in marks
    ensures M.Contiguous(hc0, was) == hc && marks == Above(was, hc)
  {
    M.ContiguousUnique(hc0, was, hc);
  }

  ghost predicate Slid(hc0: int, was: set<int>, hc: int, marks: set<int>, lost: int) {
    hc0 <= hc && marks == Above(was, hc) && lost == M.Unmarked(hc0, hc, was)
  }

  lemma SlideStart(hc: int, bits: set<nat>)
    ensures Slid(hc, MarksOf(hc, bits), hc, MarksOf(hc, bits), 0)
  {
    MarksAbove(hc, bits);
    assert Span(hc, hc) - MarksOf(hc, bits) == {};
  }

  lemma SlideStep(hc0: int, was: set<int>, hc: int, marks: set<int>, lost: int)
    requires Slid(hc0, was, hc, marks, lost)
    ensures Slid(hc0, was, hc + 1, Above(marks, hc + 1), lost + if hc + 1 in marks then 0 else 1)
  {
    OneMoreUnmarked(hc0, hc, was);
    hide M.Unmarked;
    assert Above(Above(was, hc), hc + 1) == Above(was, hc + 1);
  }

  lemma OneMoreUnmarked(lo: int, hi: int, marks: set<int>)
    requires lo <= hi
    ensures M.Unmarked(lo, hi + 1, marks) == M.Unmarked(lo, hi, marks) + if hi + 1 in marks then 0 else 1
  {
    var before := Span(lo, hi) - marks;
    assert Span(lo, hi + 1) - marks == before + (if hi + 1 in marks then {} else {hi + 1});
    assert hi + 1 !in before;
  }

  lemma SlideEnd(hc0: int, was: set<int>, hc: int, marks: set<int>, lost: int)
    requires Slid(hc0, was, hc, marks, lost)
    ensures marks == Above(was, hc) && lost == M.Unmarked(hc0, hc, was)
  {
  }
}
