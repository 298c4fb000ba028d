/** Packed bit windows: bit `k` of the window is bit `k & 31` of word `k >>> 5`.
    The array methods are the three free functions at the end of tracker.ts; each is
    tied to what it does to the set of bits. */
module PackedBits {

  /** ToUint32 as `>>>` and `&` apply it: what the shift operators see of a number. */
  const TWO_TO_32: nat := 0x1_0000_0000

  /** The mask `1 << b`, by doubling. */
  function Mask(b: nat): bv32
    requires b < 32
  {
    if b == 0 then 1 else Mask(b - 1) << 1
  }

  lemma MaskIsShift(b: nat)
    requires b < 32
    ensures Mask(b) == 1 << b
  {
    if b < 8 {
      MaskIsShift0(b);
    } else if b < 16 {
      MaskIsShift8(b);
    } else if b < 24 {
      MaskIsShift16(b);
    } else {
      MaskIsShift24(b);
    }
  }

  lemma MaskIsShift0(b: nat)
    requires 0 <= b < 8
    ensures Mask(b) == 1 << b
  {
    match b
    case 0 => assert Mask(0) == 0x1; case 1 => assert Mask(1) == 0x2;
    case 2 => assert Mask(2) == 0x4; case 3 => assert Mask(3) == 0x8;
    case 4 => assert Mask(4) == 0x10; case 5 => assert Mask(5) == 0x20;
    case 6 => assert Mask(6) == 0x40; case _ => assert Mask(7) == 0x80;
  }

  lemma MaskIsShift8(b: nat)
    requires 8 <= b < 16
    ensures Mask(b) == 1 << b
  {
    match b
    case 8 => assert Mask(8) == 0x100; case 9 => assert Mask(9) == 0x200;
    case 10 => assert Mask(10) == 0x400; case 11 => assert Mask(11) == 0x800;
    case 12 => assert Mask(12) == 0x1000; case 13 => assert Mask(13) == 0x2000;
    case 14 => assert Mask(14) == 0x4000; case _ => assert Mask(15) == 0x8000;
  }

  lemma MaskIsShift16(b: nat)
    requires 16 <= b < 24
    ensures Mask(b) == 1 << b
  {
    assert Mask(8) == 0x100;
    match b
    case 16 => assert Mask(16) == 0x10000; case 17 => assert Mask(17) == 0x20000;
    case 18 => assert Mask(18) == 0x40000; case 19 => assert Mask(19) == 0x80000;
    case 20 => assert Mask(20) == 0x100000; case 21 => assert Mask(21) == 0x200000;
    case 22 => assert Mask(22) == 0x400000; case _ => assert Mask(23) == 0x800000;
  }

  lemma MaskIsShift24(b: nat)
    requires 24 <= b < 32
    ensures Mask(b) == 1 << b
  {
    assert Mask(8) == 0x100;
    assert Mask(16) == 0x1_0000;
    assert Mask(24) == 0x100_0000;
    match b
    case 24 => assert Mask(24) == 0x1000000; case 25 => assert Mask(25) == 0x2000000;
    case 26 => assert Mask(26) == 0x4000000; case 27 => assert Mask(27) == 0x8000000;
    case 28 => assert Mask(28) == 0x10000000; case 29 => assert Mask(29) == 0x20000000;
    case 30 => assert Mask(30) == 0x40000000; case _ => assert Mask(31) == 0x80000000;
  }

  lemma MaskTopBitClear(b: nat)
    requires b < 31
    ensures Mask(b) & 0x8000_0000 == 0
  {
    match b
    case 0 => assert Mask(0) == 0x1; case 1 => assert Mask(1) == 0x2;
    case 2 => assert Mask(2) == 0x4; case 3 => assert Mask(3) == 0x8;
    case 4 => assert Mask(4) == 0x10; case 5 => assert Mask(5) == 0x20;
    case 6 => assert Mask(6) == 0x40; case 7 => assert Mask(7) == 0x80;
    case 8 => assert Mask(8) == 0x100; case 9 => assert Mask(9) == 0x200;
    case 10 => assert Mask(10) == 0x400; case 11 => assert Mask(11) == 0x800;
    case 12 => assert Mask(12) == 0x1000; case 13 => assert Mask(13) == 0x2000;
    case 14 => assert Mask(14) == 0x4000; case 15 => assert Mask(15) == 0x8000;
    case 16 => assert Mask(16) == 0x10000; case 17 => assert Mask(17) == 0x20000;
    case 18 => assert Mask(18) == 0x40000; case 19 => assert Mask(19) == 0x80000;
    case 20 => assert Mask(20) == 0x100000; case 21 => assert Mask(21) == 0x200000;
    case 22 => assert Mask(22) == 0x400000; case 23 => assert Mask(23) == 0x800000;
    case 24 => assert Mask(24) == 0x1000000; case 25 => assert Mask(25) == 0x2000000;
    case 26 => assert Mask(26) == 0x4000000; case 27 => assert Mask(27) == 0x8000000;
    case 28 => assert Mask(28) == 0x10000000; case 29 => assert Mask(29) == 0x20000000;
    case 30 => assert Mask(30) == 0x40000000;
  }

  lemma MaskDoubles(b: nat)
    requires b < 31
    ensures Mask(b + 1) == Mask(b) << 1
  {
  }

  lemma MaskTop()
    ensures Mask(31) == 0x8000_0000
  {
    assert Mask(8) == 0x100;
    assert Mask(16) == 0x1_0000;
    assert Mask(24) == 0x100_0000;
  }

  /** The test `w & m` of a word against a mask. */
  predicate Meets(w: bv32, m: bv32) {
    w & m != 0
  }

  lemma {:induction false} MasksDisjoint(b: nat, c: nat)
    requires b < 32 && c < 32
    ensures Meets(Mask(b), Mask(c)) <==> b == c
  {
    if b > 0 && c > 0 {
      MasksDisjoint(b - 1, c - 1);
      MaskTopBitClear(b - 1);
      MaskTopBitClear(c - 1);
    }
  }

  predicate WordBit(w: bv32, b: nat)
    requires b < 32
  {
    Meets(w, Mask(b))
  }

  predicate Bit(ws: seq<bv32>, k: nat) {
    k / 32 < |ws| && WordBit(ws[k / 32], k % 32)
  }

  /** The bits of a window, as the set of their offsets. */
  function BitsOf(ws: seq<bv32>): set<nat> {
    set k: nat | k < 32 * |ws| && Bit(ws, k)
  }

  /** Every offset one lower; offset 0 falls out. */
  function Lowered(bits: set<nat>): (s: set<nat>)
    ensures forall k: nat :: k in s <==> k + 1 in bits
  {
    set k | k in bits && k > 0 :: k - 1
  }

  // Facts about one word.

  function WithBit(w: bv32, b: nat): bv32
    requires b < 32
  {
    w | Mask(b)
  }

  lemma SetWordBit(w: bv32, b: nat, c: nat)
    requires b < 32 && c < 32
    ensures WordBit(WithBit(w, b), c) == (WordBit(w, c) || b == c)
  {
    hide Mask, Meets;
    MasksDisjoint(b, c);
    OrMeets(w, Mask(b), Mask(c));
  }

  lemma OrMeets(w: bv32, m: bv32, n: bv32)
    ensures Meets(w | m, n) == (Meets(w, n) || Meets(m, n))
  {
    assert (w | m) & n == (w & n) | (m & n);
    OrIsZero(w & n, m & n);
  }

  lemma OrIsZero(x: bv32, y: bv32)
    ensures x | y == 0 <==> x == 0 && y == 0
  {
  }

  /** A word shifted right by one, with the low bit of `n` carried into its top bit. */
  function Carry(w: bv32, n: bv32): bv32 {
    (w >> 1) | ((n & 1) << 31)
  }

  lemma CarryWord(w: bv32, n: bv32, b: nat)
    requires b < 32
    ensures WordBit(Carry(w, n), b) == if b < 31 then WordBit(w, b + 1) else WordBit(n, 0)
  {
    hide Mask, Meets, Carry;
    if b < 31 {
      MaskTopBitClear(b);
      MaskDoubles(b);
      CarryInner(w, n, Mask(b));
    } else {
      CarryTop(w, n);
    }
  }

  lemma CarryInner(w: bv32, n: bv32, m: bv32)
    requires m & 0x8000_0000 == 0
    ensures Meets(Carry(w, n), m) == Meets(w, m << 1)
  {
  }

  lemma CarryTop(w: bv32, n: bv32)
    ensures Meets(Carry(w, n), Mask(31)) == Meets(n, Mask(0))
    ensures Carry(w, 0) == w >> 1
  {
    MaskTop();
  }

  lemma ZeroWord(b: nat)
    requires b < 32
    ensures !WordBit(0, b)
  {
  }

  // The array operations.

  /** setBit (burnin/src/tracker.ts:164-168): a set bit outside the window is dropped. */
  method SetBit(arr: array<bv32>, offset: nat)
    modifies arr
    ensures BitsOf(arr[..]) ==
      BitsOf(old(arr[..])) + if offset % TWO_TO_32 < 32 * arr.Length then {offset % TWO_TO_32} else {}
  {
    hide Mask, Meets;
    var w := (offset % TWO_TO_32) / 32;
    var b := (offset % TWO_TO_32) % 32;
    ghost var was := arr[..];
    if w < arr.Length {
      arr[w] := WithBit(arr[w], b);
    }
    forall k: nat
      ensures Bit(arr[..], k) == (Bit(was, k) || (k == offset % TWO_TO_32 && k < 32 * arr.Length))
    {
      if w < arr.Length && k / 32 == w {
        SetWordBit(was[w], b, k % 32);
      }
    }
  }

  /** getBit (burnin/src/tracker.ts:170-174). */
  method GetBit(arr: array<bv32>, offset: nat) returns (r: bool)
    ensures r <==> offset % TWO_TO_32 in BitsOf(arr[..])
  {
    hide WordBit;
    var w := (offset % TWO_TO_32) / 32;
    var b := (offset % TWO_TO_32) % 32;
    r := if w < arr.Length then WordBit(arr[w], b) else false;
  }

  /** The word the shift loop stores at index `i`. */
  function ShiftedWord(ws: seq<bv32>, i: nat): bv32
    requires i < |ws|
  {
    if i + 1 < |ws| then Carry(ws[i], ws[i + 1]) else ws[i] >> 1
  }

  lemma ShiftedBit(ws: seq<bv32>, shifted: seq<bv32>, k: nat)
    requires |shifted| == |ws|
    requires forall i :: 0 <= i < |ws| ==> shifted[i] == ShiftedWord(ws, i)
    ensures Bit(shifted, k) == Bit(ws, k + 1)
  {
    hide Mask, Meets, Carry;
    var i, b := k / 32, k % 32;
    if i < |ws| {
      var next := if i + 1 < |ws| then ws[i + 1] else 0;
      CarryTop(ws[i], 0);
      CarryWord(ws[i], next, b);
      if b < 31 {
        assert (k + 1) / 32 == i && (k + 1) % 32 == b + 1;
      } else {
        assert (k + 1) / 32 == i + 1 && (k + 1) % 32 == 0;
        ZeroWord(0);
      }
    } else {
      assert (k + 1) / 32 >= |ws|;
    }
  }

  /** shiftRight1 (burnin/src/tracker.ts:176-181): bit k + 1 moves to bit k across word
      boundaries, the top bit is cleared, and one bit goes exactly when bit 0 was set. */
  method ShiftRight1(arr: array<bv32>)
    modifies arr
    ensures BitsOf(arr[..]) == Lowered(BitsOf(old(arr[..])))
    ensures |BitsOf(arr[..])| == |BitsOf(old(arr[..]))| - if 0 in BitsOf(old(arr[..])) then 1 else 0
  {
    hide Bit, Carry, BitsOf, Lowered;
    ghost var was := arr[..];
    var i := 0;
    while i < arr.Length - 1
      invariant 0 <= i <= arr.Length && (arr.Length > 0 ==> i < arr.Length)
      invariant forall j :: 0 <= j < i ==> arr[j] == ShiftedWord(was, j)
      invariant forall j :: i <= j < arr.Length ==> arr[j] == was[j]
    {
      arr[i] := Carry(arr[i], arr[i + 1]);
      i := i + 1;
    }
    // A store at index -1 of an empty typed array has no effect.
    if arr.Length > 0 {
      arr[arr.Length - 1] := arr[arr.Length - 1] >> 1;
    }
    ShiftedBits(was, arr[..]);
  }

  lemma ShiftedBits(ws: seq<bv32>, shifted: seq<bv32>)
    requires |shifted| == |ws|
    requires forall i :: 0 <= i < |ws| ==> shifted[i] == ShiftedWord(ws, i)
    ensures BitsOf(shifted) == Lowered(BitsOf(ws))
    ensures |BitsOf(shifted)| == |BitsOf(ws)| - if 0 in BitsOf(ws) then 1 else 0
  {
    hide Bit, ShiftedWord;
    forall k: nat ensures k in BitsOf(shifted) <==> k + 1 in BitsOf(ws) {
      ShiftedBit(ws, shifted, k);
      if Bit(ws, k + 1) {
        BitInside(ws, k + 1);
        BitInside(shifted, k);
      }
    }
    LoweredSize(BitsOf(ws), BitsOf(shifted));
  }

  lemma BitInside(ws: seq<bv32>, k: nat)
    requires Bit(ws, k)
    ensures k < 32 * |ws|
  {
  }

  lemma {:induction false} LoweredSize(bits: set<nat>, low: set<nat>)
    requires forall k: nat :: k in low <==> k + 1 in bits
    ensures |low| == |bits| - if 0 in bits then 1 else 0
  {
    if low == {} {
      assert forall k | k in bits :: k == 0 || k - 1 in low;
      assert bits == if 0 in bits then {0} else {};
    } else {
      var x :| x in low;
      LoweredSize(bits - {x + 1}, low - {x});
    }
  }

  /** `window.fill(0)`. */
  method FillZero(arr: array<bv32>)
    modifies arr
    ensures BitsOf(arr[..]) == {}
  {
    for i := 0 to arr.Length
      invariant forall j :: 0 <= j < i ==> arr[j] == 0
    {
      arr[i] := 0;
    }
    NoBits(arr[..]);
  }

  lemma NoBits(ws: seq<bv32>)
    requires forall i :: 0 <= i < |ws| ==> ws[i] == 0
    ensures BitsOf(ws) == {}
  {
    forall k: nat ensures !Bit(ws, k) {
      if k / 32 < |ws| {
        ZeroWord(k % 32);
      }
    }
  }
}
