/** What the checksum of payload.ts detects, and what it misses. */
module CrcDetection {
  import opened Crc

  // The difference of two messages decides whether their checksums agree.

  /** The bits in which two messages differ. */
  function Difference(x: seq<bool>, y: seq<bool>): (d: seq<bool>)
    requires |x| == |y|
    ensures |d| == |x| && forall k :: 0 <= k < |d| ==> d[k] == (x[k] != y[k])
  {
    if x == [] then [] else [x[0] != y[0]] + Difference(x[1..], y[1..])
  }

  lemma {:induction false} RunDifference(c: bv32, d: bv32, x: seq<bool>, y: seq<bool>)
    requires |x| == |y|
    ensures Xor(RunBits(c, x), RunBits(d, y)) == RunBits(Xor(c, d), Difference(x, y))
    decreases |x|
  {
    hide Xor, StepBit;
    if x != [] {
      RunDifference(StepBit(c, x[0]), StepBit(d, y[0]), x[1..], y[1..]);
      StepDifference(c, d, x[0], y[0]);
      assert Difference(x, y)[1..] == Difference(x[1..], y[1..]);
    }
  }

  lemma StepDifference(c: bv32, d: bv32, a: bool, b: bool)
    ensures Xor(StepBit(c, a), StepBit(d, b)) == StepBit(Xor(c, d), a != b)
  {
    hide Shift1, Xor;
    var u, v := BitWord(a), BitWord(b);
    Shift1Linear(Xor(c, u), Xor(d, v));
    BitWords(a, b);
    XorMiddle(c, u, d, v);
  }

  lemma BitWords(a: bool, b: bool)
    ensures Xor(BitWord(a), BitWord(b)) == BitWord(a != b)
  {
  }

  lemma XorMiddle(c: bv32, u: bv32, d: bv32, v: bv32)
    ensures Xor(Xor(c, u), Xor(d, v)) == Xor(Xor(c, d), Xor(u, v))
  {
    hide Xor;
    XorAssociates(c, u, Xor(d, v));
    XorAssociates(u, d, v);
    XorSwaps(u, d);
    XorAssociates(d, u, v);
    XorAssociates(c, d, Xor(u, v));
  }

  lemma XorIsZero(x: bv32, y: bv32)
    ensures Xor(x, y) == 0 <==> x == y
    ensures Xor(x, ONES) == Xor(y, ONES) <==> x == y
  {
    XorUndone(x, ONES);
    XorUndone(y, ONES);
  }

  /** Two messages of one length have the same checksum exactly when their difference drives
      the empty register back to zero. */
  lemma SyndromeDecides(x: seq<bv8>, y: seq<bv8>)
    requires |x| == |y|
    ensures |BitsOf(x)| == |BitsOf(y)|
    ensures CrcByBits(x) == CrcByBits(y) <==> RunBits(0, Difference(BitsOf(x), BitsOf(y))) == 0
  {
    hide Xor, RunBits, BitsOf;
    BitsLength(x);
    BitsLength(y);
    RunDifference(ONES, ONES, BitsOf(x), BitsOf(y));
    XorUndone(ONES, 0);
    XorIsZero(RunBits(ONES, BitsOf(x)), RunBits(ONES, BitsOf(y)));
  }

  lemma {:induction false} LowBitsLength(x: bv32, n: nat)
    ensures |LowBits(x, n)| == n
    decreases n
  {
    if n > 0 {
      LowBitsLength(Half(x), n - 1);
    }
  }

  lemma {:induction false} BitsLength(buf: seq<bv8>)
    ensures |BitsOf(buf)| == 8 * |buf|
  {
    hide LowBits;
    if buf != [] {
      LowBitsLength(buf[0] as bv32, 8);
      BitsLength(buf[1..]);
    }
  }

  // The register forgets nothing: only zero shifts to zero.

  lemma ShiftsToZero(c: bv32)
    ensures Shift1(c) == 0 <==> c == 0
  {
    if Odd(c) {
      assert c >> 1 < 0x8000_0000;
      assert POLYNOMIAL ^ (c >> 1) >= 0x8000_0000;
    } else {
      assert c & 1 == 0;
      assert c >> 1 == 0 ==> c == 0;
    }
  }

  ghost predicate AllFalse(bits: seq<bool>) {
    forall k :: 0 <= k < |bits| ==> !bits[k]
  }

  lemma {:induction false} QuietRun(c: bv32, quiet: seq<bool>)
    requires AllFalse(quiet)
    ensures RunBits(c, quiet) == 0 <==> c == 0
    decreases |quiet|
  {
    hide Shift1, Xor;
    if quiet != [] {
      XorUndone(c, 0);
      ShiftsToZero(c);
      QuietRun(StepBit(c, false), quiet[1..]);
    }
  }

  // A burst of up to 32 bits cannot drive the register back to zero.

  /** A word of `k` significant bits: the low `k` ones of a mask. */
  function Ones(k: nat): bv32 {
    if k == 0 then 0 else Double(Ones(k - 1), true)
  }

  predicate Within(x: bv32, mask: bv32) {
    x & mask == x
  }

  predicate FitsIn(x: bv32, k: nat) {
    Within(x, Ones(k))
  }

  /** The word whose lowest bit is `bits[0]`. */
  function WordOf(bits: seq<bool>): bv32 {
    if bits == [] then 0 else Double(WordOf(bits[1..]), bits[0])
  }

  function Double(x: bv32, bit: bool): bv32 {
    (x << 1) | BitWord(bit)
  }

  lemma {:induction false} WordFits(bits: seq<bool>)
    ensures FitsIn(WordOf(bits), |bits|)
  {
    hide FitsIn, Double;
    if bits == [] {
      NothingFits();
    } else {
      WordFits(bits[1..]);
      DoubleFits(WordOf(bits[1..]), |bits| - 1, bits[0]);
    }
  }

  lemma NothingFits()
    ensures FitsIn(0, 0)
  {
  }

  lemma DoubleFits(x: bv32, k: nat, bit: bool)
    requires FitsIn(x, k)
    ensures FitsIn(Double(x, bit), k + 1)
  {
    hide Double, Within;
    DoubleWithin(x, Ones(k), bit);
  }

  lemma DoubleWithin(x: bv32, mask: bv32, bit: bool)
    requires Within(x, mask)
    ensures Within(Double(x, bit), Double(mask, true))
  {
    DoubleIs(x, bit);
    DoubleIs(mask, true);
    hide Double, BitWord, Within;
    SetLowWithin(x, mask);
    ClearLowWithin(x, mask);
  }

  lemma DoubleIs(x: bv32, bit: bool)
    ensures Double(x, bit) == if bit then (x << 1) | 1 else (x << 1) | 0
  {
  }

  lemma SetLowWithin(x: bv32, mask: bv32)
    requires Within(x, mask)
    ensures Within((x << 1) | 1, (mask << 1) | 1)
  {
  }

  lemma ClearLowWithin(x: bv32, mask: bv32)
    requires Within(x, mask)
    ensures Within((x << 1) | 0, (mask << 1) | 1)
  {
  }

  lemma {:induction false} OnesNested(k: nat, n: nat)
    requires k <= n
    ensures Within(Ones(k), Ones(n))
    decreases k
  {
    hide Double, Within;
    if k > 0 {
      OnesNested(k - 1, n - 1);
      DoubleWithin(Ones(k - 1), Ones(n - 1), true);
    } else {
      ZeroWithin(Ones(n));
    }
  }

  lemma ZeroWithin(mask: bv32)
    ensures Within(0, mask)
  {
  }

  lemma Ones31()
    ensures Ones(31) == 0x7FFF_FFFF
  {
    assert Ones(8) == 0xFF;
    assert Ones(16) == 0xFFFF;
    assert Ones(24) == 0xFF_FFFF;
  }

  /** At most 31 significant bits leave the top bit clear. */
  lemma TopClear(x: bv32, k: nat)
    requires FitsIn(x, k) && k <= 31
    ensures x < 0x8000_0000
  {
    hide Ones, Within;
    OnesNested(k, 31);
    Ones31();
    MaskBelow(x, Ones(k));
  }

  lemma MaskBelow(x: bv32, mask: bv32)
    requires Within(x, mask) && Within(mask, 0x7FFF_FFFF)
    ensures x < 0x8000_0000
  {
  }

  /** One step backwards: into a word whose top bit is clear only its double can lead. */
  lemma StepBack(c: bv32, bit: bool, x: bv32)
    requires x < 0x8000_0000 && StepBit(c, bit) == x
    ensures c == Double(x, bit)
  {
    hide Shift1, Xor, BitWord, Double;
    ShiftBack(Xor(c, BitWord(bit)), x);
    XorUndone(c, BitWord(bit));
    DoubleIsXor(x, bit);
  }

  lemma ShiftBack(fed: bv32, x: bv32)
    requires x < 0x8000_0000 && Shift1(fed) == x
    ensures fed == x << 1
  {
    if !Odd(fed) {
      assert fed & 1 == 0;
    }
  }

  lemma DoubleIsXor(x: bv32, bit: bool)
    ensures Double(x, bit) == Xor(x << 1, BitWord(bit))
  {
    OrIsXor(x, BitWord(bit));
  }

  lemma OrIsXor(x: bv32, low: bv32)
    requires low <= 1
    ensures (x << 1) | low == (x << 1) ^ low
  {
  }

  /** Up to 32 bits lead to zero exactly from the word they spell. */
  lemma {:induction false} ZeroingWord(c: bv32, bits: seq<bool>)
    requires |bits| <= 32 && RunBits(c, bits) == 0
    ensures c == WordOf(bits)
    decreases |bits|
  {
    hide StepBit, FitsIn, Double;
    if bits != [] {
      var rest := bits[1..];
      ZeroingWord(StepBit(c, bits[0]), rest);
      WordFits(rest);
      TopClear(WordOf(rest), |rest|);
      StepBack(c, bits[0], WordOf(rest));
    }
  }

  lemma {:induction false} ZeroWord(bits: seq<bool>)
    requires |bits| <= 32 && WordOf(bits) == 0
    ensures AllFalse(bits)
  {
    hide FitsIn, Double;
    if bits != [] {
      var rest := bits[1..];
      WordFits(rest);
      TopClear(WordOf(rest), |rest|);
      DoubleIsZero(WordOf(rest), bits[0]);
      ZeroWord(rest);
      assert forall k | 0 < k < |bits| :: bits[k] == rest[k - 1];
    }
  }

  lemma DoubleIsZero(x: bv32, bit: bool)
    requires x < 0x8000_0000 && Double(x, bit) == 0
    ensures x == 0 && !bit
  {
    assert (x << 1) | BitWord(bit) == 0;
  }

  /** A difference confined to 32 consecutive bits, and not empty, is never a zero syndrome. */
  lemma BurstSyndrome(d: seq<bool>, from: nat, to: nat)
    requires from <= to <= |d| && to - from <= 32
    requires AllFalse(d[..from]) && AllFalse(d[to..]) && !AllFalse(d)
    ensures RunBits(0, d) != 0
  {
    hide RunBits;
    var before, burst, after := d[..from], d[from..to], d[to..];
    assert d == before + (burst + after);
    RunAppend(0, before, burst + after);
    QuietRun(0, before);
    RunAppend(0, burst, after);
    QuietRun(RunBits(0, burst), after);
    if RunBits(0, d) == 0 {
      ZeroingWord(0, burst);
      ZeroWord(burst);
      forall k | 0 <= k < |d| ensures !d[k] {
        if from <= k < to {
          assert d[k] == burst[k - from];
        } else if k < from {
          assert d[k] == before[k];
        } else {
          assert d[k] == after[k - to];
        }
      }
    }
  }

  /** Burst detection: two different messages of one length whose bits agree outside some 32
      consecutive positions have different checksums. */
  lemma BurstDetected(x: seq<bv8>, y: seq<bv8>, from: nat, to: nat)
    requires |x| == |y| && BitsOf(x) != BitsOf(y) && |BitsOf(x)| == |BitsOf(y)|
    requires from <= to <= |BitsOf(x)| && to - from <= 32
    requires BitsOf(x)[..from] == BitsOf(y)[..from] && BitsOf(x)[to..] == BitsOf(y)[to..]
    ensures CrcByBits(x) != CrcByBits(y)
  {
    hide RunBits, BitsOf;
    SyndromeDecides(x, y);
    var a, b := BitsOf(x), BitsOf(y);
    var d := Difference(a, b);
    forall k | 0 <= k < from ensures !d[k] {
      assert a[k] == a[..from][k] && b[k] == b[..from][k];
    }
    forall k | to <= k < |d| ensures !d[k] {
      assert a[k] == a[to..][k - to] && b[k] == b[to..][k - to];
    }
    assert !AllFalse(d) by {
      var k :| 0 <= k < |a| && a[k] != b[k];
      assert d[k];
    }
    BurstSyndrome(d, from, to);
  }

  /** In bytes: a corruption confined to 4 consecutive bytes. */
  lemma ByteBurstDetected(x: seq<bv8>, y: seq<bv8>, at: nat, n: nat)
    requires |x| == |y| && x != y && n <= 4 && at + n <= |x|
    requires x[..at] == y[..at] && x[at + n..] == y[at + n..]
    ensures CrcByBits(x) != CrcByBits(y)
  {
    hide CrcByBits, BitsOf;
    BitsLength(x);
    BitsLength(y);
    BitsOfSlice(x, at);
    BitsOfSlice(y, at);
    BitsOfSlice(x, at + n);
    BitsOfSlice(y, at + n);
    if BitsOf(x) == BitsOf(y) {
      BitsDetermine(x, y);
    }
    BurstDetected(x, y, 8 * at, 8 * (at + n));
  }

  lemma BitsOfSlice(x: seq<bv8>, at: nat)
    requires at <= |x|
    ensures |BitsOf(x)| == 8 * |x|
    ensures BitsOf(x)[..8 * at] == BitsOf(x[..at]) && BitsOf(x)[8 * at..] == BitsOf(x[at..])
  {
    hide BitsOf;
    assert x == x[..at] + x[at..];
    BitsAppend(x[..at], x[at..]);
    BitsLength(x);
    BitsLength(x[..at]);
  }

  lemma {:induction false} BitsDetermine(x: seq<bv8>, y: seq<bv8>)
    requires |x| == |y| && BitsOf(x) == BitsOf(y)
    ensures x == y
  {
    hide LowBits;
    if x != [] {
      LowBitsLength(x[0] as bv32, 8);
      LowBitsLength(y[0] as bv32, 8);
      assert LowBits(x[0] as bv32, 8) == BitsOf(x)[..8];
      assert LowBits(y[0] as bv32, 8) == BitsOf(y)[..8];
      ByteDetermined(x[0], y[0]);
      assert BitsOf(x[1..]) == BitsOf(x)[8..];
      assert BitsOf(y[1..]) == BitsOf(y)[8..];
      BitsDetermine(x[1..], y[1..]);
    }
  }

  lemma ByteDetermined(b: bv8, c: bv8)
    requires LowBits(b as bv32, 8) == LowBits(c as bv32, 8)
    ensures b == c
  {
    hide LowBits, Drop;
    ByteFacts(0, b);
    ByteFacts(0, c);
    LowBitsDetermine(b as bv32, c as bv32, 8);
  }

  lemma {:induction false} LowBitsDetermine(x: bv32, y: bv32, n: nat)
    requires LowBits(x, n) == LowBits(y, n) && Drop(x, n) == Drop(y, n)
    ensures x == y
    decreases n
  {
    hide Half, Odd;
    if n > 0 {
      assert LowBits(x, n)[0] == Odd(x) && LowBits(y, n)[0] == Odd(y);
      assert LowBits(x, n)[1..] == LowBits(Half(x), n - 1) && LowBits(y, n)[1..] == LowBits(Half(y), n - 1);
      LowBitsDetermine(Half(x), Half(y), n - 1);
      HalfAndOdd(x, y);
    }
  }

  lemma HalfAndOdd(x: bv32, y: bv32)
    requires Half(x) == Half(y) && (Odd(x) <==> Odd(y))
    ensures x == y
  {
    assert x & 1 == y & 1;
  }

  // The bound is sharp.

  lemma ByteRun(c: bv32, buf: seq<bv8>, next: bv32)
    requires |buf| > 0 && Shift(Xor(c, buf[0] as bv32), 8) == next
    ensures RunBits(c, BitsOf(buf)) == RunBits(next, BitsOf(buf[1..]))
  {
    hide Xor, Drop, Shift, LowBits, RunBits;
    var x := buf[0] as bv32;
    ByteFacts(c, buf[0]);
    XorUndone(c, x);
    FeedPending(Xor(c, x), x, 8);
    XorUndone(next, 0);
    RunAppend(c, LowBits(x, 8), BitsOf(buf[1..]));
  }

  lemma ShiftValues()
    ensures Shift(0x41, 8) == 0x1DB_7106 && Shift(0x1DB_7100, 8) == 0x1_DB71
    ensures Shift(0x1_DB00, 8) == 0x1DB && Shift(0x100, 8) == 0x1 && Shift(0, 8) == 0
  {
  }

  lemma XorValues()
    ensures Xor(0, 0x41) == 0x41 && Xor(0x1DB_7106, 0x06) == 0x1DB_7100 && Xor(0x1_DB71, 0x71) == 0x1_DB00
    ensures Xor(0x1DB, 0xDB) == 0x100 && Xor(0x1, 0x01) == 0
  {
  }

  lemma {:induction false} ZeroLowBits(n: nat)
    ensures AllFalse(LowBits(0, n))
    decreases n
  {
    if n > 0 {
      ZeroLowBits(n - 1);
      assert LowBits(0, n) == [false] + LowBits(0, n - 1);
    }
  }

  lemma {:induction false} ZeroBits(buf: seq<bv8>)
    requires forall i :: 0 <= i < |buf| ==> buf[i] == 0
    ensures AllFalse(BitsOf(buf))
  {
    hide LowBits;
    if buf != [] {
      ZeroLowBits(8);
      ZeroBits(buf[1..]);
    }
  }

  const ZEROS5: seq<bv8> := [0, 0, 0, 0, 0]
  const POLYNOMIAL_BYTES: seq<bv8> := [0x41, 0x06, 0x71, 0xDB, 0x01]

  /** 32 bits is the limit: these two messages differ, all their bits agree from position 33 on,
      and they have the same checksum. */
  lemma BurstOf33Missed()
    ensures ZEROS5 != POLYNOMIAL_BYTES
    ensures |BitsOf(ZEROS5)| == |BitsOf(POLYNOMIAL_BYTES)| == 40
    ensures BitsOf(ZEROS5)[33..] == BitsOf(POLYNOMIAL_BYTES)[33..]
    ensures CrcByBits(ZEROS5) == CrcByBits(POLYNOMIAL_BYTES)
  {
    hide RunBits, BitsOf, CrcByBits, Shift, Xor, LowBits;
    var x, y := ZEROS5, POLYNOMIAL_BYTES;
    ShiftValues();
    XorValues();
    ByteRun(0, y, 0x1DB_7106);
    ByteRun(0x1DB_7106, y[1..], 0x1_DB71);
    ByteRun(0x1_DB71, y[2..], 0x1DB);
    ByteRun(0x1DB, y[3..], 0x1);
    ByteRun(0x1, y[4..], 0);
    NoBytes(0, y[5..]);
    SyndromeDecides(x, y);
    ZeroBits(x);
    assert Difference(BitsOf(x), BitsOf(y)) == BitsOf(y);
    BitsLength(x);
    BitsLength(y);
    LastByteBits(x);
    LastByteBits(y);
    LastBytes();
    assert forall k | 33 <= k < 40 :: BitsOf(x)[k] == LowBits(0, 8)[k - 32];
    assert forall k | 33 <= k < 40 :: BitsOf(y)[k] == LowBits(1, 8)[k - 32];
  }

  /** The bits of the fifth of five bytes. */
  lemma LastByteBits(buf: seq<bv8>)
    requires |buf| == 5
    ensures |BitsOf(buf)| == 40 && |LowBits(buf[4] as bv32, 8)| == 8
    ensures BitsOf(buf)[32..] == LowBits(buf[4] as bv32, 8)
  {
    hide BitsOf, LowBits;
    BitsOfSlice(buf, 4);
    BitsLength(buf);
    OneByteBits(buf[4..]);
    LowBitsLength(buf[4] as bv32, 8);
  }

  lemma OneByteBits(buf: seq<bv8>)
    requires |buf| == 1
    ensures BitsOf(buf) == LowBits(buf[0] as bv32, 8)
  {
    hide LowBits;
    assert BitsOf(buf[1..]) == [];
  }

  lemma LastBytes()
    ensures |LowBits(0, 8)| == |LowBits(1, 8)| == 8
    ensures LowBits(0, 8)[1..] == LowBits(1, 8)[1..]
  {
    LowBitsLength(0, 8);
    LowBitsLength(1, 8);
    assert Half(0) == 0 && Half(1) == 0;
    hide Half;
    assert LowBits(0, 8)[1..] == LowBits(Half(0), 7);
    assert LowBits(1, 8)[1..] == LowBits(Half(1), 7);
  }

  lemma NoBytes(c: bv32, buf: seq<bv8>)
    requires buf == []
    ensures RunBits(c, BitsOf(buf)) == c
  {
  }

  // The check value.

  lemma CheckBytes0()
    ensures Shift(Xor(0xFFFFFFFF, 0x31), 8) == 0x7C231048
    ensures Shift(Xor(0x7C231048, 0x32), 8) == 0xB0ACBB32
    ensures Shift(Xor(0xB0ACBB32, 0x33), 8) == 0x77B79C2D
  {
  }

  lemma CheckBytes1()
    ensures Shift(Xor(0x77B79C2D, 0x34), 8) == 0x641C1F5C
    ensures Shift(Xor(0x641C1F5C, 0x35), 8) == 0x340AC5E3
    ensures Shift(Xor(0x340AC5E3, 0x36), 8) == 0xF68D2C9E
  {
  }

  lemma CheckBytes2()
    ensures Shift(Xor(0xF68D2C9E, 0x37), 8) == 0xAFFC9660
    ensures Shift(Xor(0xAFFC9660, 0x38), 8) == 0x651F2550
    ensures Shift(Xor(0x651F2550, 0x39), 8) == 0x340BC6D9
  {
  }

  /** The checksum of the text "123456789", in bytes, is 0xCBF43926. */
  lemma CheckValue()
    ensures CrcByBits([0x31, 0x32, 0x33, 0x34, 0x35, 0x36, 0x37, 0x38, 0x39]) == 0xCBF4_3926
  {
    hide RunBits, BitsOf, Shift, Xor, LowBits;
    var buf: seq<bv8> := [0x31, 0x32, 0x33, 0x34, 0x35, 0x36, 0x37, 0x38, 0x39];
    CheckBytes0();
    CheckBytes1();
    CheckBytes2();
    ByteRun(0xFFFFFFFF, buf, 0x7C231048);
    ByteRun(0x7C231048, buf[1..], 0xB0ACBB32);
    ByteRun(0xB0ACBB32, buf[2..], 0x77B79C2D);
    ByteRun(0x77B79C2D, buf[3..], 0x641C1F5C);
    ByteRun(0x641C1F5C, buf[4..], 0x340AC5E3);
    ByteRun(0x340AC5E3, buf[5..], 0xF68D2C9E);
    ByteRun(0xF68D2C9E, buf[6..], 0xAFFC9660);
    ByteRun(0xAFFC9660, buf[7..], 0x651F2550);
    ByteRun(0x651F2550, buf[8..], 0x340BC6D9);
    NoBytes(0x340BC6D9, buf[9..]);
    LastXor();
  }

  lemma LastXor()
    ensures Xor(0x340BC6D9, 0xFFFF_FFFF) == 0xCBF4_3926
  {
  }
}
