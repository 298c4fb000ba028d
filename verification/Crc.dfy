/** burnin/src/payload.ts: CRC-32 and its table. The reference is the code of section 8 of
    RFC 1952 taken one message bit at a time. */
module Crc {

  const POLYNOMIAL: bv32 := 0xEDB8_8320
  const ONES: bv32 := 0xFFFF_FFFF

  // `^`, `>>> 1`, `& 1`, `& 0xff` and `>>> 8`, named so that proofs can leave them folded.

  function Xor(x: bv32, y: bv32): bv32 {
    x ^ y
  }

  function Half(x: bv32): bv32 {
    x >> 1
  }

  predicate Odd(x: bv32) {
    x & 1 == 1
  }

  function LowByte(x: bv32): bv32 {
    x & 0xFF
  }

  function Shr8(x: bv32): bv32 {
    x >> 8
  }

  /** One shift of the reflected register. */
  function Shift1(c: bv32): bv32 {
    if Odd(c) then Xor(POLYNOMIAL, Half(c)) else Half(c)
  }

  function BitWord(bit: bool): bv32 {
    if bit then 1 else 0
  }

  /** One message bit enters at the low end. */
  function StepBit(c: bv32, bit: bool): bv32 {
    Shift1(Xor(c, BitWord(bit)))
  }

  /** The register after a list of message bits. */
  function RunBits(c: bv32, bits: seq<bool>): bv32
    decreases |bits|
  {
    if bits == [] then c else RunBits(StepBit(c, bits[0]), bits[1..])
  }

  /** The low `n` bits of a word, lowest first. */
  function LowBits(x: bv32, n: nat): seq<bool>
    decreases n
  {
    if n == 0 then [] else [Odd(x)] + LowBits(Half(x), n - 1)
  }

  function BitsOf(buf: seq<bv8>): seq<bool> {
    if buf == [] then [] else LowBits(buf[0] as bv32, 8) + BitsOf(buf[1..])
  }

  /** CRC-32 by the bit-at-a-time definition. */
  function CrcByBits(buf: seq<bv8>): bv32 {
    Xor(RunBits(ONES, BitsOf(buf)), ONES)
  }

  // Facts about words.

  lemma XorAssociates(x: bv32, y: bv32, z: bv32)
    ensures Xor(Xor(x, y), z) == Xor(x, Xor(y, z))
  {
  }

  lemma XorSwaps(x: bv32, y: bv32)
    ensures Xor(x, y) == Xor(y, x)
  {
  }

  lemma XorUndone(x: bv32, y: bv32)
    ensures Xor(Xor(x, y), y) == x
    ensures Xor(x, x) == 0 && Xor(x, 0) == x && Xor(0, x) == x
  {
  }

  lemma XorHalves(x: bv32, y: bv32)
    ensures Half(Xor(x, y)) == Xor(Half(x), Half(y))
    ensures Odd(Xor(x, y)) <==> Odd(x) != Odd(y)
  {
  }

  lemma XorPolynomial(p: bv32, x: bv32, y: bv32)
    ensures Xor(Xor(p, x), Xor(p, y)) == Xor(x, y)
    ensures Xor(p, Xor(x, y)) == Xor(Xor(p, x), y) == Xor(x, Xor(p, y))
  {
  }

  // The register is linear.

  lemma Shift1Linear(c: bv32, d: bv32)
    ensures Shift1(Xor(c, d)) == Xor(Shift1(c), Shift1(d))
  {
    hide Xor, Half, Odd;
    XorHalves(c, d);
    XorPolynomial(POLYNOMIAL, Half(c), Half(d));
  }

  function Shift(c: bv32, n: nat): bv32
    decreases n
  {
    if n == 0 then c else Shift(Shift1(c), n - 1)
  }

  function Drop(x: bv32, n: nat): bv32
    decreases n
  {
    if n == 0 then x else Drop(Half(x), n - 1)
  }

  lemma {:induction false} ShiftLinear(c: bv32, d: bv32, n: nat)
    ensures Shift(Xor(c, d), n) == Xor(Shift(c, n), Shift(d, n))
    decreases n
  {
    hide Xor, Shift1;
    if n > 0 {
      Shift1Linear(c, d);
      ShiftLinear(Shift1(c), Shift1(d), n - 1);
    }
  }

  /** Feeding the low bits of `x` one at a time, while the rest of `x` is still pending. */
  lemma {:induction false} FeedPending(c: bv32, x: bv32, n: nat)
    ensures RunBits(Xor(c, x), LowBits(x, n)) == Xor(Shift(c, n), Drop(x, n))
    decreases n
  {
    hide Xor, Half, Odd, Shift1, StepBit;
    if n > 0 {
      FeedOne(c, x);
      FeedPending(Shift1(c), Half(x), n - 1);
      var bits := LowBits(x, n);
      assert bits[1..] == LowBits(Half(x), n - 1);
    }
  }

  lemma FeedOne(c: bv32, x: bv32)
    ensures StepBit(Xor(c, x), Odd(x)) == Xor(Shift1(c), Half(x))
  {
    hide Xor, Half, Odd, Shift1, BitWord;
    var low := BitWord(Odd(x));
    XorAssociates(c, x, low);
    ClearedLow(x);
    Shift1Linear(c, Xor(x, low));
  }

  lemma ClearedLow(x: bv32)
    ensures Shift1(Xor(x, BitWord(Odd(x)))) == Half(x)
  {
    hide Xor, Half;
    ClearedLowBits(x);
  }

  lemma ClearedLowBits(x: bv32)
    ensures !Odd(Xor(x, BitWord(Odd(x)))) && Half(Xor(x, BitWord(Odd(x)))) == Half(x)
  {
    if Odd(x) {
      assert (x ^ 1) & 1 == 0 && (x ^ 1) >> 1 == x >> 1;
    } else {
      assert x ^ 0 == x;
    }
  }

  lemma {:induction false} RunAppend(c: bv32, a: seq<bool>, b: seq<bool>)
    ensures RunBits(c, a + b) == RunBits(RunBits(c, a), b)
    decreases |a|
  {
    if a == [] {
      assert a + b == b;
    } else {
      assert (a + b)[1..] == a[1..] + b;
      RunAppend(StepBit(c, a[0]), a[1..], b);
    }
  }

  // The table method.

  /** The entry for byte `b`. */
  function TableEntry(b: bv32): bv32 {
    Shift(b, 8)
  }

  /** Eight shifts are one table look-up: only the low byte meets the polynomial. */
  lemma ShiftByTable(c: bv32)
    ensures Shift(c, 8) == Xor(TableEntry(LowByte(c)), Shr8(c))
  {
    hide Xor, Shift, LowByte, Shr8;
    var high := c & 0xFFFF_FF00;
    SplitByte(c);
    ShiftLinear(LowByte(c), high, 8);
    HighByteShifts(high);
  }

  lemma SplitByte(c: bv32)
    ensures c == Xor(LowByte(c), c & 0xFFFF_FF00)
    ensures (c & 0xFFFF_FF00) & 0xFF == 0
    ensures Shr8(c & 0xFFFF_FF00) == Shr8(c)
  {
  }

  lemma HighByteShifts(h: bv32)
    requires h & 0xFF == 0
    ensures Shift(h, 8) == Shr8(h)
  {
    hide Shift1;
    HighByteStep(h);
    assert Shift(h, 8) == Shift(h >> 2, 6);
    assert Shift(h >> 2, 6) == Shift(h >> 4, 4);
    assert Shift(h >> 4, 4) == Shift(h >> 6, 2);
  }

  lemma HighByteStep(h: bv32)
    requires h & 0xFF == 0
    ensures Shift1(h) == h >> 1 && Shift1(h >> 1) == h >> 2
    ensures Shift1(h >> 2) == h >> 3 && Shift1(h >> 3) == h >> 4
    ensures Shift1(h >> 4) == h >> 5 && Shift1(h >> 5) == h >> 6
    ensures Shift1(h >> 6) == h >> 7 && Shift1(h >> 7) == h >> 8
  {
    hide Xor;
    assert !Odd(h) && !Odd(h >> 1) && !Odd(h >> 2) && !Odd(h >> 3);
    assert !Odd(h >> 4) && !Odd(h >> 5) && !Odd(h >> 6) && !Odd(h >> 7);
  }

  predicate IsTable(table: seq<bv32>)
    requires |table| == 256
  {
    forall k :: 0 <= k < 256 ==> table[k] == TableEntry(k as bv32)
  }

  /** CRC_TABLE as built at load time (burnin/src/payload.ts:6-12). */
  method BuildTable() returns (table: array<bv32>)
    ensures fresh(table) && table.Length == 256 && IsTable(table[..])
  {
    hide Shift1;
    table := new bv32[256];
    for i := 0 to 256
      invariant forall k :: 0 <= k < i ==> table[k] == TableEntry(k as bv32)
    {
      var c := i as bv32;
      for j := 0 to 8
        invariant Shift(c, 8 - j) == TableEntry(i as bv32)
      {
        c := Shift1(c);
      }
      table[i] := c;
    }
  }

  /** One table step is eight message bits. */
  lemma TableStep(table: seq<bv32>, c: bv32, b: bv8)
    requires |table| == 256 && IsTable(table)
    ensures var index := LowByte(Xor(c, b as bv32)) as int;
            0 <= index < 256 && RunBits(c, LowBits(b as bv32, 8)) == Xor(table[index], Shr8(c))
  {
    hide Xor, Shift, Drop, RunBits, LowBits, TableEntry, Shr8, LowByte;
    var x := b as bv32;
    IndexRoundTrip(Xor(c, x));
    ByteFacts(c, b);
    XorUndone(c, x);
    FeedPending(Xor(c, x), x, 8);
    XorUndone(Shift(Xor(c, x), 8), 0);
    ShiftByTable(Xor(c, x));
  }

  lemma IndexRoundTrip(x: bv32)
    ensures 0 <= LowByte(x) as int < 256 && (LowByte(x) as int) as bv32 == LowByte(x)
  {
    assert LowByte(x) <= 0xFF;
  }

  lemma ByteFacts(c: bv32, b: bv8)
    ensures Shr8(Xor(c, b as bv32)) == Shr8(c)
    ensures Drop(b as bv32, 8) == 0
  {
    var x := b as bv32;
    assert x <= 0xFF;
    assert x >> 8 == 0;
    assert Drop(x, 8) == Drop(x >> 4, 4);
    assert Drop(x >> 4, 4) == x >> 8;
  }

  /** crc32 (burnin/src/payload.ts:14-18): the table method computes the bit-at-a-time CRC. */
  method Crc32(table: array<bv32>, buf: seq<bv8>) returns (r: bv32)
    requires table.Length == 256 && IsTable(table[..])
    ensures r == CrcByBits(buf)
  {
    hide Xor, RunBits, BitsOf, LowBits, IsTable, LowByte, Shr8;
    var crc := ONES;
    RunNothing(ONES);
    for i := 0 to |buf|
      invariant crc == RunBits(ONES, BitsOf(buf[..i]))
    {
      TableStep(table[..], crc, buf[i]);
      RunByte(ONES, buf, i);
      crc := Xor(table[LowByte(Xor(crc, buf[i] as bv32)) as int], Shr8(crc));
    }
    assert buf[..|buf|] == buf;
    r := Xor(crc, ONES);
  }

  lemma RunNothing(c: bv32)
    ensures forall buf: seq<bv8> :: RunBits(c, BitsOf(buf[..0])) == c
  {
  }

  lemma {:induction false} BitsAppend(a: seq<bv8>, b: seq<bv8>)
    ensures BitsOf(a + b) == BitsOf(a) + BitsOf(b)
  {
    hide LowBits;
    if a == [] {
      assert a + b == b;
    } else {
      assert (a + b)[1..] == a[1..] + b;
      BitsAppend(a[1..], b);
    }
  }

  lemma RunByte(c: bv32, buf: seq<bv8>, i: nat)
    requires i < |buf|
    ensures RunBits(c, BitsOf(buf[..i + 1])) == RunBits(RunBits(c, BitsOf(buf[..i])), LowBits(buf[i] as bv32, 8))
  {
    hide LowBits, StepBit;
    assert buf[..i + 1] == buf[..i] + [buf[i]];
    BitsAppend(buf[..i], [buf[i]]);
    assert BitsOf([buf[i]]) == LowBits(buf[i] as bv32, 8);
    RunAppend(c, BitsOf(buf[..i]), LowBits(buf[i] as bv32, 8));
  }
}
