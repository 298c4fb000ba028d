/** crc32Hex and verifyCrc (burnin/src/payload.ts:20-26). */
module CrcHex {
  import opened Crc
  import D = CrcDetection

  function Digit(d: nat): char
    requires d < 16
  {
    "0123456789abcdef"[d]
  }

  /** Number.prototype.toString(16). */
  function ToHex(n: nat): string {
    if n < 16 then [Digit(n)] else ToHex(n / 16) + [Digit(n % 16)]
  }

  /** String.prototype.padStart(width, '0'). */
  function PadStart(s: string, width: nat): string
    decreases width - |s|
  {
    if |s| >= width then s else PadStart("0" + s, width)
  }

  function Hex8(crc: bv32): string {
    PadStart(ToHex(crc as int), 8)
  }

  // Reading the text back.

  function DigitValue(c: char): int {
    if '0' <= c <= '9' then c as int - '0' as int else c as int - 'a' as int + 10
  }

  function FromHex(s: string): int {
    if s == "" then 0 else 16 * FromHex(s[..|s| - 1]) + DigitValue(s[|s| - 1])
  }

  lemma DigitReadsBack(d: nat)
    requires d < 16
    ensures DigitValue(Digit(d)) == d
  {
  }

  lemma {:induction false} ReadsBack(n: nat)
    ensures FromHex(ToHex(n)) == n
  {
    hide Digit, DigitValue;
    DigitReadsBack(n % 16);
    var text := ToHex(n);
    if n >= 16 {
      ReadsBack(n / 16);
      assert text[..|text| - 1] == ToHex(n / 16);
    } else {
      assert text[..|text| - 1] == "";
    }
  }

  lemma {:induction false} LeadingZero(s: string)
    ensures FromHex("0" + s) == FromHex(s)
  {
    if s == "" {
      assert "0"[..0] == "";
    } else {
      var front := s[..|s| - 1];
      assert ("0" + s)[..|s|] == "0" + front;
      LeadingZero(front);
    }
  }

  lemma {:induction false} PaddingReadsBack(s: string, width: nat)
    ensures FromHex(PadStart(s, width)) == FromHex(s)
    ensures |PadStart(s, width)| == if |s| >= width then |s| else width
    decreases width - |s|
  {
    if |s| < width {
      PaddingReadsBack("0" + s, width);
      LeadingZero(s);
    }
  }

  lemma {:induction false} HexLength(n: nat, k: nat, bound: nat)
    requires n < bound && k > 0 && bound == Power16(k)
    ensures |ToHex(n)| <= k
    decreases k
  {
    if n >= 16 {
      HexLength(n / 16, k - 1, Power16(k - 1));
    }
  }

  function Power16(k: nat): nat {
    if k == 0 then 1 else 16 * Power16(k - 1)
  }

  predicate LowerHex(c: char) {
    '0' <= c <= '9' || 'a' <= c <= 'f'
  }

  lemma {:induction false} HexDigits(n: nat)
    ensures forall i :: 0 <= i < |ToHex(n)| ==> LowerHex(ToHex(n)[i])
  {
    if n >= 16 {
      HexDigits(n / 16);
    }
  }

  lemma {:induction false} PaddedDigits(s: string, width: nat)
    requires forall i :: 0 <= i < |s| ==> LowerHex(s[i])
    ensures forall i :: 0 <= i < |PadStart(s, width)| ==> LowerHex(PadStart(s, width)[i])
    decreases width - |s|
  {
    if |s| < width {
      PaddedDigits("0" + s, width);
    }
  }

  /** Eight lower-case hexadecimal digits that read as the checksum, one text per checksum. */
  lemma Hex8Exact(a: bv32, b: bv32)
    ensures |Hex8(a)| == 8 && forall i :: 0 <= i < 8 ==> LowerHex(Hex8(a)[i])
    ensures FromHex(Hex8(a)) == a as int
    ensures Hex8(a) == Hex8(b) <==> a == b
  {
    HexDigits(a as int);
    PaddedDigits(ToHex(a as int), 8);
    hide LowerHex;
    assert Power16(8) == 0x1_0000_0000;
    HexLength(a as int, 8, 0x1_0000_0000);
    PaddingReadsBack(ToHex(a as int), 8);
    PaddingReadsBack(ToHex(b as int), 8);
    ReadsBack(a as int);
    ReadsBack(b as int);
    if a as int == b as int {
      SameWord(a, b);
    }
  }

  lemma SameWord(a: bv32, b: bv32)
    requires a as int == b as int
    ensures a == b
  {
    assert (a as int) as bv32 == a;
  }

  method Crc32Hex(table: array<bv32>, buf: seq<bv8>) returns (text: string)
    requires table.Length == 256 && IsTable(table[..])
    ensures text == Hex8(CrcByBits(buf))
  {
    var crc := Crc32(table, buf);
    text := PadStart(ToHex(crc as int), 8);
  }

  method VerifyCrc(table: array<bv32>, body: seq<bv8>, expected: string) returns (ok: bool)
    requires table.Length == 256 && IsTable(table[..])
    ensures ok <==> expected == Hex8(CrcByBits(body))
  {
    var text := Crc32Hex(table, body);
    ok := text == expected;
  }

  /** verifyCrc rejects every corruption of a body that stays within 32 consecutive bits. */
  lemma VerifyRejectsBurst(sent: seq<bv8>, body: seq<bv8>, from: nat, to: nat)
    requires |sent| == |body| && sent != body && |BitsOf(sent)| == |BitsOf(body)|
    requires from <= to <= |BitsOf(sent)| && to - from <= 32
    requires BitsOf(sent)[..from] == BitsOf(body)[..from] && BitsOf(sent)[to..] == BitsOf(body)[to..]
    ensures Hex8(CrcByBits(sent)) != Hex8(CrcByBits(body))
  {
    hide BitsOf, CrcByBits, Hex8;
    if BitsOf(sent) == BitsOf(body) {
      D.BitsDetermine(sent, body);
    }
    D.BurstDetected(sent, body, from, to);
    Hex8Exact(CrcByBits(sent), CrcByBits(body));
  }
}
