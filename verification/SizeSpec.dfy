/** The text of a size distribution, sizes and weights separated by colons and commas
    (burnin/src/payload.ts:86-93). */
module SizeSpec {
  import opened Options

  /** String.prototype.split with a one-character separator. */
  function Split(s: string, sep: char): (parts: seq<string>)
    ensures |parts| > 0
  {
    if s == "" then [""]
    else
      var rest := Split(s[1..], sep);
      if s[0] == sep then [""] + rest else [[s[0]] + rest[0]] + rest[1..]
  }

  predicate Space(c: char) {
    c == ' ' || c == '\t' || c == '\n' || c == '\r'
  }

  /** String.prototype.trim. */
  function Trim(s: string): string {
    if s == "" then ""
    else if Space(s[0]) then Trim(s[1..])
    else TrimEnd(s)
  }

  function TrimEnd(s: string): string {
    if s != "" && Space(s[|s| - 1]) then TrimEnd(s[..|s| - 1]) else s
  }

  /** The size and weight of one pair; `number` is the conversion of a text, None for NaN, and a
      missing weight is NaN too. */
  function PairOf(pair: string, number: string -> Option<int>): (Option<int>, Option<int>) {
    var parts := Split(Trim(pair), ':');
    (number(parts[0]), if |parts| > 1 then number(parts[1]) else None)
  }

  function PairsOf(spec: string, number: string -> Option<int>): (pairs: seq<(Option<int>, Option<int>)>)
    ensures |pairs| == |Split(spec, ',')|
  {
    seq(|Split(spec, ',')|, i requires 0 <= i < |Split(spec, ',')| => PairOf(Split(spec, ',')[i], number))
  }

  // Writing such a text.

  function Decimal(n: nat): string {
    if n < 10 then ["0123456789"[n]] else Decimal(n / 10) + ["0123456789"[n % 10]]
  }

  function PairText(pair: (nat, nat)): string {
    Decimal(pair.0) + ":" + Decimal(pair.1)
  }

  function SpecText(pairs: seq<(nat, nat)>): string
    requires pairs != []
  {
    if |pairs| == 1 then PairText(pairs[0]) else PairText(pairs[0]) + "," + SpecText(pairs[1..])
  }

  predicate Digits(s: string) {
    s != "" && forall i :: 0 <= i < |s| ==> '0' <= s[i] <= '9'
  }

  lemma {:induction false} DecimalDigits(n: nat)
    ensures Digits(Decimal(n))
  {
    if n >= 10 {
      DecimalDigits(n / 10);
    }
  }

  lemma {:induction false} SplitFirst(a: string, sep: char, b: string)
    requires sep !in a
    ensures Split(a + [sep] + b, sep) == [a] + Split(b, sep)
  {
    var s := a + [sep] + b;
    if a == "" {
      assert s[1..] == b;
    } else {
      assert s[1..] == a[1..] + [sep] + b;
      SplitFirst(a[1..], sep, b);
      assert [a[0]] + a[1..] == a;
    }
  }

  lemma {:induction false} SplitNone(a: string, sep: char)
    requires sep !in a
    ensures Split(a, sep) == [a]
  {
    if a != "" {
      SplitNone(a[1..], sep);
      assert [a[0]] + a[1..] == a;
    }
  }

  lemma PairReadBack(pair: (nat, nat), number: string -> Option<int>)
    requires forall n: nat :: number(Decimal(n)) == Some(n)
    ensures PairOf(PairText(pair), number) == (Some(pair.0), Some(pair.1))
    ensures ',' !in PairText(pair)
  {
    hide Decimal;
    DecimalDigits(pair.0);
    DecimalDigits(pair.1);
    var text := PairText(pair);
    assert text[0] == Decimal(pair.0)[0] && text[|text| - 1] == Decimal(pair.1)[|Decimal(pair.1)| - 1];
    assert Trim(text) == text;
    SplitFirst(Decimal(pair.0), ':', Decimal(pair.1));
    SplitNone(Decimal(pair.1), ':');
  }

  /** Reading a written specification gives the pairs back, for every conversion that reads
      decimal numbers. */
  lemma {:induction false} SpecReadBack(pairs: seq<(nat, nat)>, number: string -> Option<int>)
    requires pairs != [] && forall n: nat :: number(Decimal(n)) == Some(n)
    ensures |PairsOf(SpecText(pairs), number)| == |pairs|
    ensures forall i :: 0 <= i < |pairs| ==>
              PairsOf(SpecText(pairs), number)[i] == (Some(pairs[i].0), Some(pairs[i].1))
  {
    hide PairText, PairOf;
    PairReadBack(pairs[0], number);
    if |pairs| == 1 {
      SplitNone(PairText(pairs[0]), ',');
    } else {
      SpecReadBack(pairs[1..], number);
      SplitFirst(PairText(pairs[0]), ',', SpecText(pairs[1..]));
      var rest := PairsOf(SpecText(pairs[1..]), number);
      forall i | 0 < i < |pairs|
        ensures PairsOf(SpecText(pairs), number)[i] == (Some(pairs[i].0), Some(pairs[i].1))
      {
        var j := i - 1;
        assert PairsOf(SpecText(pairs), number)[i] == rest[j];
      }
    }
  }

  predicate Spaces(s: string) {
    forall i :: 0 <= i < |s| ==> Space(s[i])
  }

  lemma {:induction false} TrimSpaces(before: string, s: string, after: string)
    requires Spaces(before) && Spaces(after) && s != "" && !Space(s[0]) && !Space(s[|s| - 1])
    ensures Trim(before + s + after) == s
  {
    var all := before + s + after;
    if before == "" {
      TrimEndSpaces(s, after);
      assert all == s + after;
    } else {
      assert all[1..] == before[1..] + s + after;
      TrimSpaces(before[1..], s, after);
    }
  }

  lemma {:induction false} TrimEndSpaces(s: string, after: string)
    requires Spaces(after) && s != "" && !Space(s[|s| - 1])
    ensures TrimEnd(s + after) == s
  {
    var all := s + after;
    if after == "" {
      assert all == s;
    } else {
      assert all[..|all| - 1] == s + after[..|after| - 1];
      TrimEndSpaces(s, after[..|after| - 1]);
    }
  }

  /** Spaces around a pair do not matter. */
  lemma SpacedPairRead(before: string, pair: (nat, nat), after: string, number: string -> Option<int>)
    requires Spaces(before) && Spaces(after) && forall n: nat :: number(Decimal(n)) == Some(n)
    ensures PairOf(before + PairText(pair) + after, number) == (Some(pair.0), Some(pair.1))
  {
    hide Decimal, Trim;
    PairReadBack(pair, number);
    DecimalDigits(pair.0);
    DecimalDigits(pair.1);
    var text := PairText(pair);
    assert text[0] == Decimal(pair.0)[0] && text[|text| - 1] == Decimal(pair.1)[|Decimal(pair.1)| - 1];
    TrimSpaces(before, text, after);
    TrimSpaces("", text, "");
    assert "" + text + "" == text;
  }
}
