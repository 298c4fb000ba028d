/** Message sizes drawn by weight (burnin/src/payload.ts:81-103). */
module SizeDistribution {
  import opened Ranges
  import opened Sums
  import opened Options
  import opened SizeSpec

  const DEFAULT_SIZE: int := 1024

  /** The draw for a random number in [0, 1): from 1 to a positive total. */
  function Draw(random: real, total: int): (r: int)
    requires 0.0 <= random < 1.0
    ensures total > 0 ==> 1 <= r <= total
    ensures (r - 1) as real <= random * total as real < r as real
  {
    Fraction(random, total);
    (random * total as real).Floor + 1
  }

  lemma Fraction(random: real, total: int)
    requires 0.0 <= random < 1.0
    ensures total > 0 ==> 0.0 <= random * total as real < total as real
  {
    if total > 0 {
      Monotone(0.0, random, total as real);
      Monotone(1.0, random, total as real);
    }
  }

  /** Each draw has its own stretch of the random numbers, all of the same length. */
  lemma DrawUniform(random: real, total: int, r: int)
    requires 0.0 <= random < 1.0 && total > 0
    ensures Draw(random, total) == r <==> (r - 1) as real / total as real <= random < r as real / total as real
  {
    Quotient((r - 1) as real, random, total as real);
    Quotient(r as real, random, total as real);
  }

  lemma Quotient(a: real, b: real, c: real)
    requires c > 0.0
    ensures a / c <= b <==> a <= b * c
  {
    assert a == (a / c) * c;
    Monotone(a / c, b, c);
  }

  lemma Monotone(a: real, b: real, c: real)
    requires c > 0.0
    ensures a <= b <==> a * c <= b * c
  {
  }

  /** The weights up to and with index `i`. */
  function Through(weights: seq<int>, i: nat): int
    requires i < |weights|
  {
    Total(weights[..i + 1])
  }

  /** The weights before index `i`. */
  function Below(weights: seq<int>, i: nat): int
    requires i <= |weights|
  {
    if i == 0 then 0 else Through(weights, i - 1)
  }

  /** The index the draw `r` selects: the first at which the weights so far reach it. */
  ghost predicate Selects(weights: seq<int>, r: int, i: nat) {
    && i < |weights| && r <= Through(weights, i)
    && (forall j: nat :: j < i ==> Through(weights, j) < r)
  }

  lemma SelectsOnce(weights: seq<int>, r: int, i: nat, j: nat)
    requires Selects(weights, r, i) && Selects(weights, r, j)
    ensures i == j
  {
  }

  lemma BelowNext(weights: seq<int>, i: nat)
    requires i < |weights|
    ensures Below(weights, i + 1) == Through(weights, i)
  {
  }

  ghost predicate Weights(weights: seq<int>) {
    forall i :: 0 <= i < |weights| ==> weights[i] >= 0
  }

  lemma ThroughStep(weights: seq<int>, i: nat)
    requires i < |weights|
    ensures Through(weights, i) == Below(weights, i) + weights[i]
    ensures i == |weights| - 1 ==> Through(weights, i) == Total(weights)
  {
    assert weights[..i + 1][..i] == weights[..i];
    assert Below(weights, i) == Total(weights[..i]);
    assert weights[..|weights|] == weights;
  }

  lemma {:induction false} ThroughMonotone(weights: seq<int>, i: nat, j: nat)
    requires Weights(weights) && i <= j < |weights|
    ensures Through(weights, i) <= Through(weights, j)
  {
    if i < j {
      ThroughMonotone(weights, i, j - 1);
      ThroughStep(weights, j);
    }
  }

  /** With non-negative weights a draw selects `i` when it lies in the stretch `weights[i]` adds. */
  lemma SelectsStretch(weights: seq<int>, i: nat, r: int)
    requires Weights(weights) && i < |weights| && r >= 1
    ensures Selects(weights, r, i) <==>
            Below(weights, i) < r <= Through(weights, i)
  {
    hide Through, Weights;
    if i > 0 && Through(weights, i - 1) < r {
      forall j: nat | j < i ensures Through(weights, j) < r {
        ThroughMonotone(weights, j, i - 1);
      }
    }
  }

  /** With non-negative weights exactly `weights[i]` of the draws from 1 to the total select `i`. */
  lemma DrawsPerIndex(weights: seq<int>, i: nat, draws: set<int>)
    requires Weights(weights) && i < |weights|
    requires forall r :: r in draws <==> 1 <= r <= Total(weights) && Selects(weights, r, i)
    ensures |draws| == weights[i]
  {
    StretchInside(weights, i);
    hide Through, Below, Total, Selects;
    forall r: int ensures r in draws <==> Below(weights, i) < r <= Through(weights, i) {
      if r >= 1 {
        SelectsStretch(weights, i, r);
      }
    }
    assert draws == Span(Below(weights, i), Through(weights, i));
  }

  lemma StretchInside(weights: seq<int>, i: nat)
    requires Weights(weights) && i < |weights|
    ensures 0 <= Below(weights, i) <= Through(weights, i) <= Total(weights)
    ensures Through(weights, i) - Below(weights, i) == weights[i]
  {
    hide Total, Through;
    ThroughStep(weights, i);
    ThroughStep(weights, 0);
    ThroughStep(weights, |weights| - 1);
    ThroughMonotone(weights, i, |weights| - 1);
    if i > 0 {
      ThroughMonotone(weights, 0, i - 1);
    }
  }

  /** Every draw up to the total selects an index. */
  lemma {:induction false} DrawSelects(weights: seq<int>, r: int, i: nat)
    requires i < |weights| && r <= Total(weights)
    requires forall j: nat :: j < i ==> Through(weights, j) < r
    ensures exists k :: Selects(weights, r, k)
    decreases |weights| - i
  {
    if r <= Through(weights, i) {
      assert Selects(weights, r, i);
    } else {
      ThroughStep(weights, i);
      DrawSelects(weights, r, i + 1);
    }
  }

  /** Every draw up to the total selects one index and no other. */
  lemma OneIndexPerDraw(weights: seq<int>, r: int)
    requires weights != [] && r <= Total(weights)
    ensures exists i :: Selects(weights, r, i) && forall j :: Selects(weights, r, j) ==> j == i
  {
    DrawSelects(weights, r, 0);
    var i: nat :| Selects(weights, r, i);
    forall j: nat | Selects(weights, r, j) ensures j == i {
      SelectsOnce(weights, r, i, j);
    }
  }

  // Weights as read from a text, None for NaN.

  predicate AllNumbers(weights: seq<Option<int>>) {
    forall i :: 0 <= i < |weights| ==> weights[i].Some?
  }

  function Values(weights: seq<Option<int>>): (values: seq<int>)
    requires AllNumbers(weights)
    ensures |values| == |weights|
  {
    seq(|weights|, i requires 0 <= i < |weights| => weights[i].value)
  }

  /** One weight that is no number makes the total none. */
  function TotalOf(weights: seq<Option<int>>): Option<int> {
    if AllNumbers(weights) then Some(Total(Values(weights))) else None
  }

  function Plus(a: Option<int>, b: Option<int>): Option<int> {
    if a.Some? && b.Some? then Some(a.value + b.value) else None
  }

  function Minus(a: Option<int>, b: Option<int>): Option<int> {
    if a.Some? && b.Some? then Some(a.value - b.value) else None
  }

  lemma TotalOfNext(weights: seq<Option<int>>, w: Option<int>)
    ensures TotalOf(weights + [w]) == Plus(TotalOf(weights), w)
  {
    var more := weights + [w];
    assert AllNumbers(more) <==> AllNumbers(weights) && w.Some? by {
      assert forall i | 0 <= i < |weights| :: more[i] == weights[i];
      assert more[|weights|] == w;
    }
    if AllNumbers(more) {
      assert Values(more)[..|weights|] == Values(weights);
    }
  }

  lemma NothingTotals()
    ensures TotalOf([]) == Some(0)
  {
  }

  class SizeDistribution {
    var sizes: seq<Option<int>>
    var weights: seq<Option<int>>
    var total: Option<int>

    ghost predicate Valid()
      reads this
    {
      |sizes| == |weights| && total == TotalOf(weights)
    }

    /** `number` is the conversion of a text, None for NaN. */
    constructor (spec: string, number: string -> Option<int>)
      ensures Valid() && |sizes| == |PairsOf(spec, number)| > 0
      ensures forall i :: 0 <= i < |sizes| ==> (sizes[i], weights[i]) == PairsOf(spec, number)[i]
    {
      hide PairOf, TotalOf, Split;
      sizes, weights, total := [], [], Some(0);
      new;
      NothingTotals();
      var pairs := Split(spec, ',');
      for n := 0 to |pairs|
        invariant Valid() && |sizes| == n
        invariant forall i :: 0 <= i < n ==> (sizes[i], weights[i]) == PairOf(pairs[i], number)
      {
        var (size, weight) := PairOf(pairs[n], number);
        TotalOfNext(weights, weight);
        sizes := sizes + [size];
        weights := weights + [weight];
        total := Plus(total, weight);
      }
    }

    /** `random` is the random number in [0, 1). A draw beyond every weight gives the last size,
        and so does a weight that is no number. */
    method SelectSize(random: real) returns (size: Option<int>)
      requires Valid() && 0.0 <= random < 1.0
      ensures total.Some? ==> forall i: nat | i < |sizes| &&
                Selects(Values(weights), Draw(random, total.value), i) :: size == sizes[i]
      ensures total.None? || (forall i: nat | i < |weights| ::
                Through(Values(weights), i) < Draw(random, total.value)) ==>
                size == if sizes == [] then Some(1024) else sizes[|sizes| - 1]
    {
      hide Draw, Through, Total;
      ghost var values := if total.Some? then Values(weights) else [];
      ghost var draw := if total.Some? then Draw(random, total.value) else 0;
      var r := if total.Some? then Some(Draw(random, total.value)) else None;
      for i := 0 to |sizes|
        invariant r.Some? <==> total.Some?
        invariant r.Some? ==> r.value == draw - Below(values, i)
        invariant r.Some? ==> forall j: nat :: j < i ==> Through(values, j) < draw
      {
        if total.Some? {
          ThroughStep(values, i);
          BelowNext(values, i);
        }
        r := Minus(r, weights[i]);
        if r.Some? && r.value <= 0 {
          return sizes[i];
        }
      }
      return if |sizes| > 0 then sizes[|sizes| - 1] else Some(DEFAULT_SIZE);
    }
  }
}
