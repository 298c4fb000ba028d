/** A ring of counters read as the latest slots of an unbounded history. */
module Rings {
  import opened Sums

  /** The last `n` entries, all of them when there are fewer. */
  function Recent(history: seq<nat>, n: nat): seq<nat> {
    if |history| <= n then history else history[|history| - n..]
  }

  function Zeros(n: nat): (r: seq<nat>)
    ensures |r| == n && forall i :: 0 <= i < n ==> r[i] == 0
  {
    seq(n, _ => 0)
  }

  /** The ring from its oldest slot to the current one. */
  function Unrolled(buckets: seq<nat>, idx: nat): seq<nat>
    requires idx < |buckets|
  {
    buckets[idx + 1..] + buckets[..idx + 1]
  }

  /** The last `n` slots, with zeros for those before the start. */
  function Latest(history: seq<nat>, n: nat): (r: seq<nat>)
    ensures |r| == n
  {
    Zeros(n - |Recent(history, n)|) + Recent(history, n)
  }

  /** The ring shows the latest slots of `history`. */
  ghost predicate Shows(buckets: seq<nat>, idx: nat, history: seq<nat>) {
    idx < |buckets| && history != [] && Unrolled(buckets, idx) == Latest(history, |buckets|)
  }

  lemma ShowsIndex(buckets: seq<nat>, idx: nat, history: seq<nat>)
    requires Shows(buckets, idx, history)
    ensures idx < |buckets| && history != []
  {
  }

  /** One more record in the current slot. */
  function Recorded(history: seq<nat>): seq<nat> {
    if history == [] then [] else history[|history| - 1 := history[|history| - 1] + 1]
  }

  lemma RecordedLength(history: seq<nat>)
    ensures |Recorded(history)| == |history|
  {
  }

  lemma ShowsReset(n: nat, idx: nat)
    requires idx < n
    ensures Shows(Zeros(n), idx, [0])
  {
  }

  lemma ShowsRecorded(buckets: seq<nat>, idx: nat, history: seq<nat>)
    requires Shows(buckets, idx, history)
    ensures Shows(buckets[idx := buckets[idx] + 1], idx, Recorded(history))
  {
    var n := |buckets|;
    assert Unrolled(buckets, idx)[n - 1] == history[|history| - 1];
    assert Unrolled(buckets[idx := buckets[idx] + 1], idx) == Unrolled(buckets, idx)[n - 1 := buckets[idx] + 1];
    var was := Recent(history, n);
    assert Recent(Recorded(history), n) == was[|was| - 1 := buckets[idx] + 1];
  }

  lemma UnrolledAdvanced(buckets: seq<nat>, idx: nat)
    requires idx < |buckets|
    ensures var next := (idx + 1) % |buckets|;
            Unrolled(buckets[next := 0], next) == Unrolled(buckets, idx)[1..] + [0]
  {
    var next := (idx + 1) % |buckets|;
    Successor(idx, |buckets|);
    hide *;
    if next != 0 {
      UnrolledInside(buckets, idx);
    } else {
      UnrolledWraps(buckets, idx);
    }
  }

  lemma Successor(idx: nat, n: nat)
    requires idx < n
    ensures (idx + 1) % n == if idx + 1 == n then 0 else idx + 1
  {
  }

  lemma UnrolledInside(buckets: seq<nat>, idx: nat)
    requires idx + 1 < |buckets|
    ensures Unrolled(buckets[idx + 1 := 0], idx + 1) == Unrolled(buckets, idx)[1..] + [0]
  {
  }

  lemma UnrolledWraps(buckets: seq<nat>, idx: nat)
    requires idx + 1 == |buckets|
    ensures Unrolled(buckets[0 := 0], 0) == Unrolled(buckets, idx)[1..] + [0]
  {
  }

  lemma LatestAdvanced(history: seq<nat>, n: nat)
    requires n > 0
    ensures Latest(history + [0], n) == Latest(history, n)[1..] + [0]
  {
  }

  lemma ShowsAdvanced(buckets: seq<nat>, idx: nat, history: seq<nat>)
    requires Shows(buckets, idx, history)
    ensures var next := (idx + 1) % |buckets|;
            Shows(buckets[next := 0], next, history + [0])
  {
    hide Unrolled, Latest;
    UnrolledAdvanced(buckets, idx);
    LatestAdvanced(history, |buckets|);
  }

  lemma UnrolledTotal(buckets: seq<nat>, idx: nat)
    requires idx < |buckets|
    ensures Total(Unrolled(buckets, idx)) == Total(buckets)
  {
    var newest, oldest := buckets[..idx + 1], buckets[idx + 1..];
    UnrolledParts(buckets, idx);
    hide *;
    TotalConcat(oldest, newest);
    TotalConcat(newest, oldest);
  }

  lemma UnrolledParts(buckets: seq<nat>, idx: nat)
    requires idx < |buckets|
    ensures Unrolled(buckets, idx) == buckets[idx + 1..] + buckets[..idx + 1]
    ensures buckets == buckets[..idx + 1] + buckets[idx + 1..]
  {
  }

  lemma LatestTotal(history: seq<nat>, n: nat)
    ensures Total(Latest(history, n)) == Total(Recent(history, n))
  {
    hide Total, Recent, Zeros;
    RecentLength(history, n);
    var recent := Recent(history, n);
    TotalConcat(Zeros(n - |recent|), recent);
    ZerosTotal(n - |recent|);
  }

  /** The whole ring adds up to the latest slots. */
  lemma ShowsTotal(buckets: seq<nat>, idx: nat, history: seq<nat>)
    requires Shows(buckets, idx, history)
    ensures Total(buckets) == Total(Recent(history, |buckets|))
  {
    hide Total, Recent, Unrolled, Latest;
    UnrolledTotal(buckets, idx);
    LatestTotal(history, |buckets|);
  }

  lemma RecentLength(history: seq<nat>, n: nat)
    ensures |Recent(history, n)| <= n
  {
  }

  lemma {:induction false} ZerosTotal(n: nat)
    ensures Total(Zeros(n)) == 0
  {
    if n > 0 {
      assert Zeros(n)[..n - 1] == Zeros(n - 1);
      ZerosTotal(n - 1);
    }
  }
}
