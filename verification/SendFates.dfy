/** What becomes of each accepted send, read off the sends, answers and losses alone. */
module SendFates {
  import opened PendingSends

  /** What an event is to the sends: one is accepted under an id, an id is answered, or all
      waiting ones are lost. */
  datatype Op = Accepted(id: string) | Answered(id: string, ok: bool) | AllLost | Other

  datatype Fate = NotSent | Awaits(id: string) | Resolved | Rejected

  function Accepts(ops: seq<Op>): nat {
    if ops == [] then 0 else Accepts(ops[..|ops| - 1]) + if ops[|ops| - 1].Accepted? then 1 else 0
  }

  /** The fate of the `p`-th accepted send, counted from 0: the first answer to its id, or the
      first loss, ends its wait. */
  function FateOf(ops: seq<Op>, p: nat): Fate {
    if ops == [] then NotSent
    else
      var before, op := ops[..|ops| - 1], ops[|ops| - 1];
      match FateOf(before, p)
      case NotSent => if op.Accepted? && Accepts(before) == p then Awaits(op.id) else NotSent
      case Awaits(id) =>
        if op == Answered(id, true) then Resolved
        else if op == Answered(id, false) || op == AllLost then Rejected
        else Awaits(id)
      case settled => settled
  }

  function Applied(l: Ledger, op: Op): Ledger {
    match op
    case Accepted(id) => Accept(l, id)
    case Answered(id, ok) => Answer(l, id, ok)
    case AllLost => RejectAll(l)
    case Other => l
  }

  function LedgerOf(ops: seq<Op>): Ledger {
    if ops == [] then EMPTY else Applied(LedgerOf(ops[..|ops| - 1]), ops[|ops| - 1])
  }

  lemma LedgerNext(ops: seq<Op>, op: Op)
    ensures LedgerOf(ops + [op]) == Applied(LedgerOf(ops), op)
  {
    assert (ops + [op])[..|ops|] == ops;
  }

  /** No send is accepted under the id of one that still waits. */
  ghost predicate FreshOps(ops: seq<Op>) {
    forall k: nat, p: nat | k < |ops| && ops[k].Accepted? :: FateOf(ops[..k], p) != Awaits(ops[k].id)
  }

  /** The ledger shows the fate `f` of promise `p`. */
  ghost predicate Shows(l: Ledger, p: nat, f: Fate) {
    && l.resolved[p] == (if f == Resolved then 1 else 0)
    && l.rejected[p] == (if f == Rejected then 1 else 0)
    && (forall id :: id in l.pending && l.pending[id] == p <==> f == Awaits(id))
    && (f == NotSent <==> p >= l.accepted)
  }

  lemma ShowsNext(l: Ledger, op: Op, p: nat, f: Fate, next: Fate)
    requires Shows(l, p, f) && Injective(l.pending) && (op.Accepted? ==> op.id !in l.pending)
    requires forall id :: id in l.pending ==> l.pending[id] < l.accepted
    requires next ==
      match f
      case NotSent => if op.Accepted? && l.accepted == p then Awaits(op.id) else NotSent
      case Awaits(id) =>
        if op == Answered(id, true) then Resolved
        else if op == Answered(id, false) || op == AllLost then Rejected
        else Awaits(id)
      case settled => settled
    ensures Shows(Applied(l, op), p, next)
  {
    match op
    case Accepted(id) =>
    case Answered(id, ok) =>
    case AllLost => assert p in l.pending.Values <==> f.Awaits?;
    case Other =>
  }

  lemma AppliedKeeps(l: Ledger, op: Op)
    requires Injective(l.pending) && (forall id :: id in l.pending ==> l.pending[id] < l.accepted)
    ensures var t := Applied(l, op);
            && Injective(t.pending) && (forall id :: id in t.pending ==> t.pending[id] < t.accepted)
            && t.accepted == l.accepted + if op.Accepted? then 1 else 0
  {
  }

  lemma {:induction false} LedgerShape(ops: seq<Op>)
    ensures var l := LedgerOf(ops);
            Injective(l.pending) && (forall id :: id in l.pending ==> l.pending[id] < l.accepted)
            && l.accepted == Accepts(ops)
  {
    hide Applied, Injective;
    if ops == [] {
      EmptyInjective();
    } else {
      LedgerShape(ops[..|ops| - 1]);
      AppliedKeeps(LedgerOf(ops[..|ops| - 1]), ops[|ops| - 1]);
    }
  }

  /** The ledger shows every send's fate. */
  lemma {:induction false} FatesShown(ops: seq<Op>, p: nat)
    requires FreshOps(ops)
    ensures Shows(LedgerOf(ops), p, FateOf(ops, p))
  {
    hide Applied, Injective, Shows;
    if ops == [] {
      NothingShown(p);
    } else {
      var before, op := ops[..|ops| - 1], ops[|ops| - 1];
      assert ops == before + [op];
      FreshBefore(before, op);
      FatesShown(before, p);
      LedgerShape(before);
      var l := LedgerOf(before);
      if op.Accepted? && op.id in l.pending {
        FatesShown(before, l.pending[op.id]);
        AwaitsShown(l, op.id, FateOf(before, l.pending[op.id]));
      }
      ShowsNext(l, op, p, FateOf(before, p), FateOf(ops, p));
    }
  }

  lemma FreshBefore(before: seq<Op>, op: Op)
    requires FreshOps(before + [op])
    ensures FreshOps(before)
    ensures op.Accepted? ==> forall p: nat :: FateOf(before, p) != Awaits(op.id)
  {
    hide FateOf;
    var ops := before + [op];
    assert forall k: nat | k < |before| :: before[..k] == ops[..k] && before[k] == ops[k];
    assert ops[..|before|] == before && ops[|before|] == op;
  }

  lemma AwaitsShown(l: Ledger, id: string, f: Fate)
    requires id in l.pending && Shows(l, l.pending[id], f)
    ensures f == Awaits(id)
  {
  }

  lemma NothingShown(p: nat)
    ensures Shows(EMPTY, p, NotSent)
  {
  }
}
