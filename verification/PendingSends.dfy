/** The table of unanswered sends that createQueueUpstream and createEventStoreStream keep. A
    send's promise is its number: 0 for the first accepted send, and so on. */
module PendingSends {

  /** `resolved` and `rejected` hold every call of a promise's two functions. */
  datatype Ledger = Ledger(
    pending: map<string, nat>,
    accepted: nat,
    resolved: multiset<nat>,
    rejected: multiset<nat>)

  /** How send answers: at once with one of two rejections, or later through a promise. */
  datatype Outcome = Closed | Reconnecting | Waiting(promise: nat)

  const EMPTY := Ledger(map[], 0, multiset{}, multiset{})

  function Accept(l: Ledger, id: string): Ledger {
    l.(pending := l.pending[id := l.accepted], accepted := l.accepted + 1)
  }

  function Answer(l: Ledger, id: string, ok: bool): Ledger {
    if id !in l.pending then l
    else
      var p := l.pending[id];
      var rest := l.(pending := l.pending - {id});
      if ok then rest.(resolved := l.resolved + multiset{p}) else rest.(rejected := l.rejected + multiset{p})
  }

  function RejectAll(l: Ledger): Ledger {
    l.(pending := map[], rejected := l.rejected + multiset(l.pending.Values))
  }

  /** In how many places promise `p` is: waiting, resolved, or rejected. */
  function Places(l: Ledger, p: nat): nat {
    (if p in l.pending.Values then 1 else 0) + l.resolved[p] + l.rejected[p]
  }

  /** Every accepted send is in exactly one place. */
  ghost predicate Conserved(l: Ledger) {
    && (forall p: nat :: Places(l, p) == if p < l.accepted then 1 else 0)
    && Injective(l.pending)
  }

  /** An accepted send keeps the books exactly when its id is not waiting already; otherwise the
      earlier promise under that id is left nowhere. */
  lemma AcceptConservesExactly(l: Ledger, id: string)
    requires Conserved(l)
    ensures Conserved(Accept(l, id)) <==> id !in l.pending
    ensures id in l.pending ==> Places(Accept(l, id), l.pending[id]) == 0
  {
    var t := Accept(l, id);
    assert forall p | p in l.pending.Values :: Places(l, p) == 1;
    if id in l.pending {
      var p := l.pending[id];
      assert p in l.pending.Values;
      assert p !in t.pending.Values;
      assert Places(t, p) == 0;
    } else {
      assert t.pending.Values == l.pending.Values + {l.accepted} by {
        assert forall a | a in l.pending :: t.pending[a] == l.pending[a];
        assert t.pending[id] == l.accepted;
      }
      assert Places(l, l.accepted) == 0;
      forall p: nat ensures Places(t, p) == if p < t.accepted then 1 else 0 {
        assert Places(l, p) == if p < l.accepted then 1 else 0;
      }
      forall a, b | a in t.pending && b in t.pending && t.pending[a] == t.pending[b] ensures a == b {
        assert l.accepted !in l.pending.Values;
      }
    }
  }

  lemma AnswerConserves(l: Ledger, id: string, ok: bool)
    requires Conserved(l)
    ensures Conserved(Answer(l, id, ok))
  {
    if id in l.pending {
      var t := Answer(l, id, ok);
      assert l.pending[id] in l.pending.Values;
      assert t.pending.Values == l.pending.Values - {l.pending[id]} by {
        assert forall a | a in l.pending && a != id :: a in t.pending && t.pending[a] == l.pending[a];
      }
      forall p: nat ensures Places(t, p) == Places(l, p) {
      }
    }
  }

  lemma RejectAllConserves(l: Ledger)
    requires Conserved(l)
    ensures Conserved(RejectAll(l))
  {
    forall p: nat ensures Places(RejectAll(l), p) == Places(l, p) {
    }
  }

  /** The `pending` map of a handle and the promises it has handed out. */
  class PendingTable {
    var pending: map<string, nat>
    var accepted: nat
    ghost var resolved: multiset<nat>
    ghost var rejected: multiset<nat>

    ghost function View(): Ledger
      reads this
    {
      Ledger(pending, accepted, resolved, rejected)
    }

    /** No two ids share a promise, and every waiting promise was handed out. */
    ghost predicate Valid()
      reads this
    {
      Injective(pending) && forall id :: id in pending ==> pending[id] < accepted
    }

    constructor ()
      ensures Valid() && View() == EMPTY
    {
      pending, accepted := map[], 0;
      resolved, rejected := multiset{}, multiset{};
    }

    method Put(id: string) returns (promise: nat)
      requires Valid()
      modifies this
      ensures Valid() && View() == Accept(old(View()), id)
      ensures id in pending && promise == pending[id] == old(accepted)
    {
      promise := accepted;
      pending := pending[id := promise];
      accepted := accepted + 1;
    }

    /** The server answered `id`. */
    method Settle(id: string, ok: bool)
      requires Valid()
      modifies this
      ensures Valid() && View() == Answer(old(View()), id, ok)
    {
      if id in pending {
        var promise := pending[id];
        pending := pending - {id};
        if ok {
          resolved := resolved + multiset{promise};
        } else {
          rejected := rejected + multiset{promise};
        }
      }
    }

    /** The loops that reject every waiting promise, then clear the table. */
    method RejectPending()
      requires Valid()
      modifies this
      ensures Valid() && View() == RejectAll(old(View()))
    {
      hide Injective;
      var left := pending;
      while left != map[]
        invariant Injective(left) && pending == old(pending) && accepted == old(accepted)
        invariant resolved == old(resolved)
        invariant rejected + multiset(left.Values) == old(rejected) + multiset(old(pending).Values)
        decreases |left|
      {
        var id :| id in left;
        ValuesWithout(left, id);
        rejected := rejected + multiset{left[id]};
        left := left - {id};
      }
      pending := map[];
      assert Valid() by {
        EmptyInjective();
      }
    }
  }

  lemma EmptyInjective()
    ensures Injective(map[])
  {
  }

  ghost predicate Injective(m: map<string, nat>) {
    forall a, b | a in m && b in m && m[a] == m[b] :: a == b
  }

  lemma ValuesWithout(m: map<string, nat>, id: string)
    requires Injective(m) && id in m
    ensures Injective(m - {id})
    ensures multiset(m.Values) == multiset((m - {id}).Values) + multiset{m[id]}
  {
    var rest := m - {id};
    assert m.Values == rest.Values + {m[id]} by {
      assert forall a | a in m && a != id :: a in rest && rest[a] == m[a];
    }
    assert m[id] !in rest.Values;
  }
}
