/** From one step to whole runs. */
module Runs {

  /** `good` is an invariant that implies `holds`. If at every good moment before `n` the next one
      is good exactly when the step between them keeps it, and exactly when `holds` is true there,
      then `holds` is true throughout exactly when all steps keep it, and then all is good. */
  lemma {:induction false} ThroughoutExactly(n: nat, good: nat -> bool, holds: nat -> bool, keeps: nat -> bool)
    requires good(0) && forall k: nat | k <= n && good(k) :: holds(k)
    requires forall k: nat | k < n && good(k) :: (good(k + 1) <==> keeps(k)) && (holds(k + 1) ==> good(k + 1))
    ensures (forall k: nat | k <= n :: holds(k)) <==> (forall k: nat | k < n :: keeps(k))
    ensures (forall k: nat | k < n :: keeps(k)) ==> forall k: nat | k <= n :: good(k)
  {
    if n > 0 {
      ThroughoutExactly(n - 1, good, holds, keeps);
      if forall k: nat | k < n :: keeps(k) {
        assert good(n - 1) && keeps(n - 1);
      } else if forall k: nat | k <= n :: holds(k) {
        assert good(n - 1) && holds(n);
      }
    }
  }
}
