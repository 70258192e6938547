/**
 A large invariant is often passed along without being looked into.  Such a predicate is
 stated here as "for every z at a Gate, the invariant holds", which the verifier unfolds
 only where a proof says so by asserting Gate(0).
 */
module Gates {

  predicate Gate(z: nat) {
    true
  }

  /** A second one, for a part of such an invariant that is to stay folded when the rest is not. */
  predicate Latch(z: nat) {
    true
  }
}
