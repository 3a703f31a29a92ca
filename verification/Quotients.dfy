/** Arithmetic on real quotients that several proofs share. */
module Quotients {
  lemma QuotientMonotone(x: real, y: real, d: real)
    requires x <= y && d > 0.0
    ensures x / d <= y / d
  {
  }
}
