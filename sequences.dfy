/** Facts about sequences that several modules lean on. */
module Sequences {
  /** Concatenation regroups freely; the solver finds this costly to discover inside larger proofs. */
  lemma Regroup<T>(x: seq<T>, y: seq<T>, z: seq<T>)
    ensures (x + y) + z == x + (y + z)
  {
  }
}
