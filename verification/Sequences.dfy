/** Sequences. */
module Sequences {
  // Concatenation is associative, for the verifier where it does not see it.
  lemma {:induction false} Assoc<T>(x: seq<T>, y: seq<T>, z: seq<T>)
    ensures x + y + z == x + (y + z)
  {
  }
}
