/**
 A fact about sequences that several proofs need by name: joining three of them in either order gives the same.
 */
module Sequences {
  lemma Associates<T>(a: seq<T>, b: seq<T>, c: seq<T>)
    ensures (a + b) + c == a + (b + c)
  {
  }
}
