/**
 * Small facts about sequences, stated once and used by the induction
 * steps of the other modules so that each step stays a short proof.
 */
module Sequences {

  /** Concatenation is associative. */
  lemma AppendAssoc<T>(a: seq<T>, b: seq<T>, c: seq<T>)
    ensures a + b + c == a + (b + c)
  {
  }

  /** A sequence is its three slices at `i` and `j`, in order. */
  lemma SliceThree<T>(s: seq<T>, i: nat, j: nat)
    requires i <= j <= |s|
    ensures s == s[..i] + s[i..j] + s[j..]
  {
  }

  /** Dropping the last element of `s + [x]` gives back `s`. */
  lemma SnocInit<T>(s: seq<T>, x: T)
    ensures (s + [x])[..|s|] == s
  {
  }
}
