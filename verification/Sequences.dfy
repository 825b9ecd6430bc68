/** A fact about sequences that grow at the end. */
module Sequences {

  lemma SameSlices<T>(before: seq<T>, after: seq<T>)
    requires before <= after
    ensures forall i, j :: 0 <= i <= j <= |before| ==> after[i..j] == before[i..j]
  {
  }
}
