/** Lists of numbers: descriptors, blocks, threads. */
module Sequences {
  predicate Distinct(s: seq<int>) {
    forall i, j :: 0 <= i < j < |s| ==> s[i] != s[j]
  }
}
