/** Order-preserving subsequences, described by the positions they were taken from. */
module Sequences {

  /** `idx` lists increasing positions of `sup` whose elements, in order, make up `sub`. */
  ghost predicate Embedding<T>(sub: seq<T>, sup: seq<T>, idx: seq<nat>) {
    && |idx| == |sub|
    && (forall i :: 0 <= i < |idx| ==> idx[i] < |sup| && sub[i] == sup[idx[i]])
    && (forall i, j :: 0 <= i < j < |idx| ==> idx[i] < idx[j])
  }

  /** A non-empty sequence is its prefix followed by its last element. */
  lemma LastSplit<T>(s: seq<T>)
    requires s != []
    ensures s == s[..|s| - 1] + [s[|s| - 1]]
  {
  }
}
