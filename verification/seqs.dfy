/** Small facts about sequence concatenation shared by the other modules. */
module Seqs {
  /** Concatenation regroups freely; Dafny's `+` associates to the left. */
  lemma AppendAssoc<T>(x: seq<T>, y: seq<T>, z: seq<T>)
    ensures x + (y + z) == x + y + z
  {
  }
}
