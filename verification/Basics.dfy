/** What several of the models need: an optional value, and sequences without repetition. */
module Basics {
  datatype Option<T> = None | Some(value: T)

  ghost predicate Distinct<T>(l: seq<T>) {
    forall i, j :: 0 <= i < j < |l| ==> l[i] != l[j]
  }
}
