/** Definitions shared by all modules. */
module Common {

  datatype Option<T> = None | Some(value: T)

  ghost predicate Distinct(q: seq<nat>) {
    forall i, j :: 0 <= i < j < |q| ==> q[i] != q[j]
  }
}
