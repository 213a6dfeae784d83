/** What several of the models share: optional values, and lists without repeats. */
module Common {

  datatype Option<+T> = None | Some(value: T)

  ghost predicate NoRepeats<T>(xs: seq<T>) {
    forall a, b :: 0 <= a < b < |xs| ==> xs[a] != xs[b]
  }
}
