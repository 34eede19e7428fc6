/** What several components share and no component owns. */
module Common {
  datatype Option<+T> = None | Some(value: T)

  lemma Associates<T>(a: seq<T>, b: seq<T>, c: seq<T>)
    ensures a + (b + c) == a + b + c
  {}
}
