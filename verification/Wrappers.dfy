/** Shared vocabulary: Python's `None` or a value, and texts that arrive in chunks. */
module Wrappers {
  datatype Option<+T> = None | Some(value: T)

  function Concat(chunks: seq<string>): string {
    if chunks == [] then "" else Concat(chunks[..|chunks| - 1]) + chunks[|chunks| - 1]
  }

  lemma Reassociated<T>(a: seq<T>, b: seq<T>, c: seq<T>)
    ensures a + (b + c) == (a + b) + c
  {
  }
}
