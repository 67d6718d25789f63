/** Values that may be missing, and sequences in pieces. */
module Wrappers {

  datatype Option<+T> = None | Some(value: T)

  /** The pieces joined; the last piece comes off first, as it went on last. */
  function Concat<T>(pieces: seq<seq<T>>): seq<T> {
    if pieces == [] then [] else Concat(pieces[..|pieces| - 1]) + pieces[|pieces| - 1]
  }

  lemma Associate<T>(a: seq<T>, b: seq<T>, c: seq<T>)
    ensures (a + b) + c == a + (b + c)
  {
  }
}
