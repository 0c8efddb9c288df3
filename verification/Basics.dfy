/** What several modules share. */
module Basics {
  datatype Option<T> = None | Some(value: T)

  /** The length of user and host identifiers. */
  const ID_LEN: nat := 32

  lemma Assoc<T>(a: seq<T>, b: seq<T>, c: seq<T>)
    ensures (a + b) + c == a + (b + c)
  {
  }
}
