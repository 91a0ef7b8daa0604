/** Types shared by the components. */
module Common {
  /** Raw bytes, as read from files and sockets. */
  type byte = b: int | 0 <= b < 256

  const LF: byte := 10
  const CR: byte := 13

  datatype Option<+T> = None | Some(value: T)

  /** Concatenation of all elements. */
  function Flatten<T>(parts: seq<seq<T>>): seq<T> {
    if parts == [] then [] else Flatten(parts[..|parts| - 1]) + parts[|parts| - 1]
  }

  lemma FlattenSnoc<T>(parts: seq<seq<T>>, last: seq<T>)
    ensures Flatten(parts + [last]) == Flatten(parts) + last
  {
    assert (parts + [last])[..|parts|] == parts;
  }

  function Min(a: int, b: int): int {
    if a <= b then a else b
  }
}
