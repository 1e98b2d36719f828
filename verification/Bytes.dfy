/** Bytes, byte strings and the optional value shared by the other modules. */
module Bytes {
  newtype byte = x: int | 0 <= x < 256

  type bytes = seq<byte>

  const CR: byte := 0x0d
  const LF: byte := 0x0a

  datatype Option<+T> = None | Some(value: T)

  /** All elements of all parts, in order. */
  function Flatten<T>(parts: seq<seq<T>>): seq<T> {
    if parts == [] then [] else parts[0] + Flatten(parts[1..])
  }

  /** A common head can be taken off. */
  lemma {:induction false} Cancel<T>(head: seq<T>, x: seq<T>, y: seq<T>, z: seq<T>)
    ensures head + x == head + y + z <==> x == y + z
  {
    assert head + y + z == head + (y + z);
    assert (head + x)[|head|..] == x && (head + (y + z))[|head|..] == y + z;
  }
}
