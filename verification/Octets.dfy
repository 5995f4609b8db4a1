/** Byte strings, shared by the modules that work on the wire or on file bodies. */
module Octets {
  type Byte = b: int | 0 <= b < 256
  type Bytes = seq<Byte>

  function Concat(pieces: seq<Bytes>): Bytes
    decreases |pieces|
  {
    if pieces == [] then [] else pieces[0] + Concat(pieces[1..])
  }
}
