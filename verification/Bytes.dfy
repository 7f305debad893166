/** Bytes of a terminal stream, and the few sequence operations the stream code relies on. */
module Bytes {

  type Byte = x: int | 0 <= x < 0x100

  const NEWLINE: Byte := 10
  const CR: Byte := 13
  const ESC: Byte := 0x1b

  /** The first position of `value` in `data`, or `|data|` when it does not occur. */
  function FirstIndex(data: seq<Byte>, value: Byte): (r: nat)
    ensures r <= |data|
    ensures r < |data| ==> data[r] == value
    ensures forall i :: 0 <= i < r ==> data[i] != value
  {
    if data == [] || data[0] == value then 0 else 1 + FirstIndex(data[1..], value)
  }

  /** Splits at every separator; the separators disappear, so n separators give n + 1 parts. */
  function Split(data: seq<Byte>, separator: Byte): (parts: seq<seq<Byte>>)
    ensures |parts| >= 1
  {
    if data == [] then [[]]
    else
      var rest := Split(data[1..], separator);
      if data[0] == separator then [[]] + rest else [[data[0]] + rest[0]] + rest[1..]
  }

  /** Joining is the inverse of splitting. */
  function Join(parts: seq<seq<Byte>>, separator: Byte): seq<Byte>
  {
    if parts == [] then []
    else if |parts| == 1 then parts[0]
    else parts[0] + [separator] + Join(parts[1..], separator)
  }

  lemma {:induction false} SplitJoin(data: seq<Byte>, separator: Byte)
    ensures Join(Split(data, separator), separator) == data
    ensures forall p :: p in Split(data, separator) ==> separator !in p
  {
    if data != [] {
      SplitJoin(data[1..], separator);
      var rest := Split(data[1..], separator);
      if data[0] == separator {
        assert ([[]] + rest)[1..] == rest;
      } else {
        var parts := [[data[0]] + rest[0]] + rest[1..];
        assert parts[1..] == rest[1..];
        assert separator !in rest[0];
      }
    }
  }
}
