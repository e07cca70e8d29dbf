/**
 The values the codec carries. A Go `string` is a byte sequence, so `Str` and `Bytes`
 differ only in their dynamic type; the decoder always produces `Bytes`.
 */
module BencodeValue {
  import opened Base

  datatype Value =
    | Int(n: int64)
    | Str(s: bytes)
    | Bytes(b: bytes)
    | List(items: seq<Value>)
    | Dict(entries: map<bytes, Value>)
    | Unsupported

  /** No value of a type the encoder refuses, at any depth. */
  ghost predicate Encodable(v: Value)
    decreases v
  {
    match v
    case Int(_) => true
    case Str(_) => true
    case Bytes(_) => true
    case List(items) => forall i :: 0 <= i < |items| ==> Encodable(items[i])
    case Dict(m) => forall k :: k in m ==> Encodable(m[k])
    case Unsupported => false
  }

  /** The value as the decoder gives it back: every string read as bytes. */
  function Normal(v: Value): Value
    decreases v
  {
    match v
    case Int(_) => v
    case Str(s) => Bytes(s)
    case Bytes(_) => v
    case List(items) => List(seq(|items|, i requires 0 <= i < |items| => Normal(items[i])))
    case Dict(m) => Dict(map k | k in m :: Normal(m[k]))
    case Unsupported => v
  }
}
