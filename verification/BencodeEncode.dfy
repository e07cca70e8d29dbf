/**
 The encoder of common/bencode/encode.go: every routine appends to one shared builder.
 `Encode` is the text it is proved to produce.
 */
module BencodeEncode {
  import opened Base
  import opened BencodeValue
  import opened ByteOrder
  import opened Decimal

  const TAG_INT: byte := 105
  const TAG_LIST: byte := 108
  const TAG_DICT: byte := 100
  const END: byte := 101
  const COLON: byte := 58

  function EncodeBytes(b: bytes): bytes {
    Itoa(|b|) + [COLON] + b
  }

  ghost function Encode(v: Value): bytes
    decreases v, 1, 0
  {
    match v
    case Int(n) => [TAG_INT] + Itoa(n) + [END]
    case Str(s) => EncodeBytes(s)
    case Bytes(b) => EncodeBytes(b)
    case List(items) => [TAG_LIST] + EncodeItems(items) + [END]
    case Dict(m) => [TAG_DICT] + EncodeEntries(v, SortedKeys(m.Keys)) + [END]
    case Unsupported => []
  }

  ghost function EncodeItems(items: seq<Value>): bytes
    decreases items, 0, 0
  {
    if items == [] then [] else Encode(items[0]) + EncodeItems(items[1..])
  }

  /** The entries of dictionary `v` under `keys`, in that order. */
  ghost function EncodeEntries(v: Value, keys: seq<bytes>): bytes
    requires v.Dict? && forall i :: 0 <= i < |keys| ==> keys[i] in v.entries
    decreases v, 0, |keys|
  {
    if keys == [] then []
    else EncodeBytes(keys[0]) + Encode(v.entries[keys[0]]) + EncodeEntries(v, keys[1..])
  }

  class Builder {
    var buf: bytes

    constructor ()
      ensures buf == []
    {
      buf := [];
    }

    method WriteByte(b: byte)
      modifies this
      ensures buf == old(buf) + [b]
    {
      buf := buf + [b];
    }

    method Write(data: bytes)
      modifies this
      ensures buf == old(buf) + data
    {
      buf := buf + data;
    }
  }

  method WriteInt(builder: Builder, n: int64)
    modifies builder
    ensures builder.buf == old(builder.buf) + Encode(Int(n))
  {
    builder.WriteByte(TAG_INT);
    builder.Write(Itoa(n));
    builder.WriteByte(END);
  }

  method WriteBytes(builder: Builder, data: bytes)
    modifies builder
    ensures builder.buf == old(builder.buf) + EncodeBytes(data)
  {
    builder.Write(Itoa(|data|));
    builder.WriteByte(COLON);
    builder.Write(data);
  }

  lemma AppendElement(keys: seq<bytes>, k: bytes)
    ensures Elements(keys + [k]) == Elements(keys) + {k}
  {
  }

  /** Collects the keys in whatever order the map yields them. */
  method CollectKeys(m: map<bytes, Value>) returns (keys: seq<bytes>)
    ensures Elements(keys) == m.Keys
    ensures forall i, j :: 0 <= i < j < |keys| ==> keys[i] != keys[j]
  {
    keys := [];
    var rest := m.Keys;
    while rest != {}
      invariant Elements(keys) !! rest
      invariant Elements(keys) + rest == m.Keys
      invariant forall i, j :: 0 <= i < j < |keys| ==> keys[i] != keys[j]
      decreases |rest|
    {
      var k :| k in rest;
      assert k in keys <==> k in Elements(keys);
      AppendElement(keys, k);
      keys := keys + [k];
      rest := rest - {k};
    }
  }

  method WriteEntries(builder: Builder, v: Value, keys: seq<bytes>) returns (ok: bool)
    requires v.Dict? && forall i :: 0 <= i < |keys| ==> keys[i] in v.entries
    modifies builder
    ensures ok <==> forall i :: 0 <= i < |keys| ==> Encodable(v.entries[keys[i]])
    ensures ok ==> builder.buf == old(builder.buf) + EncodeEntries(v, keys)
    ensures old(builder.buf) <= builder.buf
    decreases v, 0
  {
    hide Encode, EncodeBytes;
    ghost var whole := builder.buf + EncodeEntries(v, keys);
    for i := 0 to |keys|
      invariant builder.buf + EncodeEntries(v, keys[i..]) == whole
      invariant old(builder.buf) <= builder.buf
      invariant forall j :: 0 <= j < i ==> Encodable(v.entries[keys[j]])
    {
      var k := keys[i];
      assert keys[i..][0] == k && keys[i..][1..] == keys[i + 1..];
      ghost var before := builder.buf;
      WriteBytes(builder, k);
      ok := WriteAny(builder, v.entries[k]);
      if !ok {
        return;
      }
      Regroup(before, EncodeBytes(k), Encode(v.entries[k]), EncodeEntries(v, keys[i + 1..]));
    }
    assert EncodeEntries(v, keys[|keys|..]) == [];
    return true;
  }

  lemma Regroup(a: bytes, b: bytes, c: bytes, d: bytes)
    ensures a + b + c + d == a + (b + c + d)
  {
  }

  /** On failure the builder keeps what was already written, as the source leaves it. */
  method WriteMap(builder: Builder, v: Value) returns (ok: bool)
    requires v.Dict?
    modifies builder
    ensures ok <==> Encodable(v)
    ensures ok ==> builder.buf == old(builder.buf) + Encode(v)
    ensures old(builder.buf) <= builder.buf
    decreases v, 1
  {
    builder.WriteByte(TAG_DICT);
    var collected := CollectKeys(v.entries);
    var keys := SortStrings(collected);
    assert forall k :: k in v.entries <==> k in Elements(keys);
    ok := WriteEntries(builder, v, keys);
    if ok {
      builder.WriteByte(END);
      Regroup(old(builder.buf), [TAG_DICT], EncodeEntries(v, keys), [END]);
    }
  }

  method WriteItems(builder: Builder, items: seq<Value>) returns (ok: bool)
    modifies builder
    ensures ok <==> forall i :: 0 <= i < |items| ==> Encodable(items[i])
    ensures ok ==> builder.buf == old(builder.buf) + EncodeItems(items)
    ensures old(builder.buf) <= builder.buf
    decreases items, 0
  {
    hide Encode;
    ghost var whole := builder.buf + EncodeItems(items);
    for i := 0 to |items|
      invariant builder.buf + EncodeItems(items[i..]) == whole
      invariant old(builder.buf) <= builder.buf
      invariant forall j :: 0 <= j < i ==> Encodable(items[j])
    {
      assert items[i..][0] == items[i] && items[i..][1..] == items[i + 1..];
      ghost var before := builder.buf;
      ok := WriteAny(builder, items[i]);
      if !ok {
        return;
      }
      Regroup(before, [], Encode(items[i]), EncodeItems(items[i + 1..]));
    }
    assert EncodeItems(items[|items|..]) == [];
    return true;
  }

  method WriteList(builder: Builder, v: Value) returns (ok: bool)
    requires v.List?
    modifies builder
    ensures ok <==> Encodable(v)
    ensures ok ==> builder.buf == old(builder.buf) + Encode(v)
    ensures old(builder.buf) <= builder.buf
    decreases v, 1
  {
    builder.WriteByte(TAG_LIST);
    ok := WriteItems(builder, v.items);
    if ok {
      builder.WriteByte(END);
      Regroup(old(builder.buf), [TAG_LIST], EncodeItems(v.items), [END]);
    }
  }

  method WriteAny(builder: Builder, v: Value) returns (ok: bool)
    modifies builder
    ensures ok <==> Encodable(v)
    ensures ok ==> builder.buf == old(builder.buf) + Encode(v)
    ensures old(builder.buf) <= builder.buf
    decreases v, 2
  {
    match v {
      case Int(n) =>
        WriteInt(builder, n);
        ok := true;
      case Str(s) =>
        WriteBytes(builder, s);
        ok := true;
      case Bytes(b) =>
        WriteBytes(builder, b);
        ok := true;
      case Dict(_) =>
        ok := WriteMap(builder, v);
      case List(_) =>
        ok := WriteList(builder, v);
      case Unsupported =>
        ok := false;
    }
  }

  method BEncode(v: Value) returns (r: Outcome<bytes>)
    ensures r == if Encodable(v) then Ok(Encode(v)) else Err
  {
    var builder := new Builder();
    var ok := WriteAny(builder, v);
    if ok {
      assert [] + Encode(v) == Encode(v);
      r := Ok(builder.buf);
    } else {
      r := Err;
    }
  }
}
