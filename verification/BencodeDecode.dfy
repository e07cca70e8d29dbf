/**
 The recursive-descent decoder of common/bencode/decode.go.

 Lists, dictionaries and integers that run into the end of the buffer are accepted and
 then report an offset past the end; a dictionary takes any byte in place of its `d` when
 it is entered through `DecodeDict`; a dangling key is dropped; the last of several equal
 keys wins; a key that is not a byte string panics.
 */
module BencodeDecode {
  import opened Base
  import opened BencodeValue
  import opened Decimal
  import opened BencodeEncode

  /** A decoded value and the offset after it, an `error`, or a panic. */
  datatype Decoded<+T> = Read(value: T, end: nat) | Bad | Crash

  /** The same result seen from `n` bytes further left. */
  function Shift<T>(r: Decoded<T>, n: nat): Decoded<T> {
    match r
    case Read(v, end) => Read(v, n + end)
    case Bad => Bad
    case Crash => Crash
  }

  function Prepend(items: seq<Value>, r: Decoded<seq<Value>>): Decoded<seq<Value>> {
    match r
    case Read(rest, end) => Read(items + rest, end)
    case Bad => Bad
    case Crash => Crash
  }

  lemma PrependNothing(r: Decoded<seq<Value>>)
    ensures Prepend([], r) == r
  {
    if r.Read? {
      assert [] + r.value == r.value;
    }
  }

  lemma PrependTwice(a: seq<Value>, b: seq<Value>, r: Decoded<seq<Value>>)
    ensures Prepend(a, Prepend(b, r)) == Prepend(a + b, r)
  {
    if r.Read? {
      assert a + (b + r.value) == a + b + r.value;
    }
  }

  /** The first index from `i` on that holds `c`, or the length of the buffer. */
  function ScanTo(buf: bytes, i: nat, c: byte): (r: nat)
    requires i <= |buf|
    ensures i <= r <= |buf|
    ensures forall j :: i <= j < r ==> buf[j] != c
    ensures r < |buf| ==> buf[r] == c
    decreases |buf| - i
  {
    if i == |buf| || buf[i] == c then i else ScanTo(buf, i + 1, c)
  }

  function DecodeBytes(buf: bytes, pos: nat): (r: Decoded<Value>)
    requires pos <= |buf|
    ensures pos < |buf| && IsDigit(buf[pos]) ==> !r.Crash?
    ensures r.Read? ==> r.value.Bytes? && pos < r.end <= |buf| && |r.value.b| < r.end - pos
  {
    var i := ScanTo(buf, pos, COLON);
    match Atoi(buf[pos..i])
    case None => Bad
    case Some(l) =>
      if l >= |buf| || i + l + 1 > |buf| then Bad
      else if l < 0 then Crash
      else Read(Bytes(buf[i + 1..i + l + 1]), i + l + 1)
  }

  function DecodeInt(buf: bytes, pos: nat): (r: Decoded<Value>)
    requires pos < |buf|
    ensures !r.Crash?
    ensures r.Read? ==> r.value.Int? && pos < r.end <= |buf| + 1
  {
    var i := ScanTo(buf, pos + 1, END);
    match Atoi(buf[pos + 1..i])
    case None => Bad
    case Some(n) => Read(Int(n), i + 1)
  }

  function AsList(r: Decoded<seq<Value>>): Decoded<Value> {
    match r
    case Read(items, end) => Read(List(items), end)
    case Bad => Bad
    case Crash => Crash
  }

  function AsDict(r: Decoded<map<bytes, Value>>): Decoded<Value> {
    match r
    case Read(m, end) => Read(Dict(m), end)
    case Bad => Bad
    case Crash => Crash
  }

  function DecodeAny(buf: bytes, pos: nat): (r: Decoded<Value>)
    ensures r.Read? ==> pos < r.end <= 2 * |buf| - pos
    decreases |buf| - pos, 0
  {
    if pos >= |buf| then Bad
    else if buf[pos] == TAG_INT then DecodeInt(buf, pos)
    else if IsDigit(buf[pos]) then DecodeBytes(buf, pos)
    else if buf[pos] == TAG_LIST then AsList(DecodeItems(buf, pos + 1))
    else if buf[pos] == TAG_DICT then AsDict(DecodeDict(buf, pos))
    else Bad
  }

  /** How far a loop entered at `i` can leave its offset. */
  predicate LoopEnd(len: nat, i: nat, end: nat) {
    i < end && end <= if i <= len then 2 * len - i + 1 else i + 1
  }

  predicate AtEnd(buf: bytes, i: nat) {
    i >= |buf| || buf[i] == END
  }

  function DecodeItems(buf: bytes, i: nat): (r: Decoded<seq<Value>>)
    ensures r.Read? ==> LoopEnd(|buf|, i, r.end)
    decreases |buf| - i, 1
  {
    if AtEnd(buf, i) then Read([], i + 1)
    else
      match DecodeAny(buf, i)
      case Read(item, next) => Prepend([item], DecodeItems(buf, next))
      case Bad => Bad
      case Crash => Crash
  }

  function DecodeDict(buf: bytes, pos: nat): (r: Decoded<map<bytes, Value>>)
    ensures r.Read? ==> LoopEnd(|buf|, pos + 1, r.end)
    decreases |buf| - pos - 1, 2
  {
    DecodeEntries(buf, pos + 1, None, map[])
  }

  /** Items take turns as key and as value of the key before. */
  function NextKey(key: Option<bytes>, item: Value): Option<bytes> {
    if key.None? && item.Bytes? then Some(item.b) else None
  }

  function NextMap(key: Option<bytes>, item: Value, m: map<bytes, Value>): map<bytes, Value> {
    if key.Some? then m[key.value := item] else m
  }

  /** The dictionary loop at `i`; `key` is the key that still waits for its value. */
  function DecodeEntries(buf: bytes, i: nat, key: Option<bytes>, m: map<bytes, Value>)
    : (r: Decoded<map<bytes, Value>>)
    ensures r.Read? ==> LoopEnd(|buf|, i, r.end)
    decreases |buf| - i, 1
  {
    if AtEnd(buf, i) then Read(m, i + 1)
    else
      match DecodeAny(buf, i)
      case Read(item, next) =>
        if key.None? && !item.Bytes? then Crash
        else DecodeEntries(buf, next, NextKey(key, item), NextMap(key, item, m))
      case Bad => Bad
      case Crash => Crash
  }

  // ---------- The loops of the source, against the functions above ----------

  method RunDecodeBytes(buf: bytes, pos: nat) returns (r: Decoded<Value>)
    requires pos <= |buf|
    ensures r == DecodeBytes(buf, pos)
  {
    var i := pos;
    while i < |buf| && buf[i] != COLON
      invariant pos <= i <= |buf|
      invariant ScanTo(buf, pos, COLON) == ScanTo(buf, i, COLON)
    {
      i := i + 1;
    }
    var length := Atoi(buf[pos..i]);
    if length.None? {
      return Bad;
    }
    var l := length.value;
    if l >= |buf| {
      return Bad;
    }
    if i + l + 1 > |buf| {
      return Bad;
    }
    if l < 0 {
      return Crash;
    }
    return Read(Bytes(buf[i + 1..i + l + 1]), i + l + 1);
  }

  method RunDecodeInt(buf: bytes, pos: nat) returns (r: Decoded<Value>)
    requires pos < |buf|
    ensures r == DecodeInt(buf, pos)
  {
    var begin := pos + 1;
    var i := begin;
    while i < |buf| && buf[i] != END
      invariant begin <= i <= |buf|
      invariant ScanTo(buf, begin, END) == ScanTo(buf, i, END)
    {
      i := i + 1;
    }
    var n := Atoi(buf[begin..i]);
    if n.None? {
      return Bad;
    }
    return Read(Int(n.value), i + 1);
  }

  method RunDecodeAny(buf: bytes, pos: nat) returns (r: Decoded<Value>)
    ensures r == DecodeAny(buf, pos)
    decreases |buf| - pos, 0
  {
    if pos >= |buf| {
      return Bad;
    }
    if buf[pos] == TAG_INT {
      r := RunDecodeInt(buf, pos);
    } else if IsDigit(buf[pos]) {
      r := RunDecodeBytes(buf, pos);
    } else if buf[pos] == TAG_LIST {
      var items := RunDecodeList(buf, pos);
      r := AsList(items);
    } else if buf[pos] == TAG_DICT {
      var m := RunDecodeDict(buf, pos);
      r := AsDict(m);
    } else {
      r := Bad;
    }
  }

  method RunDecodeList(buf: bytes, pos: nat) returns (r: Decoded<seq<Value>>)
    ensures r == DecodeItems(buf, pos + 1)
    decreases |buf| - pos - 1, 2
  {
    var ret: seq<Value> := [];
    var i := pos + 1;
    ghost var whole := DecodeItems(buf, i);
    PrependNothing(whole);
    while i < |buf| && buf[i] != END
      invariant pos < i
      invariant whole == Prepend(ret, DecodeItems(buf, i))
      decreases |buf| - i
    {
      var item := RunDecodeAny(buf, i);
      if !item.Read? {
        return if item.Bad? then Bad else Crash;
      }
      PrependTwice(ret, [item.value], DecodeItems(buf, item.end));
      ret := ret + [item.value];
      i := item.end;
    }
    assert ret + [] == ret;
    return Read(ret, i + 1);
  }

  method RunDecodeDict(buf: bytes, pos: nat) returns (r: Decoded<map<bytes, Value>>)
    ensures r == DecodeDict(buf, pos)
    decreases |buf| - pos - 1, 2
  {
    var ret: map<bytes, Value> := map[];
    var i := pos + 1;
    var isKey := true;
    var key: bytes := [];
    while i < |buf| && buf[i] != END
      invariant pos < i
      invariant DecodeDict(buf, pos) == DecodeEntries(buf, i, if isKey then None else Some(key), ret)
      decreases |buf| - i
    {
      var item := RunDecodeAny(buf, i);
      if !item.Read? {
        return if item.Bad? then Bad else Crash;
      }
      if isKey {
        if !item.value.Bytes? {
          return Crash;
        }
        key := item.value.b;
        isKey := false;
      } else {
        ret := ret[key := item.value];
        isKey := true;
      }
      i := item.end;
    }
    return Read(ret, i + 1);
  }

  /** `BDecode`: the value alone, whatever follows it. */
  method BDecode(buf: bytes) returns (r: Outcome<Value>)
    ensures r == match DecodeAny(buf, 0)
                 case Read(v, _) => Ok(v)
                 case Bad => Err
                 case Crash => Panic
  {
    var item := RunDecodeAny(buf, 0);
    match item {
      case Read(v, _) => r := Ok(v);
      case Bad => r := Err;
      case Crash => r := Panic;
    }
  }

  /** `BDecodeDict`: never looks at the first byte. */
  method BDecodeDict(buf: bytes) returns (r: Decoded<map<bytes, Value>>)
    ensures r == DecodeDict(buf, 0)
  {
    r := RunDecodeDict(buf, 0);
  }
}
