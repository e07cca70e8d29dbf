/**
 What the codec promises: decoding undoes encoding wherever the text stands, decoding
 looks at nothing but the text it consumes, and the encoding is canonical.

 A length bound of `MAX_INT` says that a buffer is a Go slice, whose length is an `int`.
 */
module BencodeLaws {
  import opened Base
  import opened BencodeValue
  import opened ByteOrder
  import opened Decimal
  import opened BencodeEncode
  import opened BencodeDecode
  import opened BencodeParse

  // ---------- Scalars ----------

  lemma ScanFinds(text: bytes, c: byte, rest: bytes, from: nat)
    requires from <= |text| && c !in text
    ensures ScanTo(text + [c] + rest, from, c) == |text|
  {
    var s := text + [c] + rest;
    assert s[|text|] == c;
    assert forall j :: 0 <= j < |text| ==> s[j] == text[j];
  }

  lemma BytesRoundTrip(b: bytes, rest: bytes)
    requires |b| <= MAX_INT
    ensures DecodeBytes(EncodeBytes(b) + rest, 0) == Read(Bytes(b), |EncodeBytes(b)|)
    ensures Parse(EncodeBytes(b) + rest) == Read(Bytes(b), |EncodeBytes(b)|)
  {
    var digits := Itoa(|b|);
    var s := EncodeBytes(b) + rest;
    assert s == digits + [COLON] + (b + rest);
    ScanFinds(digits, COLON, b + rest, 0);
    assert s[0..|digits|] == digits;
    assert s[|digits| + 1..|digits| + |b| + 1] == b;
    AtoiItoa(|b|);
    assert s[0] == digits[0];
  }

  lemma IntRoundTrip(n: int64, rest: bytes)
    ensures Parse(Encode(Int(n)) + rest) == Read(Int(n), |Encode(Int(n))|)
  {
    var digits := Itoa(n);
    var s := Encode(Int(n)) + rest;
    assert s == [TAG_INT] + digits + [END] + rest;
    ScanFinds([TAG_INT] + digits, END, rest, 1);
    assert s[1..1 + |digits|] == digits;
    AtoiItoa(n);
  }

  // ---------- Round trip ----------

  function NormalItems(items: seq<Value>): seq<Value> {
    seq(|items|, i requires 0 <= i < |items| => Normal(items[i]))
  }

  /** The normalised entries of dictionary `v` under `keys`. */
  ghost function Picked(v: Value, keys: seq<bytes>): map<bytes, Value>
    requires v.Dict? && forall i :: 0 <= i < |keys| ==> keys[i] in v.entries
  {
    map k | k in keys :: Normal(v.entries[k])
  }

  /** Every encoding begins with a byte that no loop takes for its end. */
  lemma EncodingStarts(v: Value, rest: bytes)
    requires Encodable(v)
    ensures !Stops(Encode(v) + rest)
  {
    var e := Encode(v);
    assert e != [] && e[0] != END;
    assert (e + rest)[0] == e[0];
  }

  /** Parsing the encoding of `v` gives `v` and leaves exactly what follows it. */
  lemma {:induction false} ParseRoundTrip(v: Value, rest: bytes)
    requires Encodable(v) && |Encode(v)| <= MAX_INT
    ensures Parse(Encode(v) + rest) == Read(Normal(v), |Encode(v)|)
    decreases v, 1, 0
  {
    match v {
      case Int(n) =>
        IntRoundTrip(n, rest);
      case Str(s) =>
        BytesRoundTrip(s, rest);
      case Bytes(b) =>
        BytesRoundTrip(b, rest);
      case List(items) =>
        var s := Encode(v) + rest;
        assert s[1..] == EncodeItems(items) + ([END] + rest);
        ItemsRoundTrip(items, rest);
      case Dict(m) =>
        DictParseRoundTrip(v, rest);
    }
  }

  lemma PickedAll(v: Value, keys: seq<bytes>)
    requires v.Dict? && Elements(keys) == v.entries.Keys
    ensures forall i :: 0 <= i < |keys| ==> keys[i] in v.entries
    ensures map[] + Picked(v, keys) == Normal(v).entries
  {
    assert forall k :: k in keys <==> k in Elements(keys);
  }

  lemma {:induction false} DictParseRoundTrip(v: Value, rest: bytes)
    requires v.Dict? && Encodable(v) && |Encode(v)| <= MAX_INT
    ensures Parse(Encode(v) + rest) == Read(Normal(v), |Encode(v)|)
    decreases v, 0, |SortedKeys(v.entries.Keys)| + 1
  {
    var keys := SortedKeys(v.entries.Keys);
    PickedAll(v, keys);
    EntriesRoundTrip(v, keys, map[], rest);
    DictText(EncodeEntries(v, keys), rest);
  }

  lemma DictText(entries: bytes, rest: bytes)
    ensures Parse([TAG_DICT] + entries + [END] + rest)
         == Shift(AsDict(ParseEntries(entries + ([END] + rest), None, map[])), 1)
  {
    var s := [TAG_DICT] + entries + [END] + rest;
    assert s[1..] == entries + ([END] + rest);
  }

  lemma {:induction false} ItemsRoundTrip(items: seq<Value>, rest: bytes)
    requires |EncodeItems(items)| <= MAX_INT
    requires forall k :: 0 <= k < |items| ==> Encodable(items[k])
    ensures ParseItems(EncodeItems(items) + ([END] + rest)) == Read(NormalItems(items), |EncodeItems(items)| + 1)
    decreases items, 0, 0
  {
    hide Parse, Encode;
    var s := EncodeItems(items) + ([END] + rest);
    if items == [] {
      assert s[0] == END;
    } else {
      var head, tail := Encode(items[0]), EncodeItems(items[1..]) + ([END] + rest);
      assert s == head + tail;
      EncodingStarts(items[0], tail);
      ParseRoundTrip(items[0], tail);
      assert Rest(s, |head|) == tail;
      ItemsRoundTrip(items[1..], rest);
      assert NormalItems(items) == [Normal(items[0])] + NormalItems(items[1..]);
    }
  }

  lemma EntriesStep(key: bytes, k: bytes, value: bytes, item: Value, tail: bytes, m: map<bytes, Value>)
    requires !Stops(key + (value + tail)) && Parse(key + (value + tail)) == Read(Bytes(k), |key|)
    requires !Stops(value + tail) && Parse(value + tail) == Read(item, |value|)
    ensures ParseEntries(key + (value + tail), None, m)
         == Shift(Shift(ParseEntries(tail, None, m[k := item]), |value|), |key|)
  {
    hide Parse;
    assert Rest(key + (value + tail), |key|) == value + tail;
    assert Rest(value + tail, |value|) == tail;
  }

  lemma PickedStep(v: Value, keys: seq<bytes>, m: map<bytes, Value>)
    requires v.Dict? && keys != [] && forall i :: 0 <= i < |keys| ==> keys[i] in v.entries
    ensures m[keys[0] := Normal(v.entries[keys[0]])] + Picked(v, keys[1..]) == m + Picked(v, keys)
  {
    assert keys == [keys[0]] + keys[1..];
  }

  lemma {:induction false} EntriesRoundTrip(v: Value, keys: seq<bytes>, m: map<bytes, Value>, rest: bytes)
    requires v.Dict? && Encodable(v)
    requires forall j :: 0 <= j < |keys| ==> keys[j] in v.entries
    requires |EncodeEntries(v, keys)| <= MAX_INT
    ensures ParseEntries(EncodeEntries(v, keys) + ([END] + rest), None, m)
         == Read(m + Picked(v, keys), |EncodeEntries(v, keys)| + 1)
    decreases v, 0, |keys|
  {
    hide Parse, Encode, EncodeBytes;
    var s := EncodeEntries(v, keys) + ([END] + rest);
    if keys == [] {
      assert s[0] == END;
      assert m + Picked(v, keys) == m;
    } else {
      var k := keys[0];
      var key, value, tail := EncodeBytes(k), Encode(v.entries[k]), EncodeEntries(v, keys[1..]) + ([END] + rest);
      assert s == key + (value + tail);
      OneEntry(v, k, tail, m);
      EntriesRoundTrip(v, keys[1..], m[k := Normal(v.entries[k])], rest);
      PickedStep(v, keys, m);
    }
  }

  lemma {:induction false} OneEntry(v: Value, k: bytes, tail: bytes, m: map<bytes, Value>)
    requires v.Dict? && Encodable(v) && k in v.entries
    requires |EncodeBytes(k)| + |Encode(v.entries[k])| <= MAX_INT
    ensures ParseEntries(EncodeBytes(k) + (Encode(v.entries[k]) + tail), None, m)
         == Shift(Shift(ParseEntries(tail, None, m[k := Normal(v.entries[k])]), |Encode(v.entries[k])|), |EncodeBytes(k)|)
    decreases v, 0, 0
  {
    hide Parse, ParseEntries, Stops;
    var key, value, item := EncodeBytes(k), Encode(v.entries[k]), Normal(v.entries[k]);
    BytesRoundTrip(k, value + tail);
    EncodingStarts(Bytes(k), value + tail);
    ParseRoundTrip(v.entries[k], tail);
    EncodingStarts(v.entries[k], tail);
    EntriesStep(key, k, value, item, tail, m);
  }

  /** Round trip with suffix: what follows the encoding is neither read nor consumed. */
  lemma RoundTrip(v: Value, suffix: bytes)
    requires Encodable(v) && |Encode(v)| <= MAX_INT
    ensures DecodeAny(Encode(v) + suffix, 0) == Read(Normal(v), |Encode(v)|)
  {
    var s := Encode(v) + suffix;
    ParseRoundTrip(v, suffix);
    DecodeIsParse(s, 0);
    assert Rest(s, 0) == s;
  }

  /** The same for the entry point that returns the bare map. */
  lemma DictRoundTrip(v: Value, suffix: bytes)
    requires v.Dict? && Encodable(v) && |Encode(v)| <= MAX_INT
    ensures DecodeDict(Encode(v) + suffix, 0) == Read(Normal(v).entries, |Encode(v)|)
  {
    RoundTrip(v, suffix);
    assert (Encode(v) + suffix)[0] == TAG_DICT;
  }

  // ---------- Locality ----------

  lemma ScanStays(s: bytes, from: nat, c: byte, end: nat, t: bytes)
    requires from < end <= |s| && ScanTo(s, from, c) < end
    ensures ScanTo(s[..end] + t, from, c) == ScanTo(s, from, c)
  {
    var r := ScanTo(s, from, c);
    assert forall j :: 0 <= j < end ==> (s[..end] + t)[j] == s[j];
  }

  lemma IntLocal(s: bytes, t: bytes)
    requires s != [] && DecodeInt(s, 0).Read? && DecodeInt(s, 0).end <= |s|
    ensures DecodeInt(s[..DecodeInt(s, 0).end] + t, 0) == DecodeInt(s, 0)
  {
    var end := DecodeInt(s, 0).end;
    ScanStays(s, 1, END, end, t);
    assert (s[..end] + t)[1..end - 1] == s[1..end - 1];
  }

  lemma BytesLocal(s: bytes, t: bytes)
    requires s != [] && IsDigit(s[0]) && DecodeBytes(s, 0).Read?
    ensures DecodeBytes(s[..DecodeBytes(s, 0).end] + t, 0) == DecodeBytes(s, 0)
  {
    var end := DecodeBytes(s, 0).end;
    var i := ScanTo(s, 0, COLON);
    ScanStays(s, 0, COLON, end, t);
    assert (s[..end] + t)[0..i] == s[0..i];
    assert (s[..end] + t)[i + 1..end] == s[i + 1..end];
  }

  /** A text that is parsed to its end is parsed the same whatever follows that end. */
  lemma {:induction false} ParseLocal(s: bytes, t: bytes)
    requires Parse(s).Read? && Parse(s).end <= |s|
    ensures Parse(s[..Parse(s).end] + t) == Parse(s)
    decreases |s|, 0
  {
    hide DecodeInt, DecodeBytes, ParseItems, ParseEntries;
    var end := Parse(s).end;
    var s' := s[..end] + t;
    assert s'[0] == s[0];
    if s[0] == TAG_INT {
      IntLocal(s, t);
    } else if IsDigit(s[0]) {
      BytesLocal(s, t);
    } else if s[0] == TAG_LIST {
      ItemsLocal(s[1..], t);
      assert s'[1..] == s[1..][..end - 1] + t;
    } else {
      EntriesLocal(s[1..], None, map[], t);
      assert s'[1..] == s[1..][..end - 1] + t;
    }
  }

  lemma SplitText(s: bytes, used: nat, end: nat, t: bytes)
    requires used < end <= |s|
    ensures s[..end] + t == s[..used] + (s[used..][..end - used] + t)
    ensures Rest(s[..end] + t, used) == s[used..][..end - used] + t
    ensures (s[..end] + t)[0] == s[0]
  {
  }

  lemma {:induction false} ItemsLocal(s: bytes, t: bytes)
    requires ParseItems(s).Read? && ParseItems(s).end <= |s|
    ensures ParseItems(s[..ParseItems(s).end] + t) == ParseItems(s)
    decreases |s|, 1
  {
    hide Parse;
    var end := ParseItems(s).end;
    if Stops(s) {
      assert (s[..end] + t)[0] == s[0];
    } else {
      var used := Parse(s).end;
      SplitText(s, used, end, t);
      ParseLocal(s, s[used..][..end - used] + t);
      ItemsLocal(s[used..], t);
    }
  }

  lemma {:induction false} EntriesLocal(s: bytes, key: Option<bytes>, m: map<bytes, Value>, t: bytes)
    requires ParseEntries(s, key, m).Read? && ParseEntries(s, key, m).end <= |s|
    ensures ParseEntries(s[..ParseEntries(s, key, m).end] + t, key, m) == ParseEntries(s, key, m)
    decreases |s|, 1
  {
    hide Parse;
    var end := ParseEntries(s, key, m).end;
    if Stops(s) {
      assert (s[..end] + t)[0] == s[0];
    } else {
      var item, used := Parse(s).value, Parse(s).end;
      SplitText(s, used, end, t);
      ParseLocal(s, s[used..][..end - used] + t);
      EntriesLocal(s[used..], NextKey(key, item), NextMap(key, item, m), t);
    }
  }

  /**
   Whenever decoding ends inside the buffer, the value and the consumed length depend on the
   consumed bytes alone: any buffer with those bytes at any place decodes there to the same.
   */
  lemma DecodeLocal(buf: bytes, pos: nat, prefix: bytes, suffix: bytes)
    requires DecodeAny(buf, pos).Read? && DecodeAny(buf, pos).end <= |buf|
    ensures DecodeAny(prefix + buf[pos..DecodeAny(buf, pos).end] + suffix, |prefix|)
         == Read(DecodeAny(buf, pos).value, |prefix| + (DecodeAny(buf, pos).end - pos))
  {
    hide DecodeAny, Parse;
    var end, s := DecodeAny(buf, pos).end, buf[pos..];
    DecodeIsParse(buf, pos);
    ParseLocal(s, suffix);
    var other := prefix + buf[pos..end] + suffix;
    DecodeIsParse(other, |prefix|);
    assert Rest(other, |prefix|) == s[..end - pos] + suffix;
    assert Parse(s) == Read(DecodeAny(buf, pos).value, end - pos);
  }
}
