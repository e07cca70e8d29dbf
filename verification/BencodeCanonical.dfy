/**
 The encoding is canonical: it lists dictionary keys in strictly ascending order, tells
 values apart up to the string/bytes distinction, and no encoding is a proper prefix of
 another.
 */
module BencodeCanonical {
  import opened Base
  import opened BencodeValue
  import opened ByteOrder
  import opened BencodeEncode
  import opened BencodeDecode
  import opened BencodeParse
  import opened BencodeLaws

  /** Two values with the same encoding are equal up to string/bytes. */
  lemma EncodeInjective(v: Value, w: Value)
    requires Encodable(v) && Encodable(w) && |Encode(v)| <= MAX_INT
    requires Encode(v) == Encode(w)
    ensures Normal(v) == Normal(w)
  {
    ParseRoundTrip(v, []);
    ParseRoundTrip(w, []);
  }

  /** No encoding is a proper prefix of another. */
  lemma PrefixFree(v: Value, w: Value, rest: bytes)
    requires Encodable(v) && Encodable(w) && |Encode(w)| <= MAX_INT
    requires Encode(w) == Encode(v) + rest
    ensures rest == []
  {
    ParseRoundTrip(v, rest);
    ParseRoundTrip(w, []);
    assert Encode(w) + [] == Encode(w);
  }

  lemma {:induction false} EncodeNormal(v: Value)
    ensures Encode(Normal(v)) == Encode(v)
    ensures Encodable(Normal(v)) <==> Encodable(v)
    decreases v, 1, 0
  {
    match v {
      case List(items) =>
        EncodeNormalItems(items);
        var n := Normal(v).items;
        forall i | 0 <= i < |items|
          ensures Encodable(n[i]) <==> Encodable(items[i])
        {
          EncodeNormal(items[i]);
        }
      case Dict(m) =>
        var n := Normal(v).entries;
        assert n.Keys == m.Keys;
        var keys := SortedKeys(m.Keys);
        PickedAll(v, keys);
        EncodeNormalEntries(v, keys);
        forall k | k in m
          ensures Encodable(n[k]) <==> Encodable(m[k])
        {
          EncodeNormal(m[k]);
        }
      case _ =>
    }
  }

  lemma {:induction false} EncodeNormalItems(items: seq<Value>)
    ensures EncodeItems(NormalItems(items)) == EncodeItems(items)
    decreases items, 0, 0
  {
    hide Encode, Normal;
    if items != [] {
      EncodeNormal(items[0]);
      EncodeNormalItems(items[1..]);
      assert NormalItems(items)[1..] == NormalItems(items[1..]);
    }
  }

  lemma {:induction false} EncodeNormalEntries(v: Value, keys: seq<bytes>)
    requires v.Dict? && forall i :: 0 <= i < |keys| ==> keys[i] in v.entries
    ensures EncodeEntries(Normal(v), keys) == EncodeEntries(v, keys)
    decreases v, 0, |keys|
  {
    if keys != [] {
      EncodeNormal(v.entries[keys[0]]);
      EncodeNormalEntries(v, keys[1..]);
    }
  }

  /** Encoding what was decoded from an encoding gives the same bytes. */
  lemma ReEncode(v: Value, suffix: bytes)
    requires Encodable(v) && |Encode(v)| <= MAX_INT
    ensures DecodeAny(Encode(v) + suffix, 0).Read?
    ensures Encode(DecodeAny(Encode(v) + suffix, 0).value) == Encode(v)
  {
    RoundTrip(v, suffix);
    EncodeNormal(v);
  }

  // ---------- Decoded values are in normal form ----------

  ghost predicate InNormalForm(v: Value) {
    Encodable(v) && Normal(v) == v
  }

  lemma {:induction false} ParsedIsNormal(s: bytes)
    ensures Parse(s).Read? ==> InNormalForm(Parse(s).value)
    decreases |s|, 0
  {
    if s != [] && s[0] == TAG_LIST {
      ParsedItemsNormal(s[1..]);
    } else if s != [] && s[0] == TAG_DICT {
      ParsedEntriesNormal(s[1..], None, map[]);
    }
  }

  lemma {:induction false} ParsedItemsNormal(s: bytes)
    ensures ParseItems(s).Read? ==> InNormalForm(List(ParseItems(s).value))
    decreases |s|, 1
  {
    if !Stops(s) && Parse(s).Read? {
      ParsedIsNormal(s);
      ParsedItemsNormal(Rest(s, Parse(s).end));
    }
  }

  lemma {:induction false} ParsedEntriesNormal(s: bytes, key: Option<bytes>, m: map<bytes, Value>)
    requires InNormalForm(Dict(m))
    ensures ParseEntries(s, key, m).Read? ==> InNormalForm(Dict(ParseEntries(s, key, m).value))
    decreases |s|, 1
  {
    if !Stops(s) && Parse(s).Read? {
      ParsedIsNormal(s);
      var item := Parse(s).value;
      InsertNormal(key, item, m);
      ParsedEntriesNormal(Rest(s, Parse(s).end), NextKey(key, item), NextMap(key, item, m));
    }
  }

  lemma InsertNormal(key: Option<bytes>, item: Value, m: map<bytes, Value>)
    requires InNormalForm(Dict(m)) && InNormalForm(item)
    ensures InNormalForm(Dict(NextMap(key, item, m)))
  {
    var m' := NextMap(key, item, m);
    assert forall k :: k in m ==> Normal(m[k]) == Normal(Dict(m)).entries[k];
    assert Normal(Dict(m')).entries == m';
  }

  /** Whatever bytes a value was decoded from, its encoding decodes to that very value. */
  lemma DecodeEncodeDecode(buf: bytes, pos: nat, suffix: bytes)
    requires DecodeAny(buf, pos).Read? && |Encode(DecodeAny(buf, pos).value)| <= MAX_INT
    ensures var v := DecodeAny(buf, pos).value; DecodeAny(Encode(v) + suffix, 0) == Read(v, |Encode(v)|)
  {
    DecodeIsParse(buf, pos);
    ParsedIsNormal(Rest(buf, pos));
    RoundTrip(DecodeAny(buf, pos).value, suffix);
  }

  // ---------- Key order ----------

  /** The keys of a dictionary text, in the order in which the decoder meets them. */
  function ListedKeys(s: bytes): seq<bytes>
    decreases |s|
  {
    if Stops(s) then []
    else
      match Parse(s)
      case Read(Bytes(k), used) =>
        var s' := Rest(s, used);
        if Stops(s') then [k]
        else
          (match Parse(s')
           case Read(_, used') => [k] + ListedKeys(Rest(s', used'))
           case _ => [k])
      case _ => []
  }

  lemma ListedStep(key: bytes, k: bytes, value: bytes, item: Value, tail: bytes)
    requires !Stops(key + (value + tail)) && Parse(key + (value + tail)) == Read(Bytes(k), |key|)
    requires !Stops(value + tail) && Parse(value + tail) == Read(item, |value|)
    ensures ListedKeys(key + (value + tail)) == [k] + ListedKeys(tail)
  {
    hide Parse;
    assert Rest(key + (value + tail), |key|) == value + tail;
    assert Rest(value + tail, |value|) == tail;
  }

  lemma OneListed(v: Value, k: bytes, tail: bytes)
    requires v.Dict? && Encodable(v) && k in v.entries
    requires |EncodeBytes(k)| + |Encode(v.entries[k])| <= MAX_INT
    ensures ListedKeys(EncodeBytes(k) + (Encode(v.entries[k]) + tail)) == [k] + ListedKeys(tail)
  {
    var key, value := EncodeBytes(k), Encode(v.entries[k]);
    BytesRoundTrip(k, value + tail);
    EncodingStarts(Bytes(k), value + tail);
    ParseRoundTrip(v.entries[k], tail);
    EncodingStarts(v.entries[k], tail);
    ListedStep(key, k, value, Normal(v.entries[k]), tail);
  }

  lemma {:induction false} EntriesListed(v: Value, keys: seq<bytes>, rest: bytes)
    requires v.Dict? && Encodable(v) && forall i :: 0 <= i < |keys| ==> keys[i] in v.entries
    requires |EncodeEntries(v, keys)| <= MAX_INT
    ensures ListedKeys(EncodeEntries(v, keys) + ([END] + rest)) == keys
    decreases |keys|
  {
    hide Parse, Encode, EncodeBytes;
    var s := EncodeEntries(v, keys) + ([END] + rest);
    if keys == [] {
      assert s[0] == END;
    } else {
      var k := keys[0];
      var key, value, tail := EncodeBytes(k), Encode(v.entries[k]), EncodeEntries(v, keys[1..]) + ([END] + rest);
      assert s == key + (value + tail);
      OneListed(v, k, tail);
      EntriesListed(v, keys[1..], rest);
    }
  }

  /** The text of a dictionary lists every key exactly once, each before the next in the byte-wise order. */
  lemma KeysAscend(v: Value, rest: bytes)
    requires v.Dict? && Encodable(v) && |Encode(v)| <= MAX_INT
    ensures ListedKeys((Encode(v) + rest)[1..]) == SortedKeys(v.entries.Keys)
    ensures var keys := ListedKeys((Encode(v) + rest)[1..]);
      forall i, j :: 0 <= i < j < |keys| ==> Before(keys[i], keys[j])
    ensures Elements(ListedKeys((Encode(v) + rest)[1..])) == v.entries.Keys
  {
    var keys := SortedKeys(v.entries.Keys);
    PickedAll(v, keys);
    EntriesListed(v, keys, rest);
    AscendingMeansBefore(keys);
    DictTail(EncodeEntries(v, keys), rest);
  }

  lemma DictTail(entries: bytes, rest: bytes)
    ensures ([TAG_DICT] + entries + [END] + rest)[1..] == entries + ([END] + rest)
  {
  }
}
