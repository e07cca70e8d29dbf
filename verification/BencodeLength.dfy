/**
 How long the encoding of a small dictionary can get.
 */
module BencodeLength {
  import opened Base
  import opened BencodeValue
  import opened BencodeEncode
  import opened ByteOrder
  import opened Decimal

  lemma {:induction false} NatTextLength(n: nat)
    ensures |NatText(n)| <= n + 1
  {
    if n >= 10 {
      NatTextLength(n / 10);
    }
  }

  lemma {:induction false} NatTextDigits(n: nat, d: nat)
    requires d > 0 && n < Pow10(d)
    ensures |NatText(n)| <= d
  {
    if n >= 10 {
      NatTextDigits(n / 10, d - 1);
    }
  }

  lemma Pow10Of19()
    ensures Pow10(19) == 10_000_000_000_000_000_000
  {
    assert Pow10(4) == 10_000;
    assert Pow10(8) == 10 * (10 * (10 * (10 * Pow10(4))));
    assert Pow10(12) == 10 * (10 * (10 * (10 * Pow10(8))));
    assert Pow10(16) == 10 * (10 * (10 * (10 * Pow10(12))));
    assert Pow10(19) == 10 * (10 * (10 * Pow10(16)));
  }

  /** A sign, nineteen digits and two tags. */
  lemma IntLength(n: int64)
    ensures |Encode(Int(n))| <= 22
  {
    var magnitude: int := n;
    if n < 0 {
      magnitude := -magnitude;
    }
    Pow10Of19();
    NatTextDigits(magnitude, 19);
  }

  lemma KeyLength(k: bytes)
    ensures |EncodeBytes(k)| <= 2 * |k| + 2
  {
    NatTextLength(|k|);
  }

  lemma {:induction false} EntriesLength(v: Value, keys: seq<bytes>, bound: nat)
    requires v.Dict? && forall i :: 0 <= i < |keys| ==> keys[i] in v.entries
    requires forall k :: k in v.entries ==> |k| <= 20 && |Encode(v.entries[k])| <= bound
    ensures |EncodeEntries(v, keys)| <= |keys| * (42 + bound)
    decreases |keys|
  {
    hide Encode, EncodeBytes;
    if keys != [] {
      KeyLength(keys[0]);
      EntriesLength(v, keys[1..], bound);
      assert |keys| * (42 + bound) == (|keys| - 1) * (42 + bound) + (42 + bound);
    }
  }

  lemma {:induction false} ListingLength(keys: seq<bytes>)
    requires Ascending(keys)
    ensures |Elements(keys)| == |keys|
  {
    if keys != [] {
      TailElements(keys);
      ListingLength(keys[1..]);
      assert keys[0] in Elements(keys);
    }
  }

  lemma DictLength(v: Value, bound: nat)
    requires v.Dict? && |v.entries| <= 2
    requires forall k :: k in v.entries ==> |k| <= 20 && |Encode(v.entries[k])| <= bound
    ensures |Encode(v)| <= 2 * (42 + bound) + 2
  {
    hide Encode, EncodeEntries, EncodeBytes, SortedKeys, Ascending, Elements;
    var keys := SortedKeys(v.entries.Keys);
    ListingLength(keys);
    ListedInDict(v, keys);
    EntriesLength(v, keys, bound);
    DictTextLength(v, keys);
    AtMostTwice(|keys|, 42 + bound);
  }

  lemma ListedInDict(v: Value, keys: seq<bytes>)
    requires v.Dict? && Elements(keys) == v.entries.Keys
    ensures forall i :: 0 <= i < |keys| ==> keys[i] in v.entries
  {
    forall i | 0 <= i < |keys|
      ensures keys[i] in v.entries
    {
      assert keys[i] in Elements(keys);
    }
  }

  lemma AtMostTwice(n: nat, each: nat)
    requires n <= 2
    ensures n * each <= 2 * each
  {
  }

  lemma DictTextLength(v: Value, keys: seq<bytes>)
    requires v.Dict? && keys == SortedKeys(v.entries.Keys) && forall i :: 0 <= i < |keys| ==> keys[i] in v.entries
    ensures |Encode(v)| == |EncodeEntries(v, keys)| + 2
  {
    hide EncodeEntries, SortedKeys;
  }
}
