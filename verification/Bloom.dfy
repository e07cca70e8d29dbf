/**
 The Bloom filter of common/util/bloom.go over an abstract 64-bit hash and an abstract
 serialisation of the bitmap.
 */
module Bloom {
  import opened Base

  type Hash = bytes -> nat

  const TWO_64 := 0x1_0000_0000_0000_0000

  /** `m` bits, `n` additions, `k` locations per element. */
  datatype Filter = Filter(m: nat, n: nat, k: byte, keys: set<nat>)

  function Location(hash: Hash, m: nat, data: bytes, i: byte): nat
    requires m > 0
  {
    hash(data + [i]) % m
  }

  function Locations(hash: Hash, f: Filter, data: bytes): (r: seq<nat>)
    requires f.m > 0
    ensures |r| == f.k
    ensures forall i :: 0 <= i < f.k ==> r[i] == Location(hash, f.m, data, i)
  {
    seq(f.k, i requires 0 <= i < f.k => Location(hash, f.m, data, i))
  }

  predicate MayContain(hash: Hash, f: Filter, data: bytes)
    requires f.m > 0
  {
    forall i :: 0 <= i < f.k ==> Locations(hash, f, data)[i] in f.keys
  }

  function Added(hash: Hash, f: Filter, data: bytes): (r: Filter)
    requires f.m > 0
    ensures r.m == f.m && r.k == f.k && r.n == (f.n + 1) % TWO_64
    ensures f.keys <= r.keys
  {
    f.(keys := f.keys + (set i | 0 <= i < f.k :: Locations(hash, f, data)[i]), n := (f.n + 1) % TWO_64)
  }

  /** No false negatives: an addition is found, and no addition hides an earlier one. */
  lemma AddedIsFound(hash: Hash, f: Filter, data: bytes, other: bytes)
    requires f.m > 0
    ensures MayContain(hash, Added(hash, f, data), data)
    ensures MayContain(hash, f, other) ==> MayContain(hash, Added(hash, f, data), other)
  {
    var f' := Added(hash, f, data);
    forall i | 0 <= i < f.k
      ensures Locations(hash, f', data)[i] in f'.keys
    {
      assert Locations(hash, f', data)[i] == Locations(hash, f, data)[i];
    }
    if MayContain(hash, f, other) {
      forall i | 0 <= i < f.k
        ensures Locations(hash, f', other)[i] in f'.keys
      {
        assert Locations(hash, f', other)[i] == Locations(hash, f, other)[i];
      }
    }
  }

  function AddedAll(hash: Hash, f: Filter, items: seq<bytes>): (r: Filter)
    requires f.m > 0
    ensures r.m == f.m && r.k == f.k
  {
    if items == [] then f else Added(hash, AddedAll(hash, f, items[..|items| - 1]), items[|items| - 1])
  }

  /** The two elements meet: location `i` of the one is location `j` of the other. */
  predicate Meets(hash: Hash, bits: nat, x: bytes, i: byte, y: bytes, j: byte)
    requires bits > 0
  {
    hash(x + [i]) % bits == hash(y + [j]) % bits
  }

  ghost predicate MeetsSome(hash: Hash, bits: nat, x: bytes, i: byte, y: bytes, k: byte)
    requires bits > 0
  {
    exists j: byte :: j < k && Meets(hash, bits, x, i, y, j)
  }

  ghost predicate Covered(hash: Hash, bits: nat, items: seq<bytes>, x: bytes, i: byte)
    requires bits > 0
  {
    exists n :: 0 <= n < |items| && MeetsSome(hash, bits, x, i, items[n], 7)
  }

  lemma LocationKnown(hash: Hash, f: Filter, data: bytes, x: bytes, i: byte)
    requires f.m > 0
    ensures hash(x + [i]) % f.m in Added(hash, f, data).keys <==>
      hash(x + [i]) % f.m in f.keys || MeetsSome(hash, f.m, x, i, data, f.k)
  {
    var locations, at := Locations(hash, f, data), hash(x + [i]) % f.m;
    forall j: byte | j < f.k
      ensures locations[j] == hash(data + [j]) % f.m && locations[j] in Added(hash, f, data).keys
    {
      assert locations[j] == Location(hash, f.m, data, j);
    }
    if at in Added(hash, f, data).keys && at !in f.keys {
      var n :| 0 <= n < f.k && locations[n] == at;
      var j: byte := n;
      assert Meets(hash, f.m, x, i, data, j);
    }
  }

  lemma OneMoreCovers(hash: Hash, bits: nat, items: seq<bytes>, x: bytes, i: byte)
    requires bits > 0 && items != []
    ensures Covered(hash, bits, items, x, i) <==>
      || Covered(hash, bits, items[..|items| - 1], x, i)
      || MeetsSome(hash, bits, x, i, items[|items| - 1], 7)
  {
    var last := |items| - 1;
    var before := items[..last];
    if Covered(hash, bits, before, x, i) {
      var n :| 0 <= n < |before| && MeetsSome(hash, bits, x, i, before[n], 7);
      assert MeetsSome(hash, bits, x, i, items[n], 7);
    }
    if Covered(hash, bits, items, x, i) {
      var n :| 0 <= n < |items| && MeetsSome(hash, bits, x, i, items[n], 7);
      if n < last {
        assert MeetsSome(hash, bits, x, i, before[n], 7);
      }
    }
  }

  lemma {:induction false} KeysExactly(hash: Hash, bits: nat, items: seq<bytes>, x: bytes, i: byte)
    requires bits > 0
    ensures hash(x + [i]) % bits in AddedAll(hash, Filter(bits, 0, 7, {}), items).keys <==> Covered(hash, bits, items, x, i)
    decreases |items|
  {
    hide MeetsSome, Added;
    if items != [] {
      hide Covered;
      var last := |items| - 1;
      KeysExactly(hash, bits, items[..last], x, i);
      LocationKnown(hash, AddedAll(hash, Filter(bits, 0, 7, {}), items[..last]), items[last], x, i);
      OneMoreCovers(hash, bits, items, x, i);
    }
  }

  /**
   After any additions to a new filter an element is found if and only if each of its seven hashes
   meets one of the seven hashes of something added.
   */
  lemma FoundExactly(hash: Hash, bits: nat, items: seq<bytes>, x: bytes)
    requires bits > 0
    ensures MayContain(hash, AddedAll(hash, Filter(bits, 0, 7, {}), items), x) <==>
      forall i: byte :: i < 7 ==> Covered(hash, bits, items, x, i)
  {
    hide Covered, AddedAll;
    var f := AddedAll(hash, Filter(bits, 0, 7, {}), items);
    forall i: byte | i < 7
      ensures Locations(hash, f, x)[i] in f.keys <==> Covered(hash, bits, items, x, i)
    {
      KeysExactly(hash, bits, items, x, i);
    }
  }

  // ---------- Saving and loading ----------

  datatype Codec = Codec(write: set<nat> -> bytes, read: bytes -> Option<set<nat>>)

  ghost predicate Inverse(c: Codec) {
    forall keys :: c.read(c.write(keys)) == Some(keys)
  }

  function Saved(c: Codec, f: Filter): bytes {
    ToBigEndian(f.m, 8) + ToBigEndian(f.n, 8) + [f.k] + c.write(f.keys)
  }

  function Loaded(c: Codec, file: bytes): Option<Filter> {
    if |file| < 17 then None
    else
      match c.read(file[17..])
      case None => None
      case Some(keys) => Some(Filter(FromBigEndian(file[..8]), FromBigEndian(file[8..16]), file[16], keys))
  }

  predicate Fits(f: Filter) {
    f.m < TWO_64 && f.n < TWO_64
  }

  /** What was saved is what is loaded. */
  lemma LoadSaved(c: Codec, f: Filter)
    requires Inverse(c) && Fits(f)
    ensures Loaded(c, Saved(c, f)) == Some(f)
  {
    var file := Saved(c, f);
    Pow256Of8();
    BigEndianRoundTrip(f.m, 8);
    BigEndianRoundTrip(f.n, 8);
    assert file[..8] == ToBigEndian(f.m, 8);
    assert file[8..16] == ToBigEndian(f.n, 8);
    assert file[16] == f.k;
    assert file[17..] == c.write(f.keys);
  }

  /** The layout of the file: bits and additions in eight bytes each, one byte of locations, the bitmap. */
  lemma SavedLayout(c: Codec, f: Filter)
    requires Fits(f)
    ensures var file := Saved(c, f);
      && |file| >= 17 && FromBigEndian(file[..8]) == f.m && FromBigEndian(file[8..16]) == f.n
      && file[16] == f.k && file[17..] == c.write(f.keys)
  {
    var file := Saved(c, f);
    Pow256Of8();
    BigEndianRoundTrip(f.m, 8);
    BigEndianRoundTrip(f.n, 8);
    assert file[..8] == ToBigEndian(f.m, 8) && file[8..16] == ToBigEndian(f.n, 8);
  }

  /** Whatever file a filter is loaded from, its header fits the fields. */
  lemma LoadedFits(c: Codec, file: bytes)
    requires Loaded(c, file).Some?
    ensures Fits(Loaded(c, file).value)
  {
    Pow256Of8();
    FromBigEndianBound(file[..8]);
    FromBigEndianBound(file[8..16]);
  }

  /** An empty filter with locations to look at contains nothing. */
  lemma EmptyContainsNothing(hash: Hash, f: Filter, data: bytes)
    requires f.m > 0 && f.k > 0 && f.keys == {}
    ensures !MayContain(hash, f, data)
  {
    assert Locations(hash, f, data)[0] !in f.keys;
  }

  lemma Pow256Of8()
    ensures Pow256(8) == TWO_64
  {
    assert Pow256(4) == 0x1_0000_0000;
    assert Pow256(8) == 256 * (256 * (256 * (256 * Pow256(4))));
  }

  // ---------- The code ----------

  class BloomFilter {
    var m: nat
    var n: nat
    var k: byte
    var keys: set<nat>

    function View(): Filter
      reads this
    {
      Filter(m, n, k, keys)
    }

    constructor (bits: nat)
      ensures View() == Filter(bits, 0, 7, {})
    {
      m, n, k, keys := bits, 0, 7, {};
    }

    /** Panics on the division if the filter has no bits at all. */
    method GetLocations(hash: Hash, data: bytes) returns (r: Outcome<seq<nat>>)
      ensures r.Ok? <==> m > 0 || k == 0
      ensures !r.Ok? ==> r.Panic?
      ensures r.Ok? && m > 0 ==> r.value == Locations(hash, View(), data)
      ensures r.Ok? ==> |r.value| == k
      ensures r.Ok? && m > 0 ==> forall i: byte :: i < k ==> r.value[i] == hash(data + [i]) % m
    {
      var locations: seq<nat> := [];
      for i := 0 to k
        invariant |locations| == i
        invariant m > 0 || i == 0
        invariant m > 0 ==> forall j :: 0 <= j < i ==> locations[j] == Location(hash, m, data, j)
      {
        if m == 0 {
          return Panic;
        }
        locations := locations + [Location(hash, m, data, i)];
      }
      return Ok(locations);
    }

    method Add(hash: Hash, data: bytes) returns (ok: bool)
      modifies this
      ensures m == old(m) && k == old(k)
      ensures m > 0 ==> ok && View() == Added(hash, old(View()), data)
      ensures m == 0 ==> (ok <==> k == 0) && View() == old(View()).(n := if ok then (old(n) + 1) % TWO_64 else old(n))
    {
      var locations := GetLocations(hash, data);
      if !locations.Ok? {
        return false;
      }
      for i := 0 to |locations.value|
        invariant m == old(m) && k == old(k) && n == old(n)
        invariant keys == old(keys) + (set j | 0 <= j < i :: locations.value[j])
      {
        keys := keys + {locations.value[i]};
      }
      n := (n + 1) % TWO_64;
      return true;
    }

    /** Without any location to look at everything is found; without any bit the division panics. */
    method Exists(hash: Hash, data: bytes) returns (found: Outcome<bool>)
      ensures m > 0 ==> found == Ok(MayContain(hash, View(), data))
      ensures m == 0 ==> found == if k == 0 then Ok(true) else Panic
    {
      var locations := GetLocations(hash, data);
      if !locations.Ok? {
        return Panic;
      }
      for i := 0 to |locations.value|
        invariant forall j :: 0 <= j < i ==> locations.value[j] in keys
      {
        if locations.value[i] !in keys {
          return Ok(false);
        }
      }
      return Ok(true);
    }

    method Save(codec: Codec) returns (file: bytes)
      ensures file == Saved(codec, View())
    {
      var header: bytes := [];
      header := header + ToBigEndian(m, 8);
      header := header + ToBigEndian(n, 8);
      header := header + [k];
      file := header + codec.write(keys);
    }

    /** Nothing is loaded from a file that is too short or whose bitmap does not parse. */
    static method Load(codec: Codec, file: bytes) returns (filter: BloomFilter?)
      ensures filter == null <==> Loaded(codec, file).None?
      ensures filter != null ==> fresh(filter) && filter.View() == Loaded(codec, file).value
    {
      if |file| < 8 || |file| < 16 || |file| < 17 {
        return null;
      }
      var bitmap := codec.read(file[17..]);
      if bitmap.None? {
        return null;
      }
      filter := new BloomFilter(FromBigEndian(file[..8]));
      filter.n, filter.k, filter.keys := FromBigEndian(file[8..16]), file[16], bitmap.value;
    }
  }
}
