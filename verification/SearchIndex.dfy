/**
 The search index as the bulk requests of indexer/internal/svc/indexer.go use it. A document is
 a map from field names to values. Each item of a bulk is a partial update that inserts a missing
 document: its fields are laid over the stored ones, and fields it does not have stay. Empty
 seeders, leechers, tags, type and tracker times are not among the fields of a message
 (common/model/torrent.go).
 */
module SearchIndex {
  import opened Base

  type Doc = map<bytes, bytes>
  type Index = map<bytes, Doc>

  const SEARCH_UPDATED := Ascii("search_updated")
  const TRUE := Ascii("true")

  datatype Torrent = Torrent(infoHash: bytes, doc: Doc)

  /**
   How a bulk request and the acknowledgement after it went. An answer may refuse some of the
   items, by position; the indexer does not read it. A request that fails may have been applied
   in part or in whole. `AckLost` ends the process.
   */
  datatype Bulk = Answered(refused: set<nat>) | Failed(applied: set<nat>) | AckLost(refused: set<nat>)

  /** The index took the item at this position. */
  predicate Takes(bulk: Bulk, i: nat) {
    if bulk.Failed? then i in bulk.applied else i !in bulk.refused
  }

  /** The items of a bulk that the index took, or those it did not take, in order. */
  function Items(ts: seq<Torrent>, bulk: Bulk, took: bool): seq<Torrent> {
    if ts == [] then []
    else
      var last := |ts| - 1;
      Items(ts[..last], bulk, took) + if Takes(bulk, last) == took then [ts[last]] else []
  }

  /** What an item sends: the fields of its torrent, marked as indexed. */
  function Fields(t: Torrent): Doc {
    t.doc[SEARCH_UPDATED := TRUE]
  }

  function Put(index: Index, t: Torrent): Index {
    index[t.infoHash := (if t.infoHash in index then index[t.infoHash] else map[]) + Fields(t)]
  }

  function PutAll(index: Index, items: seq<Torrent>): Index {
    if items == [] then index else Put(PutAll(index, items[..|items| - 1]), items[|items| - 1])
  }

  lemma PutSnoc(index: Index, items: seq<Torrent>, t: Torrent)
    ensures PutAll(index, items + [t]) == Put(PutAll(index, items), t)
  {
    assert (items + [t])[..|items|] == items;
  }

  lemma {:induction false} PutConcat(index: Index, a: seq<Torrent>, b: seq<Torrent>)
    ensures PutAll(index, a + b) == PutAll(PutAll(index, a), b)
    decreases |b|
  {
    if b == [] {
      assert a + b == a;
    } else {
      var last := |b| - 1;
      assert a + b == a + b[..last] + [b[last]];
      PutSnoc(index, a + b[..last], b[last]);
      PutConcat(index, a, b[..last]);
    }
  }

  // ---------- What the index holds ----------

  predicate Has(t: Torrent, h: bytes, f: bytes) {
    t.infoHash == h && f in t.doc
  }

  /** The item at `i` is the last one for the hash that has the field. */
  ghost predicate Latest(items: seq<Torrent>, h: bytes, f: bytes, i: nat) {
    i < |items| && Has(items[i], h, f) && forall j :: i < j < |items| ==> !Has(items[j], h, f)
  }

  ghost predicate Hit(items: seq<Torrent>, h: bytes, i: nat) {
    i < |items| && items[i].infoHash == h
  }

  /** A hash has an entry exactly if it had one before or some item is for it. */
  lemma {:induction false} KeysExactly(index: Index, items: seq<Torrent>, h: bytes)
    ensures h in PutAll(index, items) <==> h in index || exists i: nat :: Hit(items, h, i)
    decreases |items|
  {
    if items != [] {
      var last := |items| - 1;
      var before := items[..last];
      KeysExactly(index, before, h);
      if items[last].infoHash == h {
        assert Hit(items, h, last);
      } else {
        assert forall i: nat :: Hit(before, h, i) ==> Hit(items, h, i);
        assert forall i: nat :: Hit(items, h, i) ==> Hit(before, h, i);
      }
    }
  }

  lemma LatestOfPrefix(items: seq<Torrent>, h: bytes, f: bytes, i: nat)
    requires items != [] && !Has(items[|items| - 1], h, f)
    ensures Latest(items, h, f, i) <==> Latest(items[..|items| - 1], h, f, i)
  {
    var before := items[..|items| - 1];
    assert forall j :: 0 <= j < |before| ==> before[j] == items[j];
  }

  predicate HasField(index: Index, h: bytes, f: bytes) {
    h in index && f in index[h]
  }

  /**
   From an empty index: a field of a message is there exactly if some item had it, with the value
   it has in the document of the latest such item.
   */
  lemma {:induction false} FieldsExactly(items: seq<Torrent>, h: bytes, f: bytes)
    requires f != Ascii("search_updated")
    ensures var index := PutAll(map[], items);
      && (HasField(index, h, f) <==> exists i: nat :: Latest(items, h, f, i))
      && forall i: nat :: Latest(items, h, f, i) ==> HasField(index, h, f) && index[h][f] == items[i].doc[f]
    decreases |items|
  {
    if items != [] {
      var last := |items| - 1;
      FieldsExactly(items[..last], h, f);
      if Has(items[last], h, f) {
        assert Latest(items, h, f, last);
        assert forall i: nat :: Latest(items, h, f, i) ==> i == last;
      } else {
        forall i: nat
          ensures Latest(items, h, f, i) <==> Latest(items[..last], h, f, i)
        {
          LatestOfPrefix(items, h, f, i);
        }
        OtherItem(PutAll(map[], items[..last]), items[last], h, f);
      }
    }
  }

  lemma OtherItem(index: Index, t: Torrent, h: bytes, f: bytes)
    requires !Has(t, h, f) && f != Ascii("search_updated")
    ensures HasField(Put(index, t), h, f) <==> HasField(index, h, f)
    ensures HasField(index, h, f) ==> Put(index, t)[h][f] == index[h][f]
  {
  }

  /** From an empty index: every entry says that it is indexed, whatever the messages said. */
  lemma {:induction false} MarkedAsIndexed(items: seq<Torrent>, h: bytes)
    ensures var index := PutAll(map[], items);
      h in index ==> Ascii("search_updated") in index[h] && index[h][Ascii("search_updated")] == Ascii("true")
    decreases |items|
  {
    if items != [] {
      MarkedAsIndexed(items[..|items| - 1], h);
    }
  }

  // ---------- Items of a bulk ----------

  lemma ItemsSnoc(ts: seq<Torrent>, t: Torrent, bulk: Bulk, took: bool)
    ensures Items(ts + [t], bulk, took) == Items(ts, bulk, took) + if Takes(bulk, |ts|) == took then [t] else []
  {
    assert (ts + [t])[..|ts|] == ts;
  }

  /** The positions below `n` that the index took, or did not take. */
  function Positions(bulk: Bulk, took: bool, n: nat): set<nat> {
    set k: nat | k < n && Takes(bulk, k) == took
  }

  lemma OneMorePosition(bulk: Bulk, took: bool, n: nat)
    ensures |Positions(bulk, took, n + 1)| == |Positions(bulk, took, n)| + if Takes(bulk, n) == took then 1 else 0
  {
    var before, after := Positions(bulk, took, n), Positions(bulk, took, n + 1);
    assert after == before + if Takes(bulk, n) == took then {n} else {};
  }

  /** Each item at its place: after as many as were taken before it. */
  lemma {:induction false} ItemsInOrder(ts: seq<Torrent>, bulk: Bulk, took: bool)
    ensures |Items(ts, bulk, took)| == |Positions(bulk, took, |ts|)|
    ensures forall i :: 0 <= i < |ts| && Takes(bulk, i) == took ==>
      |Positions(bulk, took, i)| < |Items(ts, bulk, took)| && Items(ts, bulk, took)[|Positions(bulk, took, i)|] == ts[i]
    decreases |ts|
  {
    hide Takes, Positions;
    if ts == [] {
      NoPositions(bulk, took);
    } else {
      var last := |ts| - 1;
      var before, items := Items(ts[..last], bulk, took), Items(ts, bulk, took);
      ItemsInOrder(ts[..last], bulk, took);
      OneMorePosition(bulk, took, last);
      assert before <= items;
      forall i | 0 <= i < |ts| && Takes(bulk, i) == took
        ensures |Positions(bulk, took, i)| < |items| && items[|Positions(bulk, took, i)|] == ts[i]
      {
        if i < last {
          assert ts[..last][i] == ts[i];
        }
      }
    }
  }

  lemma NoPositions(bulk: Bulk, took: bool)
    ensures Positions(bulk, took, 0) == {}
  {
  }

  lemma {:induction false} ItemsAreOfBulk(ts: seq<Torrent>, bulk: Bulk, took: bool)
    ensures forall t :: t in Items(ts, bulk, took) ==> t in ts
    decreases |ts|
  {
    if ts != [] {
      ItemsAreOfBulk(ts[..|ts| - 1], bulk, took);
    }
  }

  lemma {:induction false} TakenOrNot(ts: seq<Torrent>, bulk: Bulk)
    ensures forall t :: t in ts ==> t in Items(ts, bulk, true) || t in Items(ts, bulk, false)
    decreases |ts|
  {
    if ts != [] {
      var last := |ts| - 1;
      TakenOrNot(ts[..last], bulk);
      assert ts == ts[..last] + [ts[last]];
    }
  }

  lemma {:induction false} AllTaken(ts: seq<Torrent>, bulk: Bulk)
    requires !bulk.Failed? && bulk.refused == {}
    ensures Items(ts, bulk, false) == []
    decreases |ts|
  {
    if ts != [] {
      AllTaken(ts[..|ts| - 1], bulk);
    }
  }
}
