/**
 Putting the pieces of a metadata text back together, in whatever order they come.
 */
module Reassembly {
  import opened Base
  import opened MetadataExchange

  /** Piece `i` of `text`; the last one may be short. */
  function Chunk(text: bytes, i: int): (r: bytes)
    requires 0 <= i < NumPieces(|text|)
    ensures |r| <= PIECE_LENGTH
  {
    text[i * PIECE_LENGTH..Min((i + 1) * PIECE_LENGTH, |text|)]
  }

  /** A piece goes to its place byte by byte, is cut off at the end of the buffer and touches nothing else. */
  lemma PlaceExactly(raw: bytes, off: int, data: bytes)
    ensures Place(raw, off, data).Panic? <==> off < 0 || off > |raw|
    ensures Place(raw, off, data).Ok? <==> 0 <= off <= |raw|
    ensures Place(raw, off, data).Ok? ==> forall k :: 0 <= k < |raw| ==>
      Place(raw, off, data).value[k] == if off <= k < off + |data| then data[k - off] else raw[k]
  {
  }

  /** `raw` agrees with `text` on every piece in `done`. */
  ghost predicate Filled(raw: bytes, text: bytes, done: set<nat>) {
    |raw| == |text| && forall k :: 0 <= k < |text| && k / PIECE_LENGTH in done ==> raw[k] == text[k]
  }

  predicate HonestPieces(pieces: seq<Piece>, text: bytes) {
    forall j :: 0 <= j < |pieces| ==>
      && 0 <= pieces[j].id < NumPieces(|text|)
      && pieces[j].data == Chunk(text, pieces[j].id)
  }

  function Ids(pieces: seq<Piece>): set<int> {
    set j | 0 <= j < |pieces| :: pieces[j].id as int
  }

  lemma PlaceChunk(raw: bytes, text: bytes, done: set<nat>, id: nat)
    requires Filled(raw, text, done) && id < NumPieces(|text|) && |text| <= MAX_METADATA_SIZE
    ensures PieceOffset(id) == id * PIECE_LENGTH
    ensures Place(raw, PieceOffset(id), Chunk(text, id)).Ok?
    ensures Filled(Place(raw, PieceOffset(id), Chunk(text, id)).value, text, done + {id})
  {
    var off, data := id * PIECE_LENGTH, Chunk(text, id);
    assert PieceOffset(id) == off;
    var raw' := Place(raw, off, data).value;
    assert raw' == raw[..off] + data + raw[off + |data|..];
    forall k | 0 <= k < |text| && k / PIECE_LENGTH in done + {id}
      ensures raw'[k] == text[k]
    {
      if k / PIECE_LENGTH == id {
        assert off <= k < off + |data|;
        assert raw'[k] == data[k - off];
      } else {
        assert k < off || k >= off + |data|;
      }
    }
  }

  lemma {:induction false} PlaceFills(raw: bytes, text: bytes, done: set<nat>, pieces: seq<Piece>)
    requires Filled(raw, text, done) && HonestPieces(pieces, text) && |text| <= MAX_METADATA_SIZE
    ensures PlaceAll(raw, pieces).Ok?
    ensures Filled(PlaceAll(raw, pieces).value, text, done + Ids(pieces))
    decreases |pieces|
  {
    if pieces == [] {
      assert done + Ids(pieces) == done;
    } else {
      var id := pieces[0].id;
      PlaceChunk(raw, text, done, id);
      var raw' := Place(raw, PieceOffset(id), pieces[0].data).value;
      PlaceFills(raw', text, done + {id}, pieces[1..]);
      IdsStep(pieces);
      assert done + {id} + Ids(pieces[1..]) == done + Ids(pieces);
    }
  }

  lemma IdsStep(pieces: seq<Piece>)
    requires pieces != []
    ensures Ids(pieces) == {pieces[0].id as int} + Ids(pieces[1..])
  {
    assert pieces == [pieces[0]] + pieces[1..];
    forall x | x in Ids(pieces)
      ensures x in {pieces[0].id as int} + Ids(pieces[1..])
    {
      var j :| 0 <= j < |pieces| && pieces[j].id == x;
      if j > 0 {
        assert pieces[1..][j - 1].id == x;
      }
    }
  }

  function Below(n: nat): (r: set<int>)
    ensures forall i :: i in r <==> 0 <= i < n
  {
    if n == 0 then {} else Below(n - 1) + {n - 1}
  }

  lemma {:induction false} BelowSize(n: nat)
    ensures |Below(n)| == n
  {
    if n > 0 {
      BelowSize(n - 1);
    }
  }

  /** `n` different numbers below `n` are all the numbers below `n`. */
  lemma {:induction false} DistinctSize(pieces: seq<Piece>)
    requires forall i, j :: 0 <= i < j < |pieces| ==> pieces[i].id != pieces[j].id
    ensures |Ids(pieces)| == |pieces|
  {
    if pieces != [] {
      DistinctSize(pieces[1..]);
      IdsStep(pieces);
      assert pieces[0].id as int !in Ids(pieces[1..]);
    }
  }

  lemma FullSubset(a: set<int>, b: set<int>)
    requires a <= b && |a| == |b|
    ensures a == b
  {
    assert b == a + (b - a);
    assert |b| == |a| + |b - a|;
  }

  /**
   One piece for every index, in any order, rebuilds the text exactly, its short last piece
   included.
   */
  lemma ReassembleAnyOrder(text: bytes, pieces: seq<Piece>)
    requires |text| <= MAX_METADATA_SIZE && HonestPieces(pieces, text)
    requires |pieces| == NumPieces(|text|)
    requires forall i, j :: 0 <= i < j < |pieces| ==> pieces[i].id != pieces[j].id
    ensures Reassemble(|text|, pieces) == Ok(text)
  {
    PlaceFills(Zeros(|text|), text, {}, pieces);
    var n := NumPieces(|text|);
    DistinctSize(pieces);
    BelowSize(n);
    assert Ids(pieces) <= Below(n);
    FullSubset(Ids(pieces), Below(n));
    var raw := PlaceAll(Zeros(|text|), pieces).value;
    forall k | 0 <= k < |text|
      ensures raw[k] == text[k]
    {
      assert 0 <= k / PIECE_LENGTH < n;
      assert k / PIECE_LENGTH in {} + Ids(pieces);
    }
    assert raw == text;
  }
}
