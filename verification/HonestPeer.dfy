/**
 The end-to-end promise of the metadata exchange: an honest peer's dictionary comes back
 exactly, and nothing is ever returned that does not hash to the requested info hash.
 */
module HonestPeer {
  import opened Base
  import opened BencodeValue
  import opened BencodeEncode
  import opened BencodeDecode
  import opened BencodeLaws
  import opened BencodePath
  import opened BencodeLength
  import opened MetadataExchange
  import opened Reassembly

  // ---------- Framing ----------

  predicate Fits(msg: bytes) {
    |msg| < 0x1_0000_0000
  }

  function Framed(msg: bytes): bytes {
    ToBigEndian(|msg|, 4) + msg
  }

  function Flatten(frames: seq<bytes>): bytes {
    if frames == [] then [] else Framed(frames[0]) + Flatten(frames[1..])
  }

  /** An extension message; anything else on the stream is skipped. */
  predicate IsSignal(msg: bytes) {
    msg != [] && msg[0] == BT_MSG_ID
  }

  function Signals(frames: seq<bytes>): (r: seq<bytes>)
    ensures forall i :: 0 <= i < |r| ==> IsSignal(r[i])
  {
    if frames == [] then []
    else (if IsSignal(frames[0]) then [frames[0]] else []) + Signals(frames[1..])
  }

  predicate AllFit(frames: seq<bytes>) {
    forall i :: 0 <= i < |frames| ==> Fits(frames[i])
  }

  lemma ReadFramed(w: Wire, msg: bytes, rest: bytes)
    requires Fits(msg) && w.input == Framed(msg) + rest
    ensures ReadMessage(w) == Done(msg, w.(input := rest))
  {
    var prefix := ToBigEndian(|msg|, 4);
    assert Pow256(4) == 0x1_0000_0000;
    BigEndianRoundTrip(|msg|, 4);
    assert w.input[..4] == prefix;
    assert w.input[4..] == msg + rest;
    assert (msg + rest)[..|msg|] == msg && (msg + rest)[|msg|..] == rest;
  }

  /** The next extension message is read whatever other frames come before it. */
  lemma {:induction false} NextSignal(w: Wire, frames: seq<bytes>, rest: bytes) returns (frames': seq<bytes>)
    requires AllFit(frames) && Signals(frames) != [] && w.input == Flatten(frames) + rest
    ensures AllFit(frames') && Signals(frames') == Signals(frames)[1..]
    ensures ReadExtMessage(w) == Done(Signals(frames)[0][1..], w.(input := Flatten(frames') + rest))
    decreases |frames|
  {
    var msg, later := frames[0], frames[1..];
    assert w.input == Framed(msg) + (Flatten(later) + rest);
    ReadFramed(w, msg, Flatten(later) + rest);
    if IsSignal(msg) {
      frames' := later;
    } else {
      assert Signals(frames) == Signals(later);
      frames' := NextSignal(w.(input := Flatten(later) + rest), later, rest);
    }
  }

  // ---------- What an honest peer sends ----------

  /** One data message: the extension id it carries, its header and its piece index. */
  datatype Offer = Offer(tag: byte, head: map<bytes, Value>, id: int64)

  ghost predicate HonestOffer(o: Offer, text: bytes) {
    && o.tag != EXT_HANDSHAKE_ID
    && 0 <= o.id < NumPieces(|text|)
    && Encodable(Dict(o.head))
    && MSG_TYPE in o.head && o.head[MSG_TYPE] == Int(1)
    && PIECE in o.head && o.head[PIECE] == Int(o.id)
  }

  ghost function DataMessage(o: Offer, text: bytes): bytes
    requires HonestOffer(o, text)
  {
    [BT_MSG_ID, o.tag] + Encode(Dict(o.head)) + Chunk(text, o.id)
  }

  ghost function DataMessages(offers: seq<Offer>, text: bytes): seq<bytes>
    requires forall j :: 0 <= j < |offers| ==> HonestOffer(offers[j], text)
  {
    if offers == [] then [] else [DataMessage(offers[0], text)] + DataMessages(offers[1..], text)
  }

  ghost function ExtMessage(ext: map<bytes, Value>, suffix: bytes): bytes {
    [BT_MSG_ID, EXT_HANDSHAKE_ID] + Encode(Dict(ext)) + suffix
  }

  ghost predicate HonestExt(ext: map<bytes, Value>, size: nat) {
    && size <= MAX_METADATA_SIZE
    && Encodable(Dict(ext))
    && METADATA_SIZE in ext && ext[METADATA_SIZE] == Int(size)
    && M in ext && ext[M].Dict?
    && UT_METADATA in ext[M].entries && ext[M].entries[UT_METADATA].Int?
  }

  /**
   Everything the peer sends: the rest of its handshake, its extension handshake, one data
   message per piece in the order of `offers`, and the frames that carry them with other
   frames in between; `tail` is whatever follows.
   */
  datatype Peer = Peer(
    reserved: bytes, identity: bytes,
    ext: map<bytes, Value>, extSuffix: bytes,
    offers: seq<Offer>, frames: seq<bytes>, tail: bytes)

  ghost predicate Honest(p: Peer, text: bytes) {
    && |p.reserved| == 8 && SupportsExtensions(p.reserved[5]) && |p.identity| == 40
    && HonestExt(p.ext, |text|)
    && (forall j :: 0 <= j < |p.offers| ==> HonestOffer(p.offers[j], text))
    && |p.offers| == NumPieces(|text|)
    && (forall i, j :: 0 <= i < j < |p.offers| ==> p.offers[i].id != p.offers[j].id)
    && AllFit(p.frames)
    && Signals(p.frames) == [ExtMessage(p.ext, p.extSuffix)] + DataMessages(p.offers, text)
  }

  function Stream(p: Peer): bytes {
    [|PROTOCOL|] + (PROTOCOL + p.reserved + p.identity) + (Flatten(p.frames) + p.tail)
  }

  // ---------- Reading it ----------

  lemma GreetingAccepted(w: Wire, p: Peer)
    requires |p.reserved| == 8 && SupportsExtensions(p.reserved[5]) && |p.identity| == 40
    requires w.input == Stream(p)
    ensures ReadGreeting(w) == Done(true, w.(input := Flatten(p.frames) + p.tail))
  {
    hide Flatten;
    var data, later := PROTOCOL + p.reserved + p.identity, Flatten(p.frames) + p.tail;
    assert w.input[..1] == [|PROTOCOL|];
    assert w.input[1..] == data + later;
    assert |data| == |PROTOCOL| + 48;
    assert (data + later)[..|data|] == data && (data + later)[|data|..] == later;
    assert data[..|PROTOCOL|] == PROTOCOL;
    assert data[|PROTOCOL|..] == p.reserved + p.identity;
  }

  lemma ReservedBit(p: Peer, text: bytes)
    requires Honest(p, text)
    ensures |p.reserved| == 8 && SupportsExtensions(p.reserved[5]) && |p.identity| == 40
  {
  }

  lemma IntEntryKept(m: map<bytes, Value>, k: bytes)
    requires k in m && m[k].Int?
    ensures Normal(Dict(m)).Dict? && k in Normal(Dict(m)).entries && Normal(Dict(m)).entries[k] == m[k]
  {
  }

  lemma ExtAccepted(ext: map<bytes, Value>, suffix: bytes, size: nat)
    requires HonestExt(ext, size) && Fits(ExtMessage(ext, suffix))
    ensures var r := ReadExt(ExtMessage(ext, suffix)[1..]);
      r == Ok(Ext(size, ext[M].entries[UT_METADATA].n, NumPieces(size)))
  {
    hide Encode, DecodeDict, Split, Walk;
    var v := Dict(ext);
    var msg := ExtMessage(ext, suffix)[1..];
    assert msg[0] == EXT_HANDSHAKE_ID && msg[1..] == Encode(v) + suffix;
    DictRoundTrip(v, suffix);
    var got := Normal(v).entries;
    IntEntryKept(ext, METADATA_SIZE);
    IntEntryKept(ext[M].entries, UT_METADATA);
    assert got[M] == Normal(ext[M]);
    PlainEntry(got, METADATA_SIZE);
    DottedEntry(got, M, UT_METADATA);
    assert IntAt(got, METADATA_SIZE) == Some(size);
    assert IntAt(got, M + [DOT] + UT_METADATA) == Some(ext[M].entries[UT_METADATA].n);
  }

  lemma PieceAccepted(o: Offer, text: bytes)
    requires HonestOffer(o, text) && Fits(DataMessage(o, text))
    ensures ReadPieceMessage(DataMessage(o, text)[1..]) == Ok(Piece(o.id, Chunk(text, o.id)))
  {
    hide Encode, DecodeDict, Split, Walk, Chunk;
    var v, chunk := Dict(o.head), Chunk(text, o.id);
    var msg := DataMessage(o, text)[1..];
    assert msg[0] == o.tag && msg[1..] == Encode(v) + chunk;
    DictRoundTrip(v, chunk);
    assert msg[|Encode(v)| + 1..] == chunk;
    var got := Normal(v).entries;
    IntEntryKept(o.head, MSG_TYPE);
    IntEntryKept(o.head, PIECE);
    PlainEntry(got, MSG_TYPE);
    PlainEntry(got, PIECE);
  }

  ghost function PieceOf(o: Offer, text: bytes): Piece
    requires HonestOffer(o, text)
  {
    Piece(o.id, Chunk(text, o.id))
  }

  ghost function Pieces(offers: seq<Offer>, text: bytes): (r: seq<Piece>)
    requires forall j :: 0 <= j < |offers| ==> HonestOffer(offers[j], text)
    ensures |r| == |offers|
  {
    seq(|offers|, j requires 0 <= j < |offers| => PieceOf(offers[j], text))
  }

  lemma {:induction false} PiecesAccepted(w: Wire, frames: seq<bytes>, tail: bytes, offers: seq<Offer>, text: bytes)
    requires forall j :: 0 <= j < |offers| ==> HonestOffer(offers[j], text)
    requires AllFit(frames) && Signals(frames) == DataMessages(offers, text)
    requires w.input == Flatten(frames) + tail
    ensures ReadPieces(w, |offers|).Done? && ReadPieces(w, |offers|).value == Pieces(offers, text)
    decreases |offers|
  {
    hide ReadExtMessage, ReadPieceMessage, HonestOffer, DataMessage, Flatten, Chunk;
    if offers != [] {
      var later := NextSignal(w, frames, tail);
      SignalFits(frames, 0);
      OfferBound(offers[0], text);
      PieceAccepted(offers[0], text);
      PiecesAccepted(w.(input := Flatten(later) + tail), later, tail, offers[1..], text);
      assert Pieces(offers, text) == [PieceOf(offers[0], text)] + Pieces(offers[1..], text);
    }
  }

  lemma OfferBound(o: Offer, text: bytes)
    requires HonestOffer(o, text)
    ensures 0 <= o.id < NumPieces(|text|)
  {
  }

  lemma {:induction false} SignalFits(frames: seq<bytes>, j: nat)
    requires AllFit(frames) && j < |Signals(frames)|
    ensures Fits(Signals(frames)[j])
    decreases |frames|
  {
    if IsSignal(frames[0]) {
      if j > 0 {
        SignalFits(frames[1..], j - 1);
      }
    } else {
      SignalFits(frames[1..], j);
    }
  }

  // ---------- Sending ----------

  ghost function Requests(ext: Ext, i: nat): bytes
    requires ext.numPieces <= MAX_INT
    decreases ext.numPieces - i
  {
    if i >= ext.numPieces then [] else Framed(RequestMessage(ext, i)) + Requests(ext, i + 1)
  }

  /** Two writes per request suffice, and the requests go out in order, one per piece. */
  lemma {:induction false} RequestsSent(w: Wire, ext: Ext, i: nat)
    requires ext.numPieces <= MAX_INT && w.writes >= 2 * (ext.numPieces - i)
    ensures SendRequests(w, ext, i).Done? && SendRequests(w, ext, i).wire.input == w.input
    ensures SendRequests(w, ext, i).wire.output == w.output + Requests(ext, i)
    decreases ext.numPieces - i
  {
    hide RequestMessage, ToBigEndian;
    if i < ext.numPieces {
      var msg := RequestMessage(ext, i);
      var w1 := Send(w, msg).wire;
      assert w1.output == w.output + Framed(msg);
      RequestsSent(w1, ext, i + 1);
      assert w.output + Framed(msg) + Requests(ext, i + 1) == w.output + (Framed(msg) + Requests(ext, i + 1));
    }
  }

  // ---------- The promise ----------

  lemma HandshakeDone(w: Wire, p: Peer, text: bytes, infoHash: bytes, nodeId: bytes)
    requires Honest(p, text) && w.input == Stream(p) && w.writes >= 1
    ensures var r := Handshake(w, infoHash, nodeId);
      r.Done? && r.wire.input == Flatten(p.frames) + p.tail && r.wire.writes == w.writes - 1
  {
    hide Honest, Stream, ReadGreeting, Flatten;
    ReservedBit(p, text);
    GreetingAccepted(Wrote(w, Greeting(infoHash, nodeId)).wire, p);
  }

  lemma ExtHandshakeDone(w: Wire, p: Peer, text: bytes) returns (ext: Ext, w': Wire, later: seq<bytes>)
    requires Honest(p, text) && w.input == Flatten(p.frames) + p.tail && w.writes >= 2
    ensures ExtHandshake(w) == Done(ext, w')
    ensures HonestExt(p.ext, |text|) && ext == Ext(|text|, p.ext[M].entries[UT_METADATA].n, NumPieces(|text|))
    ensures w'.writes == w.writes - 2 && w'.input == Flatten(later) + p.tail
    ensures AllFit(later) && Signals(later) == DataMessages(p.offers, text)
  {
    hide Encode, Flatten, ReadExtMessage, ReadExt, DataMessages, HonestOffer, ExtMessage, ToBigEndian, NumPieces;
    var w1 := Send(w, ExtOffer()).wire;
    later := NextSignal(w1, p.frames, p.tail);
    SignalFits(p.frames, 0);
    ExtAccepted(p.ext, p.extSuffix, |text|);
    w' := w1.(input := Flatten(later) + p.tail);
    ext := ReadExt(ExtMessage(p.ext, p.extSuffix)[1..]).value;
  }

  lemma OffersReassemble(p: Peer, text: bytes)
    requires Honest(p, text)
    ensures Reassemble(|text|, Pieces(p.offers, text)) == Ok(text)
  {
    hide Chunk, Reassemble, DataMessages, Flatten, Signals;
    assert HonestPieces(Pieces(p.offers, text), text);
    ReassembleAnyOrder(text, Pieces(p.offers, text));
  }

  lemma VerifyAccepts(v: Value, infoHash: bytes, sha1: bytes -> bytes)
    requires v.Dict? && Encodable(v) && |Encode(v)| <= MAX_METADATA_SIZE && sha1(Encode(v)) == infoHash
    ensures Verify(Encode(v), infoHash, sha1) == Ok(Normal(v).entries)
  {
    hide Encode, DecodeDict;
    DictRoundTrip(v, []);
    assert Encode(v) + [] == Encode(v);
  }

  /** The wire carries an honest peer's answers for dictionary `v`, and our writes go through. */
  ghost predicate HonestExchange(w: Wire, p: Peer, v: Value, infoHash: bytes, sha1: bytes -> bytes) {
    && v.Dict? && Encodable(v) && |Encode(v)| <= MAX_METADATA_SIZE && sha1(Encode(v)) == infoHash
    && Honest(p, Encode(v)) && w.input == Stream(p)
    && w.writes >= 3 + 2 * NumPieces(|Encode(v)|)
  }

  /**
   For every dictionary whose encoding is within the size limit and hashes to the info hash,
   and for every honest peer, the exchange returns that dictionary, with strings read as
   bytes: whatever the order of the pieces, whatever frames stand between them and whatever
   follows.
   */
  lemma HonestPeerDelivers(w: Wire, p: Peer, v: Value, infoHash: bytes, nodeId: bytes, sha1: bytes -> bytes)
    ensures HonestExchange(w, p, v, infoHash, sha1) ==>
      var r := Fetch(w, infoHash, nodeId, sha1);
      r.Done? && r.value == Normal(v).entries
  {
    hide Encode, Stream, Handshake, ExtHandshake, Honest, ReadPieces, SendRequests, Requests, DataMessages, Signals,
      AllFit, Flatten, Reassemble, Verify, Encodable;
    if HonestExchange(w, p, v, infoHash, sha1) {
      var text := Encode(v);
      HandshakeDone(w, p, text, infoHash, nodeId);
      var ext, w2, later := ExtHandshakeDone(Handshake(w, infoHash, nodeId).wire, p, text);
      PieceCount(p, text);
      RequestsSent(w2, ext, 0);
      PiecesAccepted(SendRequests(w2, ext, 0).wire, later, p.tail, p.offers, text);
      OffersReassemble(p, text);
      VerifyAccepts(v, infoHash, sha1);
    }
  }

  lemma PieceCount(p: Peer, text: bytes)
    requires Honest(p, text)
    ensures |p.offers| == NumPieces(|text|) <= MAX_INT
    ensures forall j :: 0 <= j < |p.offers| ==> HonestOffer(p.offers[j], text)
  {
  }

  /** `raw` hashes to the info hash, is within the limit and decodes to `metadata`. */
  ghost predicate Certifies(raw: bytes, infoHash: bytes, sha1: bytes -> bytes, metadata: map<bytes, Value>) {
    && sha1(raw) == infoHash && |raw| <= MAX_METADATA_SIZE
    && DecodeDict(raw, 0).Read? && DecodeDict(raw, 0).value == metadata
  }

  /**
   Whatever the peer sends, a returned dictionary was decoded from as many bytes as the peer
   announced, and they hash to the info hash.
   */
  lemma OnlyHashedMetadata(w: Wire, infoHash: bytes, nodeId: bytes, sha1: bytes -> bytes)
    ensures var r := Fetch(w, infoHash, nodeId, sha1);
      r.Done? ==>
        && Announced(w.input).Ok?
        && exists raw :: Certifies(raw, infoHash, sha1, r.value) && |raw| == Announced(w.input).value.metadataSize
  {
    hide Handshake, Send, ReadExtMessage, RequestPieces, DecodeDict, ExtOffer, Announced, PlaceAll;
    var r := Fetch(w, infoHash, nodeId, sha1);
    if r.Done? {
      var w1 := Handshake(w, infoHash, nodeId).wire;
      var ext, w2 := ExtHandshake(w1).value, ExtHandshake(w1).wire;
      var raw := Reassemble(ext.metadataSize, RequestPieces(w2, ext).value).value;
      FetchReadsAnnounced(w, infoHash, nodeId);
      assert Certifies(raw, infoHash, sha1, r.value) && |raw| == ext.metadataSize;
    }
  }

  /** The sizes the exchange goes by are those that the peer announced. */
  lemma FetchReadsAnnounced(w: Wire, infoHash: bytes, nodeId: bytes)
    requires Handshake(w, infoHash, nodeId).Done? && ExtHandshake(Handshake(w, infoHash, nodeId).wire).Done?
    ensures Announced(w.input) == Ok(ExtHandshake(Handshake(w, infoHash, nodeId).wire).value)
  {
    hide Greeting, ExtOffer, ReadGreeting, ReadExtMessage, ReadExt, ToBigEndian;
    var greeted := Wrote(w, Greeting(infoHash, nodeId)).wire;
    GreetingIgnoresOutput(greeted, Wire(w.input, [], 0));
    var w1 := Handshake(w, infoHash, nodeId).wire;
    ReadingIgnoresOutput(Send(w1, ExtOffer()).wire, ReadGreeting(Wire(w.input, [], 0)).wire);
  }

  // ---------- What is accepted ----------

  /** A greeting passes exactly with the protocol's name and the extension bit, and is 68 bytes long then. */
  lemma GreetingExactly(w: Wire)
    ensures ReadGreeting(w).Done? <==>
      && |w.input| >= 68 && w.input[0] == 19 && w.input[1..20] == Ascii("BitTorrent protocol")
      && w.input[25] / 16 % 2 == 1
    ensures ReadGreeting(w).Done? ==> ReadGreeting(w).wire == w.(input := w.input[68..])
  {
    if |w.input| > 0 {
      var length: nat := w.input[0];
      var later := w.input[1..];
      if |later| >= length + 48 {
        var data := later[..length + 48];
        assert data[..length] == w.input[1..length + 1];
        assert |PROTOCOL| == 19;
        if length == 19 {
          assert data[length..][5] == w.input[25];
          assert later[length + 48..] == w.input[68..];
        } else {
          assert |data[..length]| != |PROTOCOL|;
        }
      }
    }
  }

  /** An extension handshake passes exactly with its id, a dictionary, both numbers and a size within the limit. */
  lemma ExtExactly(msg: bytes)
    ensures ReadExt(msg).Panic? <==> msg == [] || (msg[0] == 0 && DecodeDict(msg[1..], 0).Crash?)
    ensures ReadExt(msg).Ok? <==>
      && msg != [] && msg[0] == 0 && DecodeDict(msg[1..], 0).Read?
      && var ext := DecodeDict(msg[1..], 0).value;
        && IntAt(ext, Ascii("m.ut_metadata")).Some? && IntAt(ext, Ascii("metadata_size")).Some?
        && IntAt(ext, Ascii("metadata_size")).value <= 10_000_000
    ensures ReadExt(msg).Ok? ==>
      var ext, r := DecodeDict(msg[1..], 0).value, ReadExt(msg).value;
      Some(r.metadataSize) == IntAt(ext, Ascii("metadata_size")) && Some(r.utMetadata) == IntAt(ext, Ascii("m.ut_metadata"))
  {
    hide DecodeDict, IntAt;
    KeyNames();
    assert M + [DOT] + UT_METADATA == Ascii("m.ut_metadata");
  }

  /**
   A data message passes exactly with an id that is not the handshake's, a dictionary of type 1 that
   ends inside the message, and at most 16384 bytes behind it; those are the piece.
   */
  lemma PieceExactly(msg: bytes)
    ensures ReadPieceMessage(msg).Ok? <==>
      && msg != [] && msg[0] != 0 && DecodeDict(msg[1..], 0).Read?
      && var r := DecodeDict(msg[1..], 0);
        IntAt(r.value, Ascii("msg_type")) == Some(1) && r.end < |msg| && |msg| - r.end - 1 <= 16384
    ensures ReadPieceMessage(msg).Ok? ==>
      var r, piece := DecodeDict(msg[1..], 0), ReadPieceMessage(msg).value;
      && piece.data == msg[r.end + 1..]
      && piece.id == (if IntAt(r.value, Ascii("piece")).Some? then IntAt(r.value, Ascii("piece")).value else 0)
  {
    hide DecodeDict, IntAt;
    KeyNames();
  }

  // ---------- What we send ----------

  /** A peer that runs the same code accepts our own handshake. */
  lemma OwnGreetingAccepted(w: Wire, infoHash: bytes, nodeId: bytes, rest: bytes)
    requires |infoHash| == 20 && |nodeId| == 20 && w.input == Greeting(infoHash, nodeId) + rest
    ensures ReadGreeting(w) == Done(true, w.(input := rest))
  {
    var data := PROTOCOL + RESERVED + infoHash + nodeId;
    assert w.input == [|PROTOCOL|] + (data + rest);
    assert w.input[..1] == [|PROTOCOL|] && w.input[1..] == data + rest;
    assert (data + rest)[..|data|] == data && (data + rest)[|data|..] == rest;
    assert data[..|PROTOCOL|] == PROTOCOL;
    assert data[|PROTOCOL|..][5] == RESERVED[5];
  }

  /** The 68 bytes of BEP 3: length and name of the protocol, the reserved bytes, the info hash and our id. */
  ghost predicate SaysHello(msg: bytes, infoHash: bytes, nodeId: bytes) {
    && |msg| == 28 + |infoHash| + |nodeId| && msg[0] == 19 && msg[1..20] == Ascii("BitTorrent protocol")
    && msg[20..28] == [0, 0, 0, 0, 0, 16, 0, 1]
    && msg[28..28 + |infoHash|] == infoHash && msg[28 + |infoHash|..] == nodeId
  }

  /** An extension message under `tag` whose whole payload is the bencoded dictionary `m`. */
  ghost predicate SaysDict(msg: bytes, tag: int, m: map<bytes, Value>) {
    |msg| >= 2 && msg[0] == 20 && msg[1] == tag % 256 && DecodeAny(msg[2..], 0) == Read(Dict(m), |msg| - 2)
  }

  /** The extension handshake of BEP 10: we take metadata messages under id 1. */
  ghost predicate SaysOffer(msg: bytes) {
    SaysDict(msg, 0, map[Ascii("m") := Dict(map[Ascii("ut_metadata") := Int(1)])])
  }

  /** The request of BEP 9 for piece `i`, under the id that the peer takes such messages by. */
  ghost predicate SaysRequest(msg: bytes, ut: int64, i: int64) {
    SaysDict(msg, ut, map[Ascii("msg_type") := Int(0), Ascii("piece") := Int(i)])
  }

  lemma GreetingSaysHello(infoHash: bytes, nodeId: bytes)
    ensures SaysHello(Greeting(infoHash, nodeId), infoHash, nodeId)
  {
  }

  lemma KeyNames()
    ensures METADATA_SIZE == Ascii("metadata_size") && M == Ascii("m") && UT_METADATA == Ascii("ut_metadata")
    ensures MSG_TYPE == Ascii("msg_type") && PIECE == Ascii("piece")
  {
  }

  lemma DictSays(v: Value, tag: int)
    requires v.Dict? && Encodable(v) && Normal(v) == v && |Encode(v)| <= MAX_INT
    ensures SaysDict([BT_MSG_ID, tag % 256] + Encode(v), tag, v.entries)
  {
    hide Encode, DecodeAny, Encodable, Normal;
    var msg := [BT_MSG_ID, tag % 256] + Encode(v);
    assert msg[2..] == Encode(v) + [];
    RoundTrip(v, []);
  }

  lemma RequestIsShort(i: int64)
    ensures Encodable(Request(i)) && Normal(Request(i)) == Request(i) && |Encode(Request(i))| <= MAX_INT
  {
    hide Encode;
    OwnMessagesEncode(i);
    IntLength(0);
    IntLength(i);
    DictLength(Request(i), 22);
  }

  lemma OfferIsShort()
    ensures Encodable(OFFER) && Normal(OFFER) == OFFER && |Encode(OFFER)| <= MAX_INT
  {
    hide Encode;
    var inner := Dict(map[UT_METADATA := Int(1)]);
    OwnMessagesEncode(0);
    IntLength(1);
    DictLength(inner, 22);
    DictLength(OFFER, 130);
    assert Normal(inner) == inner;
  }

  /** A peer that decodes a request finds message type 0 and the index of the piece, and nothing else. */
  lemma RequestUnderstood(ext: Ext, i: int64)
    ensures SaysRequest(RequestMessage(ext, i), ext.utMetadata, i)
  {
    hide Encode, Encodable, Normal, SaysDict;
    RequestIsShort(i);
    DictSays(Request(i), ext.utMetadata);
    KeyNames();
  }

  lemma OfferSays()
    ensures SaysOffer(ExtOffer())
  {
    hide Encode, Encodable, Normal, SaysDict;
    OfferIsShort();
    DictSays(OFFER, 0);
    KeyNames();
  }

  lemma {:induction false} ReadingSendsNothing(w: Wire)
    ensures ReadExtMessage(w).Done? ==> ReadExtMessage(w).wire.output == w.output
    decreases |w.input|
  {
    var r := ReadMessage(w);
    if r.Done? && !IsSignal(r.value) {
      ReadingSendsNothing(r.wire);
    }
  }

  lemma {:induction false} PiecesSendNothing(w: Wire, count: nat)
    ensures ReadPieces(w, count).Done? ==> ReadPieces(w, count).wire.output == w.output
    decreases count
  {
    hide ReadExtMessage, ReadPieceMessage;
    if count > 0 {
      ReadingSendsNothing(w);
      var r := ReadPiece(w);
      if r.Done? {
        PiecesSendNothing(r.wire, count - 1);
      }
    }
  }

  lemma {:induction false} RequestsWritten(w: Wire, ext: Ext, i: nat)
    requires ext.numPieces <= MAX_INT && SendRequests(w, ext, i).Done?
    ensures SendRequests(w, ext, i).wire.output == w.output + Requests(ext, i)
    decreases ext.numPieces - i
  {
    hide RequestMessage, ToBigEndian;
    if i < ext.numPieces {
      var msg := RequestMessage(ext, i);
      var w1 := Send(w, msg).wire;
      assert w1.output == w.output + Framed(msg);
      RequestsWritten(w1, ext, i + 1);
      assert w.output + Framed(msg) + Requests(ext, i + 1) == w.output + (Framed(msg) + Requests(ext, i + 1));
    }
  }

  ghost function RequestMessages(ext: Ext, i: nat): seq<bytes>
    requires ext.numPieces <= MAX_INT
    decreases ext.numPieces - i
  {
    if i >= ext.numPieces then [] else [RequestMessage(ext, i)] + RequestMessages(ext, i + 1)
  }

  lemma {:induction false} RequestsAreFrames(ext: Ext, i: nat)
    requires ext.numPieces <= MAX_INT
    ensures Requests(ext, i) == Flatten(RequestMessages(ext, i))
    decreases ext.numPieces - i
  {
    hide RequestMessage, Framed;
    if i < ext.numPieces {
      RequestsAreFrames(ext, i + 1);
      var msgs := RequestMessages(ext, i);
      assert msgs[0] == RequestMessage(ext, i) && msgs[1..] == RequestMessages(ext, i + 1);
    }
  }

  lemma {:induction false} EachRequestUnderstood(ext: Ext, i: nat)
    requires ext.numPieces <= MAX_INT
    ensures var msgs := RequestMessages(ext, i);
      && |msgs| == (if i < ext.numPieces then ext.numPieces - i else 0)
      && forall j :: 0 <= j < |msgs| ==> SaysRequest(msgs[j], ext.utMetadata, i + j)
    decreases ext.numPieces - i
  {
    hide RequestMessage, SaysRequest;
    if i < ext.numPieces {
      RequestUnderstood(ext, i);
      EachRequestUnderstood(ext, i + 1);
    }
  }

  /**
   What goes out to a peer that announced `ext`: the greeting, then frames. The first carries our
   offer; then comes one request per piece, in order, under the peer's own id.
   */
  ghost predicate SentFor(ext: Ext, hello: bytes, msgs: seq<bytes>, w: Wire, w': Wire, infoHash: bytes, nodeId: bytes) {
    && w'.output == w.output + hello + Flatten(msgs)
    && SaysHello(hello, infoHash, nodeId)
    && |msgs| == 1 + (if ext.numPieces < 0 then 0 else ext.numPieces) && SaysOffer(msgs[0])
    && forall i :: 1 <= i < |msgs| ==> i <= MAX_INT && SaysRequest(msgs[i], ext.utMetadata, i - 1)
  }

  /** What a stream of bytes from a peer announces: a greeting, and the extension handshake after it. */
  function Announced(input: bytes): Outcome<Ext> {
    match ReadGreeting(Wire(input, [], 0))
    case Done(_, w1) =>
      (match ReadExtMessage(w1)
       case Done(msg, _) => ReadExt(msg)
       case _ => Err)
    case _ => Err
  }

  lemma {:induction false} ReadingIgnoresOutput(w: Wire, v: Wire)
    requires v.input == w.input
    ensures ReadExtMessage(w).Done? <==> ReadExtMessage(v).Done?
    ensures ReadExtMessage(w).Done? ==> ReadExtMessage(w).value == ReadExtMessage(v).value
    decreases |w.input|
  {
    var r, q := ReadMessage(w), ReadMessage(v);
    if r.Done? && !IsSignal(r.value) {
      ReadingIgnoresOutput(r.wire, q.wire);
    }
  }

  lemma FramesAfterOffer(ext: Ext)
    requires ext.numPieces <= MAX_INT
    ensures Framed(ExtOffer()) + Requests(ext, 0) == Flatten([ExtOffer()] + RequestMessages(ext, 0))
  {
    hide Framed, ExtOffer;
    RequestsAreFrames(ext, 0);
    var msgs := [ExtOffer()] + RequestMessages(ext, 0);
    assert msgs[1..] == RequestMessages(ext, 0);
  }

  /** On success exactly that has been sent, for what the peer announced. */
  lemma SentOnSuccess(w: Wire, infoHash: bytes, nodeId: bytes, sha1: bytes -> bytes)
    ensures var r := Fetch(w, infoHash, nodeId, sha1);
      r.Done? ==>
        && Announced(w.input).Ok?
        && exists hello, msgs :: SentFor(Announced(w.input).value, hello, msgs, w, r.wire, infoHash, nodeId)
  {
    hide Greeting, ExtOffer, ReadGreeting, ReadExtMessage, ReadExt, SendRequests, ReadPieces, Requests, RequestMessages, Reassemble, Verify,
      ToBigEndian, NumPieces, Flatten, SaysHello, SaysOffer, SaysRequest;
    var r := Fetch(w, infoHash, nodeId, sha1);
    if r.Done? {
      var greeted := Wrote(w, Greeting(infoHash, nodeId)).wire;
      GreetingIgnoresOutput(greeted, Wire(w.input, [], 0));
      var w1 := Handshake(w, infoHash, nodeId).wire;
      var sent := Send(w1, ExtOffer()).wire;
      assert sent.output == w1.output + Framed(ExtOffer());
      ReadingSendsNothing(sent);
      ReadingIgnoresOutput(sent, ReadGreeting(Wire(w.input, [], 0)).wire);
      var ext, w2 := ExtHandshake(w1).value, ExtHandshake(w1).wire;
      assert Announced(w.input) == Ok(ext);
      PieceBound(ext.metadataSize);
      RequestsWritten(w2, ext, 0);
      var count: nat := if ext.numPieces < 0 then 0 else ext.numPieces;
      PiecesSendNothing(SendRequests(w2, ext, 0).wire, count);
      var hello, offer, requests := Greeting(infoHash, nodeId), Framed(ExtOffer()), Requests(ext, 0);
      assert r.wire.output == w.output + hello + offer + requests;
      Concatenate(w.output + hello, offer, requests);
      FramesAfterOffer(ext);
      var msgs := [ExtOffer()] + RequestMessages(ext, 0);
      GreetingSaysHello(infoHash, nodeId);
      OfferSays();
      EachRequestUnderstood(ext, 0);
      assert SentFor(ext, hello, msgs, w, r.wire, infoHash, nodeId);
    }
  }

  lemma Concatenate(a: bytes, b: bytes, c: bytes)
    ensures a + b + c == a + (b + c)
  {
  }

  lemma GreetingIgnoresOutput(w: Wire, v: Wire)
    requires v.input == w.input
    ensures ReadGreeting(w).Done? <==> ReadGreeting(v).Done?
    ensures ReadGreeting(w).Done? ==>
      && ReadGreeting(w).wire.input == ReadGreeting(v).wire.input
      && ReadGreeting(w).wire.output == w.output && ReadGreeting(w).wire.writes == w.writes
  {
  }

  /** An honest peer announces the size of its text and the id it wants requests under. */
  lemma HonestAnnouncement(p: Peer, text: bytes)
    requires Honest(p, text)
    ensures HonestExt(p.ext, |text|)
    ensures Announced(Stream(p)) == Ok(Ext(|text|, p.ext[M].entries[UT_METADATA].n, NumPieces(|text|)))
  {
    hide Encode, Stream, ReadGreeting, ReadExtMessage, ReadExt, Flatten, DataMessages, HonestOffer, ExtMessage, NumPieces;
    ReservedBit(p, text);
    var w := Wire(Stream(p), [], 0);
    GreetingAccepted(w, p);
    var later := NextSignal(w.(input := Flatten(p.frames) + p.tail), p.frames, p.tail);
    SignalFits(p.frames, 0);
    ExtAccepted(p.ext, p.extSuffix, |text|);
  }

  /** The least number of pieces of 16384 bytes that hold the text. */
  lemma PiecesHoldText(size: nat)
    ensures 16384 * (NumPieces(size) - 1) < size <= 16384 * NumPieces(size) || (size == 0 && NumPieces(size) == 0)
  {
  }

  /** For every honest exchange: one request per piece has gone out, under the id the peer announced. */
  lemma HonestPeerIsAsked(w: Wire, p: Peer, v: Value, infoHash: bytes, nodeId: bytes, sha1: bytes -> bytes)
    ensures HonestExchange(w, p, v, infoHash, sha1) ==>
      var text, r := Encode(v), Fetch(w, infoHash, nodeId, sha1);
      && HonestExt(p.ext, |text|) && r.Done?
      && exists hello, msgs ::
           SentFor(Ext(|text|, p.ext[M].entries[UT_METADATA].n, NumPieces(|text|)), hello, msgs, w, r.wire, infoHash, nodeId)
  {
    hide Encode, Stream, Honest, Fetch, Announced, SentFor, NumPieces, HonestExt;
    if HonestExchange(w, p, v, infoHash, sha1) {
      HonestPeerDelivers(w, p, v, infoHash, nodeId, sha1);
      SentOnSuccess(w, infoHash, nodeId, sha1);
      HonestAnnouncement(p, Encode(v));
    }
  }

  lemma PieceBound(size: int)
    requires size <= MAX_METADATA_SIZE
    ensures NumPieces(size) <= MAX_INT
  {
  }

  // ---------- Honest peers exist ----------

  function DataHead(i: int64): map<bytes, Value> {
    map[MSG_TYPE := Int(1), PIECE := Int(i)]
  }

  function ExtDict(size: int64): map<bytes, Value> {
    map[M := Dict(map[UT_METADATA := Int(1)]), METADATA_SIZE := Int(size)]
  }

  lemma DataFits(o: Offer, text: bytes)
    requires HonestOffer(o, text) && o.head == DataHead(o.id) && |text| <= MAX_METADATA_SIZE
    ensures Fits(DataMessage(o, text)) && IsSignal(DataMessage(o, text))
  {
    hide Encode, Chunk;
    IntLength(1);
    IntLength(o.id);
    DictLength(Dict(o.head), 22);
  }

  lemma ExtFits(size: int64)
    requires 0 <= size <= MAX_METADATA_SIZE
    ensures HonestExt(ExtDict(size), size)
    ensures Fits(ExtMessage(ExtDict(size), [])) && IsSignal(ExtMessage(ExtDict(size), []))
  {
    hide Encode;
    var inner := Dict(map[UT_METADATA := Int(1)]);
    IntLength(1);
    IntLength(size);
    DictLength(inner, 22);
    DictLength(Dict(ExtDict(size)), 130);
    ExtEncodes(size);
  }

  lemma ExtEncodes(size: int64)
    ensures Encodable(Dict(ExtDict(size)))
  {
    assert Encodable(Dict(map[UT_METADATA := Int(1)]));
  }

  lemma {:induction false} AllSignals(frames: seq<bytes>)
    requires ShortSignals(frames)
    ensures Signals(frames) == frames && AllFit(frames)
  {
    if frames != [] {
      AllSignals(frames[1..]);
    }
  }

  lemma {:induction false} DataMessagesFit(offers: seq<Offer>, text: bytes)
    requires |text| <= MAX_METADATA_SIZE
    requires forall j :: 0 <= j < |offers| ==> HonestOffer(offers[j], text) && offers[j].head == DataHead(offers[j].id)
    ensures ShortSignals(DataMessages(offers, text))
    decreases |offers|
  {
    hide HonestOffer, DataMessage, DataHead, ShortSignals;
    if offers == [] {
      NoSignals();
    } else {
      DataFits(offers[0], text);
      DataMessagesFit(offers[1..], text);
      MoreSignals(DataMessage(offers[0], text), DataMessages(offers[1..], text));
    }
  }

  predicate ShortSignals(frames: seq<bytes>) {
    forall i :: 0 <= i < |frames| ==> Fits(frames[i]) && IsSignal(frames[i])
  }

  lemma NoSignals()
    ensures ShortSignals([])
  {
  }

  lemma MoreSignals(msg: bytes, frames: seq<bytes>)
    requires Fits(msg) && IsSignal(msg) && ShortSignals(frames)
    ensures ShortSignals([msg] + frames)
  {
  }

  function Offers(n: nat): seq<Offer>
    requires n <= MAX_INT
  {
    seq(n, i requires 0 <= i < n => Offer(1, DataHead(i), i))
  }

  /** For every text within the size limit there is an honest peer that offers it. */
  lemma HonestPeerExists(text: bytes) returns (p: Peer)
    requires |text| <= MAX_METADATA_SIZE
    ensures Honest(p, text)
  {
    hide HonestExt, ExtMessage, DataMessage, HonestOffer, Fits, IsSignal;
    var offers := Offers(NumPieces(|text|));
    OffersHonest(text);
    ExtFits(|text|);
    DataMessagesFit(offers, text);
    var ext, data := ExtMessage(ExtDict(|text|), []), DataMessages(offers, text);
    var frames := [ext] + data;
    MoreSignals(ext, data);
    AllSignals(frames);
    p := Peer(RESERVED, Zeros(40), ExtDict(|text|), [], offers, frames, []);
  }

  lemma OffersHonest(text: bytes)
    requires |text| <= MAX_METADATA_SIZE
    ensures var offers := Offers(NumPieces(|text|));
      forall j :: 0 <= j < |offers| ==> HonestOffer(offers[j], text) && offers[j].head == DataHead(offers[j].id)
  {
    hide Encodable;
    var offers := Offers(NumPieces(|text|));
    forall j | 0 <= j < |offers|
      ensures HonestOffer(offers[j], text) && offers[j].head == DataHead(offers[j].id)
    {
      IntsEncode(j);
    }
  }

  lemma IntsEncode(i: int64)
    ensures Encodable(Dict(DataHead(i)))
  {
  }
}
