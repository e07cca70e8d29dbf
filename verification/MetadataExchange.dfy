/**
 Fetching a torrent's metadata from a peer, common/bittorrent/core.go: the handshake, the
 extension handshake of BEP 10, the piece requests of BEP 9, and reassembly.

 The connection is the bytes the peer will still send, the bytes sent so far and the number
 of writes the socket still accepts; reading past the input is the read error that a closed
 connection or an expired deadline gives.
 */
module MetadataExchange {
  import opened Base
  import opened BencodeValue
  import opened BencodeEncode
  import opened BencodeDecode
  import opened BencodePath

  const PROTOCOL: bytes := Ascii("BitTorrent protocol")
  const RESERVED: bytes := [0, 0, 0, 0, 0, 0x10, 0, 1]
  const PIECE_LENGTH: nat := 16384
  const MAX_METADATA_SIZE: nat := 10_000_000
  const EXT_HANDSHAKE_ID: byte := 0
  const BT_MSG_ID: byte := 20

  // The dictionary keys "metadata_size", "m", "ut_metadata", "msg_type" and "piece".
  const METADATA_SIZE: bytes := [109, 101, 116, 97, 100, 97, 116, 97, 95, 115, 105, 122, 101]
  const M: bytes := [109]
  const UT_METADATA: bytes := [117, 116, 95, 109, 101, 116, 97, 100, 97, 116, 97]
  const MSG_TYPE: bytes := [109, 115, 103, 95, 116, 121, 112, 101]
  const PIECE: bytes := [112, 105, 101, 99, 101]

  datatype Wire = Wire(input: bytes, output: bytes, writes: nat)

  /** One part of the exchange: a value and the wire after it, an `error`, or a panic. */
  datatype Run<+T> = Done(value: T, wire: Wire) | Failed | Panicked

  datatype Ext = Ext(metadataSize: int64, utMetadata: int64, numPieces: int)

  datatype Piece = Piece(id: int64, data: bytes)

  // ---------- What each part does to the wire ----------

  function Wrote(w: Wire, data: bytes): Run<bool> {
    if w.writes == 0 then Failed
    else Done(true, w.(output := w.output + data, writes := w.writes - 1))
  }

  /** `io.ReadFull` of `n` bytes. */
  function Received(w: Wire, n: nat): Run<bytes> {
    if n <= |w.input| then Done(w.input[..n], w.(input := w.input[n..])) else Failed
  }

  function Send(w: Wire, msg: bytes): Run<bool> {
    match Wrote(w, ToBigEndian(|msg|, 4))
    case Done(_, w1) => Wrote(w1, msg)
    case _ => Failed
  }

  function ReadMessage(w: Wire): (r: Run<bytes>)
    ensures r.Done? ==> |r.wire.input| < |w.input|
    ensures !r.Panicked?
  {
    match Received(w, 4)
    case Done(length, w1) => Received(w1, FromBigEndian(length))
    case _ => Failed
  }

  /** Skips empty messages and messages that are not extension messages. */
  function ReadExtMessage(w: Wire): (r: Run<bytes>)
    ensures r.Done? ==> |r.wire.input| < |w.input|
    ensures !r.Panicked?
    decreases |w.input|
  {
    match ReadMessage(w)
    case Done(msg, w1) =>
      if msg == [] || msg[0] != BT_MSG_ID then ReadExtMessage(w1) else Done(msg[1..], w1)
    case _ => Failed
  }

  function Greeting(infoHash: bytes, nodeId: bytes): bytes {
    [|PROTOCOL|] + PROTOCOL + RESERVED + infoHash + nodeId
  }

  predicate SupportsExtensions(reservedByte: byte) {
    reservedByte / 16 % 2 == 1
  }

  function Handshake(w: Wire, infoHash: bytes, nodeId: bytes): Run<bool> {
    match Wrote(w, Greeting(infoHash, nodeId))
    case Done(_, w1) => ReadGreeting(w1)
    case _ => Failed
  }

  function ReadGreeting(w: Wire): Run<bool> {
    match Received(w, 1)
    case Done(length, w1) =>
      (match Received(w1, length[0] as int + 48)
       case Done(data, w2) =>
         if data[..length[0]] != PROTOCOL then Failed
         else if SupportsExtensions(data[length[0]..][5]) then Done(true, w2)
         else Failed
       case _ => Failed)
    case _ => Failed
  }

  const OFFER := Dict(map[M := Dict(map[UT_METADATA := Int(1)])])

  ghost function ExtOffer(): bytes {
    [BT_MSG_ID, EXT_HANDSHAKE_ID] + Encode(OFFER)
  }

  /** The number of pieces, rounded up. */
  function NumPieces(size: int): int {
    (size + (PIECE_LENGTH - 1)) / PIECE_LENGTH
  }

  /** What the peer's extension handshake says. */
  function ReadExt(msg: bytes): (r: Outcome<Ext>)
    ensures r.Ok? ==> r.value.metadataSize <= MAX_METADATA_SIZE
    ensures r.Ok? ==> r.value.numPieces == NumPieces(r.value.metadataSize)
  {
    if msg == [] then Panic
    else if msg[0] != EXT_HANDSHAKE_ID then Err
    else
      match DecodeDict(msg[1..], 0)
      case Bad => Err
      case Crash => Panic
      case Read(ext, _) =>
        var size, ut := IntAt(ext, METADATA_SIZE), IntAt(ext, M + [DOT] + UT_METADATA);
        if size.None? || ut.None? || size.value > MAX_METADATA_SIZE then Err
        else Ok(Ext(size.value, ut.value, NumPieces(size.value)))
  }

  ghost function ExtHandshake(w: Wire): Run<Ext> {
    match Send(w, ExtOffer())
    case Done(_, w1) =>
      (match ReadExtMessage(w1)
       case Done(msg, w2) => Attach(ReadExt(msg), w2)
       case _ => Failed)
    case _ => Failed
  }

  lemma OwnMessagesEncode(i: int64)
    ensures Encodable(OFFER) && Encodable(Request(i))
  {
    assert Encodable(Dict(map[UT_METADATA := Int(1)]));
  }

  function Attach<T>(r: Outcome<T>, w: Wire): Run<T> {
    match r
    case Ok(v) => Done(v, w)
    case Err => Failed
    case Panic => Panicked
  }

  function Request(i: int64): Value {
    Dict(map[MSG_TYPE := Int(0), PIECE := Int(i)])
  }

  ghost function RequestMessage(ext: Ext, i: int64): bytes {
    [BT_MSG_ID, ext.utMetadata % 256] + Encode(Request(i))
  }

  ghost function SendRequests(w: Wire, ext: Ext, i: nat): Run<bool>
    requires ext.numPieces <= MAX_INT
    decreases ext.numPieces - i
  {
    if i >= ext.numPieces then Done(true, w)
    else
      match Send(w, RequestMessage(ext, i))
      case Done(_, w1) => SendRequests(w1, ext, i + 1)
      case _ => Failed
  }

  function OrZero(n: Option<int64>): int64 {
    if n.Some? then n.value else 0
  }

  /** A data message: a bencoded header and the raw piece behind it. */
  function ReadPieceMessage(msg: bytes): (r: Outcome<Piece>)
    ensures r.Ok? ==> |r.value.data| <= PIECE_LENGTH && |r.value.data| <= |msg|
    ensures r.Ok? ==> r.value.data == msg[|msg| - |r.value.data|..]
  {
    if msg == [] then Panic
    else if msg[0] == EXT_HANDSHAKE_ID then Err
    else
      match DecodeDict(msg[1..], 0)
      case Bad => Err
      case Crash => Panic
      case Read(dict, pos) =>
        if pos + 1 > |msg| then Panic
        else
          var trailer := msg[pos + 1..];
          if OrZero(IntAt(dict, MSG_TYPE)) != 1 then Err
          else if |trailer| > PIECE_LENGTH then Err
          else Ok(Piece(OrZero(IntAt(dict, PIECE)), trailer))
  }

  function ReadPiece(w: Wire): Run<Piece> {
    match ReadExtMessage(w)
    case Done(msg, w1) => Attach(ReadPieceMessage(msg), w1)
    case _ => Failed
  }

  function ReadPieces(w: Wire, count: nat): Run<seq<Piece>>
    decreases count
  {
    if count == 0 then Done([], w)
    else
      match ReadPiece(w)
      case Done(piece, w1) =>
        (match ReadPieces(w1, count - 1)
         case Done(rest, w2) => Done([piece] + rest, w2)
         case Failed => Failed
         case Panicked => Panicked)
      case Failed => Failed
      case Panicked => Panicked
  }

  ghost function RequestPieces(w: Wire, ext: Ext): Run<seq<Piece>>
    requires ext.numPieces <= MAX_INT
  {
    match SendRequests(w, ext, 0)
    case Done(_, w1) => ReadPieces(w1, if ext.numPieces < 0 then 0 else ext.numPieces)
    case _ => Failed
  }

  // ---------- Reassembly ----------

  function Min(a: nat, b: nat): nat {
    if a < b then a else b
  }

  /** Where a piece goes; the product is a 64-bit one. */
  function PieceOffset(id: int64): int64 {
    Wrap64(id * PIECE_LENGTH)
  }

  /** `copy(raw[off:], data)`. */
  function Place(raw: bytes, off: int, data: bytes): (r: Outcome<bytes>)
    ensures r.Ok? ==> |r.value| == |raw|
  {
    if off < 0 || off > |raw| then Panic
    else
      var n := Min(|raw| - off, |data|);
      Ok(raw[..off] + data[..n] + raw[off + n..])
  }

  function PlaceAll(raw: bytes, pieces: seq<Piece>): (r: Outcome<bytes>)
    ensures r.Ok? ==> |r.value| == |raw|
    decreases |pieces|
  {
    if pieces == [] then Ok(raw)
    else
      match Place(raw, PieceOffset(pieces[0].id), pieces[0].data)
      case Ok(raw1) => PlaceAll(raw1, pieces[1..])
      case Err => Err
      case Panic => Panic
  }

  function Zeros(n: nat): bytes {
    seq(n, _ => 0)
  }

  function Reassemble(size: int, pieces: seq<Piece>): Outcome<bytes> {
    if size < 0 then Panic else PlaceAll(Zeros(size), pieces)
  }

  function Verify(raw: bytes, infoHash: bytes, sha1: bytes -> bytes): Outcome<map<bytes, Value>> {
    if sha1(raw) != infoHash then Err
    else
      match DecodeDict(raw, 0)
      case Read(metadata, _) => Ok(metadata)
      case Bad => Err
      case Crash => Panic
  }

  function Finish(r: Run<seq<Piece>>, ext: Ext, infoHash: bytes, sha1: bytes -> bytes): Run<map<bytes, Value>> {
    match r
    case Failed => Failed
    case Panicked => Panicked
    case Done(pieces, w) =>
      match Reassemble(ext.metadataSize, pieces)
      case Ok(raw) => Attach(Verify(raw, infoHash, sha1), w)
      case Err => Failed
      case Panic => Panicked
  }

  /** The whole exchange; a panic anywhere in it is still visible here. */
  ghost function Fetch(w: Wire, infoHash: bytes, nodeId: bytes, sha1: bytes -> bytes): Run<map<bytes, Value>> {
    match Handshake(w, infoHash, nodeId)
    case Failed => Failed
    case Panicked => Panicked
    case Done(_, w1) =>
      match ExtHandshake(w1)
      case Failed => Failed
      case Panicked => Panicked
      case Done(ext, w2) => Finish(RequestPieces(w2, ext), ext, infoHash, sha1)
  }

  // ---------- The code, against the functions above ----------

  class Conn {
    var input: bytes
    var output: bytes
    var writes: nat

    constructor (input: bytes, writes: nat)
      ensures State() == Wire(input, [], writes)
    {
      this.input := input;
      this.output := [];
      this.writes := writes;
    }

    function State(): Wire
      reads this
    {
      Wire(input, output, writes)
    }

    method Write(data: bytes) returns (ok: bool)
      modifies this
      ensures ok <==> Wrote(old(State()), data).Done?
      ensures ok ==> State() == Wrote(old(State()), data).wire
    {
      if writes == 0 {
        return false;
      }
      output := output + data;
      writes := writes - 1;
      return true;
    }

    method ReadFull(n: nat) returns (data: Option<bytes>)
      modifies this
      ensures match Received(old(State()), n)
              case Done(d, w) => data == Some(d) && State() == w
              case _ => data == None
    {
      if n > |input| {
        input := [];
        return None;
      }
      data := Some(input[..n]);
      input := input[n..];
    }
  }

  /** The method's result and final wire are what the function says. */
  ghost predicate Matches<T>(spec: Run<T>, r: Outcome<T>, w: Wire) {
    match spec
    case Done(v, w') => r == Ok(v) && w == w'
    case Failed => r == Err
    case Panicked => r == Panic
  }

  class BitTorrent {
    const conn: Conn
    const infoHash: bytes

    constructor (conn: Conn, infoHash: bytes)
      ensures this.conn == conn && this.infoHash == infoHash
    {
      this.conn := conn;
      this.infoHash := infoHash;
    }

    method SendMessage(msg: bytes) returns (r: Outcome<bool>)
      modifies conn
      ensures Matches(Send(old(conn.State()), msg), r, conn.State())
    {
      var ok := conn.Write(ToBigEndian(|msg|, 4));
      if !ok {
        return Err;
      }
      ok := conn.Write(msg);
      if !ok {
        return Err;
      }
      return Ok(true);
    }

    method RunReadMessage() returns (r: Outcome<bytes>)
      modifies conn
      ensures Matches(ReadMessage(old(conn.State())), r, conn.State())
    {
      var length := conn.ReadFull(4);
      if length.None? {
        return Err;
      }
      var msg := conn.ReadFull(FromBigEndian(length.value));
      if msg.None? {
        return Err;
      }
      return Ok(msg.value);
    }

    method RunReadExtMessage() returns (r: Outcome<bytes>)
      modifies conn
      ensures Matches(ReadExtMessage(old(conn.State())), r, conn.State())
    {
      while true
        invariant ReadExtMessage(conn.State()) == ReadExtMessage(old(conn.State()))
        decreases |conn.input|
      {
        var msg := RunReadMessage();
        if !msg.Ok? {
          return Err;
        }
        if |msg.value| == 0 {
          continue;
        }
        if msg.value[0] == BT_MSG_ID {
          return Ok(msg.value[1..]);
        }
      }
    }

    method RunHandshake(nodeId: bytes) returns (r: Outcome<bool>)
      modifies conn
      ensures Matches(Handshake(old(conn.State()), infoHash, nodeId), r, conn.State())
    {
      var pkt := [|PROTOCOL|];
      pkt := pkt + PROTOCOL;
      pkt := pkt + RESERVED;
      pkt := pkt + infoHash;
      pkt := pkt + nodeId;
      var ok := conn.Write(pkt);
      if !ok {
        return Err;
      }
      var length := conn.ReadFull(1);
      if length.None? {
        return Err;
      }
      var n := length.value[0];
      var data := conn.ReadFull(n as int + 48);
      if data.None? {
        return Err;
      }
      if data.value[..n] != PROTOCOL {
        return Err;
      }
      if !SupportsExtensions(data.value[n..][5]) {
        return Err;
      }
      return Ok(true);
    }

    method RunExtHandshake() returns (r: Outcome<Ext>)
      modifies conn
      ensures Matches(ExtHandshake(old(conn.State())), r, conn.State())
    {
      hide Encode, DecodeDict, Walk, Split, ReadExtMessage, Send;
      OwnMessagesEncode(0);
      var p := BEncode(OFFER);
      if !p.Ok? {
        return Err;
      }
      var sent := SendMessage([BT_MSG_ID, EXT_HANDSHAKE_ID] + p.value);
      if !sent.Ok? {
        return Err;
      }
      var msg := RunReadExtMessage();
      if !msg.Ok? {
        return Err;
      }
      if msg.value == [] {
        return Panic;
      }
      if msg.value[0] != EXT_HANDSHAKE_ID {
        return Err;
      }
      var ext := BDecodeDict(msg.value[1..]);
      if ext.Crash? {
        return Panic;
      }
      if ext.Bad? {
        return Err;
      }
      var size, ok1 := GetInt(ext.value, METADATA_SIZE);
      var ut, ok2 := GetInt(ext.value, M + [DOT] + UT_METADATA);
      if !ok1 || !ok2 || size > MAX_METADATA_SIZE {
        return Err;
      }
      return Ok(Ext(size, ut, NumPieces(size)));
    }

    method RequestPiece(ext: Ext, piece: int64) returns (r: Outcome<bool>)
      modifies conn
      ensures Matches(Send(old(conn.State()), RequestMessage(ext, piece)), r, conn.State())
    {
      OwnMessagesEncode(piece);
      var p := BEncode(Request(piece));
      if !p.Ok? {
        return Err;
      }
      r := SendMessage([BT_MSG_ID, ext.utMetadata % 256] + p.value);
    }

    method RunReadPiece() returns (r: Outcome<Piece>)
      modifies conn
      ensures Matches(ReadPiece(old(conn.State())), r, conn.State())
    {
      hide DecodeDict, Walk, Split, ReadExtMessage;
      var got := RunReadExtMessage();
      if !got.Ok? {
        return Err;
      }
      var msg := got.value;
      if msg == [] {
        return Panic;
      }
      if msg[0] == EXT_HANDSHAKE_ID {
        return Err;
      }
      var dict := BDecodeDict(msg[1..]);
      if dict.Crash? {
        return Panic;
      }
      if dict.Bad? {
        return Err;
      }
      if dict.end + 1 > |msg| {
        return Panic;
      }
      var trailer := msg[dict.end + 1..];
      var msgType, _ := GetInt(dict.value, MSG_TYPE);
      if msgType != 1 {
        return Err;
      }
      if |trailer| > PIECE_LENGTH {
        return Err;
      }
      var id, _ := GetInt(dict.value, PIECE);
      return Ok(Piece(id, trailer));
    }

    method RunSendRequests(ext: Ext) returns (r: Outcome<bool>)
      requires ext.numPieces <= MAX_INT
      modifies conn
      ensures Matches(SendRequests(old(conn.State()), ext, 0), r, conn.State())
    {
      var i := 0;
      while i < ext.numPieces
        invariant 0 <= i
        invariant SendRequests(conn.State(), ext, i) == SendRequests(old(conn.State()), ext, 0)
      {
        var sent := RequestPiece(ext, i);
        if !sent.Ok? {
          return Err;
        }
        i := i + 1;
      }
      return Ok(true);
    }

    method RunReadPieces(count: nat) returns (r: Outcome<seq<Piece>>)
      modifies conn
      ensures Matches(ReadPieces(old(conn.State()), count), r, conn.State())
    {
      hide ReadPiece;
      var pieces: seq<Piece> := [];
      ghost var whole := ReadPieces(conn.State(), count);
      AfterNothing(whole);
      for i := 0 to count
        invariant whole == After(pieces, ReadPieces(conn.State(), count - i))
      {
        var piece := RunReadPiece();
        if piece.Err? {
          return Err;
        }
        if piece.Panic? {
          return Panic;
        }
        AfterOne(pieces, piece.value, ReadPieces(conn.State(), count - i - 1));
        pieces := pieces + [piece.value];
      }
      assert pieces + [] == pieces;
      return Ok(pieces);
    }

    method RunRequestPieces(ext: Ext) returns (r: Outcome<seq<Piece>>)
      requires ext.numPieces <= MAX_INT
      modifies conn
      ensures Matches(RequestPieces(old(conn.State()), ext), r, conn.State())
    {
      var sent := RunSendRequests(ext);
      if !sent.Ok? {
        return Err;
      }
      r := RunReadPieces(if ext.numPieces < 0 then 0 else ext.numPieces);
    }

    /** Writes the pieces over `raw` in the order they came. */
    method CopyPieces(raw: array<byte>, pieces: seq<Piece>) returns (ok: bool)
      modifies raw
      ensures ok <==> PlaceAll(old(raw[..]), pieces).Ok?
      ensures ok ==> raw[..] == PlaceAll(old(raw[..]), pieces).value
      ensures !ok ==> PlaceAll(old(raw[..]), pieces).Panic?
    {
      for k := 0 to |pieces|
        invariant PlaceAll(raw[..], pieces[k..]) == PlaceAll(old(raw[..]), pieces)
      {
        assert pieces[k..][0] == pieces[k] && pieces[k..][1..] == pieces[k + 1..];
        var off := PieceOffset(pieces[k].id);
        if off < 0 || off > raw.Length {
          return false;
        }
        CopyAt(raw, off, pieces[k].data);
      }
      return true;
    }

    method Rebuild(size: int64, pieces: seq<Piece>) returns (r: Outcome<bytes>)
      ensures r == Reassemble(size, pieces)
    {
      if size < 0 {
        return Panic;
      }
      var raw := new byte[size](_ => 0);
      assert raw[..] == Zeros(size);
      var ok := CopyPieces(raw, pieces);
      if !ok {
        return Panic;
      }
      return Ok(raw[..]);
    }

    /** Panics of the whole exchange are recovered and reported as an error. */
    method GetMetadata(nodeId: bytes, sha1: bytes -> bytes) returns (r: Outcome<map<bytes, Value>>)
      modifies conn
      ensures match Fetch(old(conn.State()), infoHash, nodeId, sha1)
              case Done(metadata, w) => r == Ok(metadata) && conn.State() == w
              case _ => r == Err
    {
      var greeted := RunHandshake(nodeId);
      if !greeted.Ok? {
        return Err;
      }
      var ext := RunExtHandshake();
      if !ext.Ok? {
        return Err;
      }
      var pieces := RunRequestPieces(ext.value);
      if !pieces.Ok? {
        return Err;
      }
      var raw := Rebuild(ext.value.metadataSize, pieces.value);
      if !raw.Ok? {
        return Err;
      }
      if sha1(raw.value) != infoHash {
        return Err;
      }
      var metadata := BDecodeDict(raw.value);
      if !metadata.Read? {
        return Err;
      }
      return Ok(metadata.value);
    }
  }

  /** Go's `copy`: as many bytes as fit. */
  method CopyAt(raw: array<byte>, off: nat, data: bytes)
    requires off <= raw.Length
    modifies raw
    ensures Place(old(raw[..]), off, data) == Ok(raw[..])
  {
    var n := Min(raw.Length - off, |data|);
    for j := 0 to n
      invariant raw[..] == old(raw[..off]) + data[..j] + old(raw[off + j..])
    {
      raw[off + j] := data[j];
    }
  }

  function After(pieces: seq<Piece>, r: Run<seq<Piece>>): Run<seq<Piece>> {
    match r
    case Done(rest, w) => Done(pieces + rest, w)
    case Failed => Failed
    case Panicked => Panicked
  }

  lemma AfterNothing(r: Run<seq<Piece>>)
    ensures After([], r) == r
  {
    if r.Done? {
      assert [] + r.value == r.value;
    }
  }

  lemma AfterOne(pieces: seq<Piece>, piece: Piece, r: Run<seq<Piece>>)
    ensures After(pieces, After([piece], r)) == After(pieces + [piece], r)
  {
    if r.Done? {
      assert pieces + ([piece] + r.value) == pieces + [piece] + r.value;
    }
  }
}
