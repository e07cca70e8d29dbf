/**
 Batching of new torrents in tracker/internal/svc/tracker.go: messages collect until one more
 makes a full batch, which is then scraped.
 */
module Updater {
  import opened Base
  import Scrape

  // ---------- hex.DecodeString ----------

  function HexDigit(c: byte): Option<nat> {
    if 48 <= c <= 57 then Some(c - 48)
    else if 97 <= c <= 102 then Some(c - 87)
    else if 65 <= c <= 70 then Some(c - 55)
    else None
  }

  function HexDecode(s: bytes): Option<bytes> {
    if s == [] then Some([])
    else if |s| == 1 then None
    else
      match (HexDigit(s[0]), HexDigit(s[1]), HexDecode(s[2..]))
      case (Some(high), Some(low), Some(rest)) => Some([high * 16 + low] + rest)
      case _ => None
  }

  // "0123456789abcdef" and "0123456789ABCDEF".
  const DIGITS: bytes := [48, 49, 50, 51, 52, 53, 54, 55, 56, 57, 97, 98, 99, 100, 101, 102]
  const CAPITALS: bytes := [48, 49, 50, 51, 52, 53, 54, 55, 56, 57, 65, 66, 67, 68, 69, 70]

  /** A digit stands for its place among the sixteen, small or capital. */
  lemma HexDigitExactly(c: byte, d: nat)
    ensures HexDigit(c) == Some(d) <==> d < 16 && (c == DIGITS[d] || c == CAPITALS[d])
  {
  }

  predicate IsHex(c: byte) {
    c in DIGITS || c in CAPITALS
  }

  lemma HexDigitKnown(c: byte)
    ensures HexDigit(c).Some? <==> IsHex(c)
    ensures HexDigit(c).Some? ==> HexDigit(c).value < 16
  {
    if HexDigit(c).Some? {
      HexDigitExactly(c, HexDigit(c).value);
    }
    if c in DIGITS {
      var d :| 0 <= d < |DIGITS| && DIGITS[d] == c;
      HexDigitExactly(c, d);
    }
    if c in CAPITALS {
      var d :| 0 <= d < |CAPITALS| && CAPITALS[d] == c;
      HexDigitExactly(c, d);
    }
  }

  /** A text decodes exactly if it has an even number of characters, all of them digits. */
  lemma {:induction false} DecodesExactly(s: bytes)
    ensures HexDecode(s).Some? <==> |s| % 2 == 0 && forall i :: 0 <= i < |s| ==> IsHex(s[i])
    ensures HexDecode(s).Some? ==> |HexDecode(s).value| == |s| / 2
  {
    hide IsHex, HexDigit;
    if |s| >= 2 {
      HexDigitKnown(s[0]);
      HexDigitKnown(s[1]);
      DecodesExactly(s[2..]);
      assert forall i :: 2 <= i < |s| ==> s[i] == s[2..][i - 2];
      assert forall i :: 0 <= i < |s[2..]| ==> s[2..][i] == s[i + 2];
    } else if |s| == 1 {
      assert |s| % 2 == 1;
    }
  }

  function DigitOf(d: nat): byte
    requires d < 16
  {
    DIGITS[d]
  }

  lemma DigitIsRead(d: nat)
    requires d < 16
    ensures HexDigit(DigitOf(d)) == Some(d)
  {
    HexDigitExactly(DIGITS[d], d);
  }

  /** `hex.EncodeToString`: two digits for each byte, the high one first. */
  function HexText(bs: bytes): bytes {
    if bs == [] then [] else [DigitOf(bs[0] / 16), DigitOf(bs[0] % 16)] + HexText(bs[1..])
  }

  /** Every byte sequence survives its hexadecimal text. */
  lemma {:induction false} HexRoundTrip(bs: bytes)
    ensures HexDecode(HexText(bs)) == Some(bs)
  {
    hide HexDigit, DigitOf;
    if bs != [] {
      var s := HexText(bs);
      DigitIsRead(bs[0] / 16);
      DigitIsRead(bs[0] % 16);
      HexRoundTrip(bs[1..]);
      assert s[2..] == HexText(bs[1..]);
      assert bs == [bs[0]] + bs[1..];
    }
  }

  /** Forty zeros: a hash that every step accepts. */
  function Zeros(n: nat): bytes {
    if n == 0 then [] else [48, 48] + Zeros(n - 1)
  }

  lemma {:induction false} ZerosDecode(n: nat)
    ensures HexDecode(Zeros(n)).Some? && |HexDecode(Zeros(n)).value| == n
  {
    if n > 0 {
      ZerosDecode(n - 1);
      assert Zeros(n)[2..] == Zeros(n - 1);
    }
  }

  // ---------- Batches ----------

  /**
   `batch` holds the info hashes, as text, that wait for a scrape. `spare` tells what lies in
   memory behind the bytes that decoding a text returns. `scraped` and `accepted` record the
   batches that went out and the messages that were acknowledged.
   */
  datatype State = State(
    limit: int, spare: bytes -> bytes, batch: seq<bytes>, scraped: seq<seq<bytes>>, accepted: seq<bytes>)

  /** What the network would do to a scrape. */
  datatype Network = NoConnection | WriteFails | Sent

  /** One message: the info hash of its torrent unless it is malformed. */
  datatype Message = Message(infoHash: Option<bytes>, network: Network)

  /** An acknowledgement, an error, or a panic; the router gives the message back after both of the latter. */
  datatype Verdict = Accepted | Refused | Panicked

  predicate Decodable(batch: seq<bytes>) {
    forall i :: 0 <= i < |batch| ==> HexDecode(batch[i]).Some?
  }

  /** The text decodes, and the result can be cut to 20 bytes. */
  predicate Readable(spare: bytes -> bytes, h: bytes) {
    HexDecode(h).Some? && Scrape.Sliceable(Slice(HexDecode(h).value, spare(h)))
  }

  predicate Scrapable(s: State, batch: seq<bytes>) {
    forall i :: 0 <= i < |batch| ==> Readable(s.spare, batch[i])
  }

  predicate HasRoom(s: State) {
    |s.batch| < s.limit - 1
  }

  function Judge(s: State, msg: Message): Verdict {
    if msg.infoHash.None? then Refused
    else if HasRoom(s) then Accepted
    else
      var b := s.batch + [msg.infoHash.value];
      if !Decodable(b) || msg.network.NoConnection? then Refused
      else if !Scrapable(s, b) then Panicked
      else if msg.network.WriteFails? then Refused
      else Accepted
  }

  /** A message that is not accepted changes nothing. */
  function Handle(s: State, msg: Message): State {
    if !Judge(s, msg).Accepted? then s
    else
      var h := msg.infoHash.value;
      if HasRoom(s) then s.(batch := s.batch + [h], accepted := s.accepted + [h])
      else s.(batch := [], scraped := s.scraped + [s.batch + [h]], accepted := s.accepted + [h])
  }

  function HandleAll(s: State, msgs: seq<Message>): State
    decreases |msgs|
  {
    if msgs == [] then s else HandleAll(Handle(s, msgs[0]), msgs[1..])
  }

  function Empty(limit: int, spare: bytes -> bytes): State {
    State(limit, spare, [], [], [])
  }

  function Concat(batches: seq<seq<bytes>>): seq<bytes> {
    if batches == [] then [] else Concat(batches[..|batches| - 1]) + batches[|batches| - 1]
  }

  lemma ConcatSnoc(batches: seq<seq<bytes>>, b: seq<bytes>)
    ensures Concat(batches + [b]) == Concat(batches) + b
  {
    assert (batches + [b])[..|batches|] == batches;
  }

  function BatchLength(limit: int): nat {
    if limit < 1 then 1 else limit
  }

  /** What went out, then what still waits, is what was accepted, in order; every batch that went out is full. */
  ghost predicate Inv(s: State) {
    && Concat(s.scraped) + s.batch == s.accepted
    && |s.batch| < BatchLength(s.limit)
    && forall i :: 0 <= i < |s.scraped| ==> |s.scraped[i]| == BatchLength(s.limit) && Scrapable(s, s.scraped[i])
  }

  lemma HandleKeeps(s: State, msg: Message)
    requires Inv(s)
    ensures Inv(Handle(s, msg))
  {
    hide HexDecode, Concat, Readable;
    if Judge(s, msg).Accepted? {
      var h := msg.infoHash.value;
      ConcatSnoc(s.scraped, s.batch + [h]);
      NothingScraped();
      assert Concat(s.scraped) + (s.batch + [h]) == Concat(s.scraped) + s.batch + [h];
      assert Concat(s.scraped) + (s.batch + [h]) + [] == Concat(s.scraped) + (s.batch + [h]);
      var s' := Handle(s, msg);
      forall i | 0 <= i < |s'.scraped|
        ensures |s'.scraped[i]| == BatchLength(s.limit) && Scrapable(s', s'.scraped[i])
      {
        assert i < |s.scraped| ==> Scrapable(s, s.scraped[i]);
      }
    }
  }

  lemma NothingScraped()
    ensures Concat([]) == []
  {
  }

  /** For every sequence of messages, malformed ones, failing scrapes and panics included. */
  lemma {:induction false} BatchesInOrder(s: State, msgs: seq<Message>)
    requires Inv(s)
    ensures Inv(HandleAll(s, msgs))
    decreases |msgs|
  {
    hide Inv, Handle;
    if msgs != [] {
      HandleKeeps(s, msgs[0]);
      BatchesInOrder(Handle(s, msgs[0]), msgs[1..]);
    }
  }

  // ---------- The block ----------

  /** The batch is full but for one and holds a hash that cannot go out. */
  predicate Blocked(s: State) {
    !HasRoom(s) && !Scrapable(s, s.batch)
  }

  lemma BlockedJudges(s: State, msg: Message)
    requires Blocked(s)
    ensures !Judge(s, msg).Accepted?
  {
    hide HexDecode;
    if msg.infoHash.Some? {
      var i :| 0 <= i < |s.batch| && !Readable(s.spare, s.batch[i]);
      assert (s.batch + [msg.infoHash.value])[i] == s.batch[i];
    }
  }

  /**
   Info hashes are not looked at until the batch goes out. So one that is not hexadecimal, or too
   short to be cut, is accepted while there is room; once the room is used up no message is ever
   accepted again.
   */
  lemma {:induction false} OneBadHashBlocksForEver(s: State, msgs: seq<Message>)
    requires Blocked(s)
    ensures HandleAll(s, msgs) == s
    decreases |msgs|
  {
    hide Blocked, Judge;
    if msgs != [] {
      BlockedJudges(s, msgs[0]);
      OneBadHashBlocksForEver(s, msgs[1..]);
    }
  }

  /** It is blocked exactly then: otherwise some message is accepted. */
  lemma BlockedExactlyByBadHash(s: State)
    ensures (exists msg :: Judge(s, msg).Accepted?) <==> !Blocked(s)
  {
    hide HexDecode, Zeros;
    if Blocked(s) {
      forall msg
        ensures !Judge(s, msg).Accepted?
      {
        BlockedJudges(s, msg);
      }
    } else {
      ZerosDecode(20);
      var msg := Message(Some(Zeros(20)), Sent);
      var b := s.batch + [Zeros(20)];
      assert Readable(s.spare, Zeros(20));
      if !HasRoom(s) {
        assert forall i :: 0 <= i < |s.batch| ==> b[i] == s.batch[i] && Readable(s.spare, s.batch[i]);
        assert Scrapable(s, b) && Decodable(b);
      }
      assert Judge(s, msg).Accepted?;
    }
  }

  /** Whatever follows a hash that is accepted with room to spare. */
  lemma {:induction false} Fill(s: State, h: bytes, n: nat)
    requires |s.batch| + n < s.limit
    ensures var s' := HandleAll(s, seq(n, _ => Message(Some(h), Sent)));
      s'.batch == s.batch + seq(n, _ => h) && s'.limit == s.limit && s'.spare == s.spare
    decreases n
  {
    hide HexDecode, Readable, Scrapable, Decodable;
    var msgs, hs := seq(n, _ => Message(Some(h), Sent)), seq(n, _ => h);
    if n > 0 {
      var s1 := Handle(s, msgs[0]);
      Fill(s1, h, n - 1);
      assert msgs[1..] == seq(n - 1, _ => Message(Some(h), Sent));
      assert [h] + seq(n - 1, _ => h) == hs;
      assert s.batch + [h] + seq(n - 1, _ => h) == s.batch + hs;
    }
  }

  /** From the start the block can be reached if and only if a batch takes two torrents or more. */
  lemma BlockIsReachable(limit: int, spare: bytes -> bytes)
    ensures (exists msgs :: Blocked(HandleAll(Empty(limit, spare), msgs))) <==> limit >= 2
  {
    var start := Empty(limit, spare);
    if limit >= 2 {
      var msgs := seq(limit - 1, _ => Message(Some([0]), Sent));
      Fill(start, [0], limit - 1);
      var s := HandleAll(start, msgs);
      assert s.batch[0] == [0] && !Readable(spare, [0]);
      assert Blocked(s);
    } else {
      NothingScraped();
      forall msgs
        ensures !Blocked(HandleAll(start, msgs))
      {
        BatchesInOrder(start, msgs);
        LimitStays(start, msgs);
      }
    }
  }

  lemma {:induction false} LimitStays(s: State, msgs: seq<Message>)
    ensures HandleAll(s, msgs).limit == s.limit
    decreases |msgs|
  {
    if msgs != [] {
      LimitStays(Handle(s, msgs[0]), msgs[1..]);
    }
  }

  // ---------- The code ----------

  /** What decoding a text returns. */
  predicate Decodes(spare: bytes -> bytes, text: bytes, hash: Slice) {
    HexDecode(text) == Some(hash.data) && hash.spare == spare(text)
  }

  class TrackerUpdater {
    const trackerLimit: int
    const spare: bytes -> bytes
    const tracker: Scrape.UDPTracker
    var batch: seq<bytes>
    var scrapes: seq<seq<Slice>>
    ghost var scraped: seq<seq<bytes>>
    ghost var accepted: seq<bytes>

    ghost function View(): State
      reads this
    {
      State(trackerLimit, spare, batch, scraped, accepted)
    }

    constructor (limit: int, spare: bytes -> bytes, tracker: Scrape.UDPTracker)
      ensures View() == Empty(limit, spare) && Inv(View()) && scrapes == []
    {
      trackerLimit, this.spare, this.tracker := limit, spare, tracker;
      batch, scrapes, scraped, accepted := [], [], [], [];
    }

    /** The error a scrape returns, or its panic on a hash that cannot be cut. */
    method Scraping(infoHashes: seq<Slice>, network: Network, transactionId: nat) returns (verdict: Verdict)
      ensures verdict.Accepted? <==> network.Sent? && Scrape.AllSliceable(infoHashes)
      ensures verdict.Panicked? <==> !network.NoConnection? && !Scrape.AllSliceable(infoHashes)
    {
      if network.NoConnection? {
        return Refused;
      }
      var packet := tracker.BuildRequest(transactionId, infoHashes);
      if packet.Panic? {
        return Panicked;
      }
      return if network.Sent? then Accepted else Refused;
    }

    /** Says whether the message is acknowledged; a batch that goes out is the decoded form of the recorded one. */
    method HandleNewTorrent(msg: Message, transactionId: nat) returns (verdict: Verdict)
      modifies this
      ensures verdict == Judge(old(View()), msg) && View() == Handle(old(View()), msg)
      ensures scrapes == old(scrapes) || |scrapes| == |old(scrapes)| + 1
      ensures |scraped| > |old(scraped)| ==>
        && scrapes[..|old(scrapes)|] == old(scrapes) && |scrapes| == |old(scrapes)| + 1
        && |scrapes[|old(scrapes)|]| == |scraped[|old(scraped)|]|
        && forall i :: 0 <= i < |scraped[|old(scraped)|]| ==>
             Decodes(spare, scraped[|old(scraped)|][i], scrapes[|old(scrapes)|][i])
    {
      hide HexDecode;
      if msg.infoHash.None? {
        return Refused;
      }
      var t := msg.infoHash.value;
      if |batch| < trackerLimit - 1 {
        batch := batch + [t];
      } else {
        var b := batch + [t];
        var infoHashes: seq<Slice> := [];
        for i := 0 to |b|
          invariant |infoHashes| == i
          invariant forall j :: 0 <= j < i ==> Decodes(spare, b[j], infoHashes[j])
        {
          var hash := HexDecode(b[i]);
          if hash.None? {
            return Refused;
          }
          infoHashes := infoHashes + [Slice(hash.value, spare(b[i]))];
        }
        verdict := Scraping(infoHashes, msg.network, transactionId);
        SliceableMeansReadable(View(), b, infoHashes);
        if !verdict.Accepted? {
          return;
        }
        scrapes := scrapes + [infoHashes];
        scraped := scraped + [b];
        batch := [];
      }
      accepted := accepted + [t];
      return Accepted;
    }
  }

  lemma SliceableMeansReadable(s: State, b: seq<bytes>, infoHashes: seq<Slice>)
    requires |infoHashes| == |b| && forall i :: 0 <= i < |b| ==> Decodes(s.spare, b[i], infoHashes[i])
    ensures Decodable(b) && (Scrape.AllSliceable(infoHashes) <==> Scrapable(s, b))
  {
    hide HexDecode;
    forall i | 0 <= i < |b|
      ensures HexDecode(b[i]).Some? && (Scrape.Sliceable(infoHashes[i]) <==> Readable(s.spare, b[i]))
    {
      assert Decodes(s.spare, b[i], infoHashes[i]);
      assert Slice(HexDecode(b[i]).value, s.spare(b[i])) == infoHashes[i];
    }
    if Scrapable(s, b) {
      forall i | 0 <= i < |infoHashes|
        ensures Scrape.Sliceable(infoHashes[i])
      {
        assert Readable(s.spare, b[i]);
      }
    }
    if Scrape.AllSliceable(infoHashes) {
      forall i | 0 <= i < |b|
        ensures Readable(s.spare, b[i])
      {
        assert Scrape.Sliceable(infoHashes[i]);
      }
    }
  }
}
