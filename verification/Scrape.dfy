/**
 The UDP tracker client of common/bittorrent/tracker/udp.go: Scrapes put their info hashes
 into the expiring cache under a transaction id, and the receive loop matches the tracker's
 answers to them. Messages follow BEP 15.

 The state machine contains the cache's own state machine, so a run is any interleaving of
 Scrapes, answers, duplicates, losses and expiries.
 */
module Scrape {
  import opened Base
  import opened Cache

  const ACTION_CONNECT := 0
  const ACTION_SCRAPE := 2
  const HEADER_SIZE := 8
  const TRIPLE_SIZE := 12
  const BUFFER_SIZE := 2048

  datatype ScrapeResult = ScrapeResult(infoHash: bytes, seeders: nat, completed: nat, leechers: nat)

  // ---------- Messages ----------

  function Word(body: bytes, at: nat): nat
    requires at + 4 <= |body|
  {
    FromBigEndian(body[at..at + 4])
  }

  /** The triple for the `i`-th hash. */
  function ResultAt(hashes: seq<bytes>, body: bytes, i: nat): ScrapeResult
    requires i < |hashes| && TRIPLE_SIZE * (i + 1) <= |body|
  {
    var at := TRIPLE_SIZE * i;
    ScrapeResult(hashes[i], Word(body, at), Word(body, at + 4), Word(body, at + 8))
  }

  /** All results, or nothing if the answer is too short for the hashes that were asked. */
  function Results(hashes: seq<bytes>, body: bytes): (r: Option<seq<ScrapeResult>>)
    ensures r.Some? <==> TRIPLE_SIZE * |hashes| <= |body|
    ensures r.Some? ==> |r.value| == |hashes|
    ensures r.Some? ==> forall i :: 0 <= i < |hashes| ==> r.value[i] == ResultAt(hashes, body, i)
  {
    if TRIPLE_SIZE * |hashes| > |body| then None
    else Some(seq(|hashes|, i requires 0 <= i < |hashes| => ResultAt(hashes, body, i)))
  }

  // The answer of BEP 15, written out.

  /** Seeders, completed and leechers of each hash, four bytes each. */
  function Triples(results: seq<ScrapeResult>): bytes {
    if results == [] then []
    else
      var r := results[0];
      ToBigEndian(r.seeders, 4) + ToBigEndian(r.completed, 4) + ToBigEndian(r.leechers, 4) + Triples(results[1..])
  }

  predicate FourByteCounts(results: seq<ScrapeResult>) {
    forall i :: 0 <= i < |results| ==>
      results[i].seeders < 0x1_0000_0000 && results[i].completed < 0x1_0000_0000 && results[i].leechers < 0x1_0000_0000
  }

  /** The results are for these hashes, in this order. */
  predicate ForHashes(results: seq<ScrapeResult>, hashes: seq<bytes>) {
    |results| == |hashes| && forall i :: 0 <= i < |hashes| ==> results[i].infoHash == hashes[i]
  }

  lemma FirstTriple(hashes: seq<bytes>, body: bytes)
    requires hashes != [] && TRIPLE_SIZE * |hashes| <= |body|
    ensures Results(hashes, body).value ==
            [ResultAt(hashes, body, 0)] + Results(hashes[1..], body[TRIPLE_SIZE..]).value
  {
    hide Word;
    var all, later := Results(hashes, body).value, Results(hashes[1..], body[TRIPLE_SIZE..]).value;
    forall i | 0 <= i < |later|
      ensures all[i + 1] == later[i]
    {
      var at := TRIPLE_SIZE * i;
      WordFurther(body, at);
      WordFurther(body, at + 4);
      WordFurther(body, at + 8);
      assert TRIPLE_SIZE * (i + 1) == at + TRIPLE_SIZE;
    }
  }

  lemma WordFurther(body: bytes, at: nat)
    requires TRIPLE_SIZE + at + 4 <= |body|
    ensures Word(body[TRIPLE_SIZE..], at) == Word(body, TRIPLE_SIZE + at)
  {
    assert body[TRIPLE_SIZE..][at..at + 4] == body[TRIPLE_SIZE + at..TRIPLE_SIZE + at + 4];
  }

  lemma WordsOf(a: nat, b: nat, c: nat, rest: bytes)
    requires a < 0x1_0000_0000 && b < 0x1_0000_0000 && c < 0x1_0000_0000
    ensures var body := ToBigEndian(a, 4) + ToBigEndian(b, 4) + ToBigEndian(c, 4) + rest;
      Word(body, 0) == a && Word(body, 4) == b && Word(body, 8) == c && body[TRIPLE_SIZE..] == rest
  {
    hide FromBigEndian, ToBigEndian;
    var body := ToBigEndian(a, 4) + ToBigEndian(b, 4) + ToBigEndian(c, 4) + rest;
    assert Pow256(4) == 0x1_0000_0000;
    BigEndianRoundTrip(a, 4);
    BigEndianRoundTrip(b, 4);
    BigEndianRoundTrip(c, 4);
    assert body[0..4] == ToBigEndian(a, 4) && body[4..8] == ToBigEndian(b, 4) && body[8..12] == ToBigEndian(c, 4);
  }

  /** Every list of results, written out as an answer with anything behind it, is read back as that list. */
  lemma {:induction false} AnswerIsRead(results: seq<ScrapeResult>, hashes: seq<bytes>, rest: bytes)
    requires FourByteCounts(results) && ForHashes(results, hashes)
    ensures Results(hashes, Triples(results) + rest) == Some(results)
    decreases |results|
  {
    hide Word, ToBigEndian;
    if results != [] {
      var r, body := results[0], Triples(results) + rest;
      var later := Triples(results[1..]) + rest;
      assert body == ToBigEndian(r.seeders, 4) + ToBigEndian(r.completed, 4) + ToBigEndian(r.leechers, 4) + later;
      WordsOf(r.seeders, r.completed, r.leechers, later);
      AnswerIsRead(results[1..], hashes[1..], rest);
      FirstTriple(hashes, body);
      assert results == [r] + results[1..];
    }
  }

  /** And whatever is read is what the answer says, word for word. */
  lemma {:induction false} ReadIsAnswer(hashes: seq<bytes>, body: bytes)
    requires Results(hashes, body).Some?
    ensures var results := Results(hashes, body).value;
      FourByteCounts(results) && ForHashes(results, hashes) && body[..TRIPLE_SIZE * |hashes|] == Triples(results)
    decreases |hashes|
  {
    hide Word, ToBigEndian;
    if hashes != [] {
      ReadIsAnswer(hashes[1..], body[TRIPLE_SIZE..]);
      FirstTriple(hashes, body);
      var results, r := Results(hashes, body).value, ResultAt(hashes, body, 0);
      assert results[1..] == Results(hashes[1..], body[TRIPLE_SIZE..]).value;
      WordWritten(body, 0);
      WordWritten(body, 4);
      WordWritten(body, 8);
      var n := TRIPLE_SIZE * |hashes|;
      assert body[..n] == body[0..4] + body[4..8] + body[8..12] + body[TRIPLE_SIZE..][..n - TRIPLE_SIZE];
    }
  }

  lemma WordWritten(body: bytes, at: nat)
    requires at + 4 <= |body|
    ensures ToBigEndian(Word(body, at), 4) == body[at..at + 4] && Word(body, at) < 0x1_0000_0000
  {
    BigEndianInverse(body[at..at + 4]);
    FromBigEndianBound(body[at..at + 4]);
    assert Pow256(4) == 0x1_0000_0000;
  }

  /** `hash[:20]` reaches into the spare capacity of a slice that is shorter. */
  predicate Sliceable(hash: Slice) {
    |hash.Reach()| >= 20
  }

  predicate AllSliceable(hashes: seq<Slice>) {
    forall i :: 0 <= i < |hashes| ==> Sliceable(hashes[i])
  }

  function Concat(hashes: seq<Slice>): bytes
    requires AllSliceable(hashes)
  {
    if hashes == [] then [] else hashes[0].Reach()[..20] + Concat(hashes[1..])
  }

  function ScrapePacket(connectionId: nat, transactionId: nat, hashes: seq<Slice>): bytes
    requires AllSliceable(hashes)
  {
    ToBigEndian(connectionId, 8) + ToBigEndian(ACTION_SCRAPE, 4) + ToBigEndian(transactionId, 4) + Concat(hashes)
  }

  lemma {:induction false} ConcatSlot(hashes: seq<Slice>, i: nat)
    requires i < |hashes| && AllSliceable(hashes)
    ensures |Concat(hashes)| == 20 * |hashes|
    ensures Concat(hashes)[20 * i..20 * i + 20] == hashes[i].Reach()[..20]
    decreases |hashes|
  {
    var rest := hashes[1..];
    if i > 0 {
      ConcatSlot(rest, i - 1);
      assert Concat(hashes)[20 * i..20 * i + 20] == Concat(rest)[20 * (i - 1)..20 * (i - 1) + 20];
    } else if rest != [] {
      ConcatSlot(rest, 0);
    }
  }

  /**
   The tracker finds the connection id, the action, the transaction id, and the `i`-th hash in the
   `i`-th slot of the request, filled up from its spare capacity if it is too short.
   */
  lemma RequestSlots(connectionId: nat, transactionId: nat, hashes: seq<Slice>, i: nat)
    requires i < |hashes| && AllSliceable(hashes)
    requires connectionId < 0x1_0000_0000_0000_0000 && transactionId < 0x1_0000_0000
    ensures var p, hash := ScrapePacket(connectionId, transactionId, hashes), hashes[i];
      && |p| == 16 + 20 * |hashes|
      && FromBigEndian(p[..8]) == connectionId && p[8..12] == [0, 0, 0, 2] && FromBigEndian(p[12..16]) == transactionId
      && var slot := p[16 + 20 * i..36 + 20 * i];
        if |hash.data| >= 20 then slot == hash.data[..20] else slot == hash.data + hash.spare[..20 - |hash.data|]
  {
    var p, body := ScrapePacket(connectionId, transactionId, hashes), Concat(hashes);
    ConcatSlot(hashes, i);
    assert Pow256(4) == 0x1_0000_0000;
    assert Pow256(8) == 0x1_0000_0000_0000_0000;
    BigEndianRoundTrip(connectionId, 8);
    BigEndianRoundTrip(transactionId, 4);
    assert p[..8] == ToBigEndian(connectionId, 8) && p[12..16] == ToBigEndian(transactionId, 4);
    TwoInFour();
    assert p[8..12] == ToBigEndian(ACTION_SCRAPE, 4);
    assert p[16..] == body;
    assert p[16 + 20 * i..36 + 20 * i] == p[16..][20 * i..20 * i + 20];
  }

  lemma TwoInFour()
    ensures ToBigEndian(2, 4) == [0, 0, 0, 2] && FromBigEndian([0, 0, 0, 2]) == 2 && FromBigEndian([0, 0, 0, 0]) == 0
  {
    assert ToBigEndian(2, 4) == ToBigEndian(0, 3) + [2] && ToBigEndian(0, 3) == ToBigEndian(0, 2) + [0];
    assert ToBigEndian(0, 2) == ToBigEndian(0, 1) + [0] && ToBigEndian(0, 1) == [0];
    FourBytes(0, 0, 0, 2);
    FourBytes(0, 0, 0, 0);
  }

  function Hashes(slices: seq<Slice>): (r: seq<bytes>)
    ensures |r| == |slices| && forall i :: 0 <= i < |r| ==> r[i] == slices[i].data
  {
    seq(|slices|, i requires 0 <= i < |slices| => slices[i].data)
  }

  // ---------- State ----------

  /** What a Scrape stores; `serial` numbers the calls and is not part of the stored value in the source. */
  datatype Ask = Ask(serial: nat, transactionId: nat, hashes: seq<bytes>)

  /** A delivered batch; `at` is the position in the run of the packet it was read from. */
  datatype Batch = Batch(serial: nat, at: nat, results: seq<ScrapeResult>)

  /**
   - `link` says that a socket is open, `dialing` counts the calls that found none and are about to
     open one;
   - `reading` counts the receive loops that read, `handing` those that hand over the news of a
     connection to a Scrape that waits for it;
   - `waiters` counts those Scrapes, `ready` the ones that may go on;
   - `starting` are the Scrapes between pushing their token and storing their hashes;
   - `issued`, `batches` and `lost` record what was asked, what was delivered, and which Scrapes
     expired, got an answer that was too short or were displaced by one with the same id;
   - `trace` is the run so far.
   */
  datatype Tracker = Tracker(
    cache: State<nat, Ask>, link: bool, dialing: nat, connectionId: nat, reading: nat, handing: nat,
    waiters: nat, ready: nat, starting: set<nat>, issued: seq<Ask>, batches: seq<Batch>, lost: set<nat>,
    trace: seq<Event>)

  /**
   `DialUnsent` is a connection whose first packet could not be sent: the socket stays, but no
   receive loop starts. `Abandon` is a Scrape that panics on a hash it cannot slice.
   */
  datatype Event =
    | FindNoSocket
    | Dial
    | DialUnsent
    | Stop
    | Check
    | Handover
    | Issue(transactionId: nat, hashes: seq<Slice>)
    | Abandon(hashes: seq<Slice>)
    | Keep(serial: nat)
    | Receive(packet: bytes)
    | ReadFails
    | Expire(step: Action<nat, Ask>)

  function Start(): Tracker {
    Tracker(Empty(), false, 0, 0, 0, 0, 0, 0, {}, [], [], {}, [])
  }

  predicate IsExpiry(a: Action<nat, Ask>) {
    a.Fire? || a.Callback? || a.TakeToken?
  }

  /** Only the answer to a Scrape touches the cache. */
  predicate NeedsLock(buf: bytes) {
    |buf| >= HEADER_SIZE && Word(buf, 0) == ACTION_SCRAPE
  }

  predicate EventEnabled(size: nat, s: Tracker, e: Event) {
    match e
    case FindNoSocket => !s.link
    case Dial => s.dialing > 0
    case DialUnsent => s.dialing > 0 && s.connectionId == 0
    case Stop => true
    case Check => true
    case Handover => s.handing > 0 && s.waiters > 0
    case Issue(tx, hashes) =>
      s.ready > 0 && AllSliceable(hashes) && Enabled(Config(size, true), s.cache, Push(tx))
    case Abandon(hashes) => s.ready > 0 && !AllSliceable(hashes)
    case Keep(serial) =>
      && serial in s.starting && serial < |s.issued|
      && Enabled(Config(size, true), s.cache, Store(s.issued[serial].transactionId, s.issued[serial]))
    case Receive(packet) => s.reading > 0 && (NeedsLock(Truncated(packet)) ==> !s.cache.waiting)
    case ReadFails => s.reading > 0
    case Expire(a) => IsExpiry(a) && Enabled(Config(size, true), s.cache, a)
  }

  function Disconnect(s: Tracker): Tracker {
    if s.link then s.(link := false, connectionId := 0) else s
  }

  /** A receive loop that ends takes the connection down. */
  function LoopEnds(s: Tracker): Tracker
    requires s.reading > 0
  {
    Disconnect(s).(reading := s.reading - 1)
  }

  /** `GetAndRemove`, whose lock is held until the token is taken. */
  function Forget(c: State<nat, Ask>, tx: nat): State<nat, Ask> {
    var c1 := Deleting(c, tx);
    if tx in c.data && c1.tokens != [] then c1.(tokens := c1.tokens[1..], waiting := false) else c1
  }

  function HandleScrape(s: Tracker, tx: nat, body: bytes, at: nat): Tracker
    requires s.reading > 0
  {
    if tx !in s.cache.data then s
    else
      var ask := s.cache.data[tx].value;
      var s1 := s.(cache := Forget(s.cache, tx));
      match Results(ask.hashes, body)
      case None => LoopEnds(s1.(lost := s1.lost + {ask.serial}))
      case Some(results) => s1.(batches := s1.batches + [Batch(ask.serial, at, results)])
  }

  function HandleConnect(s: Tracker, body: bytes): Tracker
    requires s.reading > 0
  {
    if |body| < 8 then LoopEnds(s)
    else s.(connectionId := FromBigEndian(body[..8]), reading := s.reading - 1, handing := s.handing + 1)
  }

  /** The Scrape stored under an id, if there is one. */
  function SerialAt(c: State<nat, Ask>, tx: nat): set<nat> {
    if tx in c.data then {c.data[tx].value.serial} else {}
  }

  function Truncated(packet: bytes): bytes {
    if |packet| <= BUFFER_SIZE then packet else packet[..BUFFER_SIZE]
  }

  /** What a receive loop makes of the packet at position `at` of the run. */
  function Handle(s: Tracker, packet: bytes, at: nat): Tracker
    requires s.reading > 0
  {
    var buf := Truncated(packet);
    if |buf| < HEADER_SIZE then LoopEnds(s)
    else
      var action, tx, body := Word(buf, 0), Word(buf, 4), buf[HEADER_SIZE..];
      if action == ACTION_CONNECT then HandleConnect(s, body)
      else if action == ACTION_SCRAPE then HandleScrape(s, tx, body, at)
      else LoopEnds(s)
  }

  function Logged(s: Tracker, e: Event): Tracker {
    s.(trace := s.trace + [e])
  }

  function Step(size: nat, before: Tracker, e: Event): Tracker
    requires EventEnabled(size, before, e)
  {
    var config, s := Config(size, true), Logged(before, e);
    match e
    case FindNoSocket => s.(dialing := s.dialing + 1)
    case Dial => s.(dialing := s.dialing - 1, link := true, reading := s.reading + 1)
    case DialUnsent => s.(dialing := s.dialing - 1, link := true)
    case Stop => Disconnect(s)
    case Check => if s.connectionId == 0 then s.(waiters := s.waiters + 1) else s.(ready := s.ready + 1)
    case Handover =>
      s.(waiters := s.waiters - 1, ready := s.ready + 1, handing := s.handing - 1, reading := s.reading + 1)
    case Issue(tx, hashes) =>
      var serial := |s.issued|;
      s.(ready := s.ready - 1, cache := Apply(config, s.cache, Push(tx)),
         starting := s.starting + {serial}, issued := s.issued + [Ask(serial, tx, Hashes(hashes))])
    case Abandon(_) => s.(ready := s.ready - 1)
    case Keep(serial) =>
      var ask := s.issued[serial];
      s.(starting := s.starting - {serial}, cache := Apply(config, s.cache, Store(ask.transactionId, ask)),
         lost := s.lost + SerialAt(s.cache, ask.transactionId))
    case Receive(packet) => Handle(s, packet, |before.trace|)
    case ReadFails => LoopEnds(s)
    case Expire(a) =>
      s.(cache := Apply(config, s.cache, a),
         lost := s.lost + if a.Callback? then SerialAt(s.cache, s.cache.fired[a.timer]) else {})
  }

  ghost predicate ValidEvents(size: nat, s: Tracker, run: seq<Event>)
    decreases |run|
  {
    run == [] || (EventEnabled(size, s, run[0]) && ValidEvents(size, Step(size, s, run[0]), run[1..]))
  }

  ghost function AfterEvents(size: nat, s: Tracker, run: seq<Event>): Tracker
    requires ValidEvents(size, s, run)
    decreases |run|
  {
    if run == [] then s else AfterEvents(size, Step(size, s, run[0]), run[1..])
  }

  lemma {:induction false} TraceIsRun(size: nat, s: Tracker, run: seq<Event>)
    requires ValidEvents(size, s, run)
    ensures AfterEvents(size, s, run).trace == s.trace + run
    decreases |run|
  {
    hide Step, EventEnabled;
    if run == [] {
      assert s.trace + run == s.trace;
    } else {
      StepLogs(size, s, run[0]);
      TraceIsRun(size, Step(size, s, run[0]), run[1..]);
      assert s.trace + [run[0]] + run[1..] == s.trace + run;
    }
  }

  lemma StepLogs(size: nat, s: Tracker, e: Event)
    requires EventEnabled(size, s, e)
    ensures Step(size, s, e).trace == s.trace + [e]
  {
    hide EventEnabled, Apply, Forget, Results;
  }

  // ---------- Matching ----------

  /** What a run asked, in order. */
  function Asks(trace: seq<Event>): seq<Ask> {
    if trace == [] then []
    else
      var before, last := Asks(trace[..|trace| - 1]), trace[|trace| - 1];
      if last.Issue? then before + [Ask(|before|, last.transactionId, Hashes(last.hashes))] else before
  }

  /** The Scrape had stored its hashes before position `at`. */
  ghost predicate KeptBefore(trace: seq<Event>, serial: nat, at: nat)
    requires at <= |trace|
  {
    exists k :: 0 <= k < at && trace[k] == Keep(serial)
  }

  /**
   The packet at `b.at` is a Scrape answer under the id that the Scrape sent, the Scrape had
   stored its hashes by then, and the results pair its i-th hash with the i-th triple.
   */
  ghost predicate Answers(trace: seq<Event>, asks: seq<Ask>, b: Batch) {
    && b.at < |trace| && trace[b.at].Receive? && b.serial < |asks|
    && KeptBefore(trace, b.serial, b.at)
    && var buf := Truncated(trace[b.at].packet);
      && NeedsLock(buf) && Word(buf, 4) == asks[b.serial].transactionId
      && Results(asks[b.serial].hashes, buf[HEADER_SIZE..]) == Some(b.results)
  }

  /** Every stored value is the Scrape that was issued under that id and is neither starting nor answered. */
  ghost predicate StoredAsIssued(s: Tracker) {
    forall tx :: tx in s.cache.data ==> Stored(s, tx, s.cache.data[tx].value)
  }

  ghost predicate Stored(s: Tracker, tx: nat, ask: Ask) {
    && ask.serial < |s.issued| && s.issued[ask.serial] == ask && ask.transactionId == tx
    && ask.serial !in s.starting
    && Unanswered(s, ask.serial)
    && KeptBefore(s.trace, ask.serial, |s.trace|)
  }

  ghost predicate Unanswered(s: Tracker, serial: nat) {
    forall j :: 0 <= j < |s.batches| ==> s.batches[j].serial != serial
  }

  ghost predicate StartingFresh(s: Tracker) {
    forall serial :: serial in s.starting ==> serial < |s.issued| && Unanswered(s, serial)
  }

  ghost predicate BatchesAnswer(s: Tracker) {
    forall j :: 0 <= j < |s.batches| ==> Answers(s.trace, s.issued, s.batches[j])
  }

  /** No Scrape yields two batches, and no packet does. */
  ghost predicate AtMostOnce(batches: seq<Batch>) {
    forall i, j :: 0 <= i < j < |batches| ==>
      batches[i].serial != batches[j].serial && batches[i].at < batches[j].at
  }

  ghost predicate Numbered(s: Tracker) {
    forall i :: 0 <= i < |s.issued| ==> s.issued[i].serial == i
  }

  ghost predicate Matched(s: Tracker) {
    StoredAsIssued(s) && StartingFresh(s) && Numbered(s) && BatchesAnswer(s) && AtMostOnce(s.batches)
  }

  ghost predicate TrackerInv(size: nat, s: Tracker) {
    Inv(Config(size, true), s.cache) && Matched(s) && s.issued == Asks(s.trace)
  }

  lemma CacheStep(size: nat, c: State<nat, Ask>, a: Action<nat, Ask>)
    requires Inv(Config(size, true), c) && Enabled(Config(size, true), c, a)
    ensures Inv(Config(size, true), Apply(Config(size, true), c, a))
  {
    hide TokenLaw, Bounded, TimersLive, Apply, Enabled;
    StepKeepsTokenLaw(Config(size, true), c, a);
    StepKeepsBounds(Config(size, true), c, a);
    StepKeepsTimers(Config(size, true), c, a);
  }

  /** In blocking mode the lock holder always finds its token. */
  lemma ForgetIsTwoSteps(size: nat, c: State<nat, Ask>, tx: nat)
    requires Inv(Config(size, true), c) && !c.waiting
    ensures Inv(Config(size, true), Forget(c, tx))
    ensures Forget(c, tx).data == c.data - {tx} && !Forget(c, tx).waiting
  {
    hide TimersLive;
    var config := Config(size, true);
    CacheStep(size, c, Remove(tx));
    var c1 := Apply(config, c, Remove(tx));
    if tx in c.data {
      CacheStep(size, c1, TakeToken);
    } else {
      assert c.data == c.data - {tx};
    }
  }

  // The matching facts look at the stored values alone.

  ghost predicate Shrinks(c: State<nat, Ask>, c': State<nat, Ask>) {
    forall tx :: tx in c'.data ==> tx in c.data && c'.data[tx] == c.data[tx]
  }

  lemma StillKept(trace: seq<Event>, trace': seq<Event>, serial: nat, at: nat)
    requires at <= |trace| && trace <= trace' && KeptBefore(trace, serial, at)
    ensures KeptBefore(trace', serial, at) && KeptBefore(trace', serial, |trace'|)
  {
    var k :| 0 <= k < at && trace[k] == Keep(serial);
    assert trace'[k] == Keep(serial);
  }

  /** A batch answers its Scrape whatever happens later. */
  lemma StillAnswers(trace: seq<Event>, asks: seq<Ask>, trace': seq<Event>, asks': seq<Ask>, b: Batch)
    requires Answers(trace, asks, b) && trace <= trace' && asks <= asks'
    ensures Answers(trace', asks', b)
  {
    StillKept(trace, trace', b.serial, b.at);
  }

  lemma LogKeepsMatched(s: Tracker, e: Event)
    requires Matched(s)
    ensures Matched(Logged(s, e))
  {
    var s' := Logged(s, e);
    forall tx | tx in s'.cache.data
      ensures Stored(s', tx, s'.cache.data[tx].value)
    {
      assert Stored(s, tx, s.cache.data[tx].value);
      assert Unanswered(s, s.cache.data[tx].value.serial);
      StillKept(s.trace, s'.trace, s.cache.data[tx].value.serial, |s.trace|);
    }
    forall j | 0 <= j < |s'.batches|
      ensures Answers(s'.trace, s'.issued, s'.batches[j])
    {
      StillAnswers(s.trace, s.issued, s'.trace, s'.issued, s.batches[j]);
    }
    forall serial | serial in s'.starting
      ensures serial < |s'.issued| && Unanswered(s', serial)
    {
      assert Unanswered(s, serial);
    }
  }

  lemma ShrinkKeepsMatched(s: Tracker, s': Tracker)
    requires Matched(s) && Shrinks(s.cache, s'.cache)
    requires s'.starting == s.starting && s'.issued == s.issued && s'.batches == s.batches && s'.trace == s.trace
    ensures Matched(s')
  {
    forall tx | tx in s'.cache.data
      ensures Stored(s', tx, s'.cache.data[tx].value)
    {
      assert Stored(s, tx, s.cache.data[tx].value);
      assert Unanswered(s, s.cache.data[tx].value.serial);
    }
    forall j | 0 <= j < |s'.batches|
      ensures Answers(s'.trace, s'.issued, s'.batches[j])
    {
      assert Answers(s.trace, s.issued, s.batches[j]);
    }
    assert forall serial :: serial in s.starting ==> Unanswered(s, serial) ==> Unanswered(s', serial);
  }

  lemma IssueKeepsMatched(s: Tracker, s': Tracker, ask: Ask)
    requires Matched(s) && ask.serial == |s.issued| && s'.cache.data == s.cache.data
    requires s'.starting == s.starting + {ask.serial} && s'.issued == s.issued + [ask]
    requires s'.batches == s.batches && s'.trace == s.trace
    ensures Matched(s')
  {
    forall x | x in s'.cache.data
      ensures Stored(s', x, s'.cache.data[x].value)
    {
      assert Stored(s, x, s.cache.data[x].value);
      assert Unanswered(s, s.cache.data[x].value.serial);
    }
    forall j | 0 <= j < |s'.batches|
      ensures Answers(s'.trace, s'.issued, s'.batches[j]) && s'.batches[j].serial != ask.serial
    {
      StillAnswers(s.trace, s.issued, s'.trace, s'.issued, s.batches[j]);
    }
    forall serial | serial in s'.starting
      ensures serial < |s'.issued| && Unanswered(s', serial)
    {
      assert serial == ask.serial || Unanswered(s, serial);
    }
  }

  lemma KeepKeepsMatched(s: Tracker, s': Tracker, serial: nat)
    requires Matched(s) && serial in s.starting && serial < |s.issued|
    requires s.trace != [] && s.trace[|s.trace| - 1] == Keep(serial)
    requires s'.starting == s.starting - {serial} && s'.issued == s.issued
    requires s'.batches == s.batches && s'.trace == s.trace
    requires forall x :: x in s'.cache.data ==>
      if x == s.issued[serial].transactionId then s'.cache.data[x].value == s.issued[serial]
      else x in s.cache.data && s'.cache.data[x] == s.cache.data[x]
    ensures Matched(s')
  {
    forall x | x in s'.cache.data
      ensures Stored(s', x, s'.cache.data[x].value)
    {
      if x != s.issued[serial].transactionId {
        assert Stored(s, x, s.cache.data[x].value);
        assert Unanswered(s, s.cache.data[x].value.serial);
      } else {
        assert Unanswered(s, serial);
      }
    }
    forall j | 0 <= j < |s'.batches|
      ensures Answers(s'.trace, s'.issued, s'.batches[j])
    {
      assert Answers(s.trace, s.issued, s.batches[j]);
    }
    forall x | x in s'.starting
      ensures x < |s'.issued| && Unanswered(s', x)
    {
      assert Unanswered(s, x);
    }
  }

  /** The batch of a stored Scrape, read from the packet that was logged last. */
  lemma BatchAnswers(s: Tracker, packet: bytes, results: seq<ScrapeResult>)
    requires Matched(s) && s.trace != [] && s.trace[|s.trace| - 1] == Receive(packet)
    requires var buf := Truncated(packet);
      && NeedsLock(buf) && Word(buf, 4) in s.cache.data
      && Results(s.cache.data[Word(buf, 4)].value.hashes, buf[HEADER_SIZE..]) == Some(results)
    ensures var ask := s.cache.data[Word(Truncated(packet), 4)].value;
      Answers(s.trace, s.issued, Batch(ask.serial, |s.trace| - 1, results))
  {
    hide Results, Truncated, Word;
    var tx := Word(Truncated(packet), 4);
    var ask := s.cache.data[tx].value;
    assert Stored(s, tx, ask);
    var k :| 0 <= k < |s.trace| && s.trace[k] == Keep(ask.serial);
    assert k < |s.trace| - 1;
  }

  /** Handing out the batch of a stored Scrape, whose entry is gone from the cache. */
  lemma BatchKeepsMatched(s: Tracker, s': Tracker, tx: nat, b: Batch)
    requires Matched(s) && tx in s.cache.data && Shrinks(s.cache, s'.cache) && tx !in s'.cache.data
    requires b.serial == s.cache.data[tx].value.serial && Answers(s.trace, s.issued, b)
    requires forall j :: 0 <= j < |s.batches| ==> s.batches[j].at < b.at
    requires s'.starting == s.starting && s'.issued == s.issued && s'.trace == s.trace
    requires s'.batches == s.batches + [b]
    ensures Matched(s')
  {
    hide Answers, KeptBefore;
    var ask := s.cache.data[tx].value;
    assert Stored(s, tx, ask);
    forall x | x in s'.cache.data
      ensures Stored(s', x, s'.cache.data[x].value)
    {
      assert Stored(s, x, s.cache.data[x].value);
      assert Unanswered(s, s.cache.data[x].value.serial);
    }
    forall j | 0 <= j < |s'.batches|
      ensures Answers(s'.trace, s'.issued, s'.batches[j])
    {
      assert j < |s.batches| ==> Answers(s.trace, s.issued, s.batches[j]);
    }
    forall x | x in s'.starting
      ensures x < |s'.issued| && Unanswered(s', x)
    {
      assert Unanswered(s, x);
    }
    assert Unanswered(s, ask.serial);
  }

  /** Batches were read from packets before the one that is logged now. */
  lemma BatchesBefore(s: Tracker, e: Event)
    requires Matched(s)
    ensures forall j :: 0 <= j < |s.batches| ==> Logged(s, e).batches[j].at < |s.trace|
  {
    forall j | 0 <= j < |s.batches|
      ensures s.batches[j].at < |s.trace|
    {
      assert Answers(s.trace, s.issued, s.batches[j]);
    }
  }

  lemma ReceiveKeepsInv(size: nat, before: Tracker, packet: bytes)
    requires Inv(Config(size, true), before.cache) && Matched(before) && EventEnabled(size, before, Receive(packet))
    ensures var s' := Step(size, before, Receive(packet));
      Inv(Config(size, true), s'.cache) && Matched(s') && s'.issued == before.issued
  {
    hide Matched, Inv, Results, Forget, Truncated, Word, Answers;
    LogKeepsMatched(before, Receive(packet));
    BatchesBefore(before, Receive(packet));
    var s, s', buf := Logged(before, Receive(packet)), Step(size, before, Receive(packet)), Truncated(packet);
    if !NeedsLock(buf) || Word(buf, 4) !in s.cache.data {
      ShrinkKeepsMatched(s, s');
    } else {
      var tx, body := Word(buf, 4), buf[HEADER_SIZE..];
      ForgetIsTwoSteps(size, s.cache, tx);
      var ask := s.cache.data[tx].value;
      if Results(ask.hashes, body).None? {
        ShrinkKeepsMatched(s, s');
      } else {
        var results := Results(ask.hashes, body).value;
        BatchAnswers(s, packet, results);
        BatchKeepsMatched(s, s', tx, Batch(ask.serial, |before.trace|, results));
      }
    }
  }

  lemma ExpiryShrinks(size: nat, c: State<nat, Ask>, a: Action<nat, Ask>)
    requires IsExpiry(a) && Enabled(Config(size, true), c, a)
    ensures Shrinks(c, Apply(Config(size, true), c, a))
  {
  }

  lemma StepAsks(size: nat, s: Tracker, e: Event)
    requires EventEnabled(size, s, e) && s.issued == Asks(s.trace)
    ensures Step(size, s, e).issued == Asks(Step(size, s, e).trace)
  {
    hide Apply, Enabled, Forget, Results, Truncated, Word, AllSliceable, Hashes;
    StepLogs(size, s, e);
    assert (s.trace + [e])[..|s.trace|] == s.trace;
  }

  lemma StepMatches(size: nat, s: Tracker, e: Event)
    requires Matched(s) && Inv(Config(size, true), s.cache) && EventEnabled(size, s, e) && !e.Receive?
    ensures Matched(Step(size, s, e))
  {
    hide Matched, Inv, Enabled, Handle, Truncated, AllSliceable, Hashes;
    LogKeepsMatched(s, e);
    var s1, s' := Logged(s, e), Step(size, s, e);
    match e {
      case Issue(tx, hashes) => IssueKeepsMatched(s1, s', Ask(|s.issued|, tx, Hashes(hashes)));
      case Keep(serial) => KeepKeepsMatched(s1, s', serial);
      case Expire(a) =>
        ExpiryShrinks(size, s.cache, a);
        ShrinkKeepsMatched(s1, s');
      case _ => ShrinkKeepsMatched(s1, s');
    }
  }

  lemma StepKeepsCache(size: nat, s: Tracker, e: Event)
    requires Inv(Config(size, true), s.cache) && EventEnabled(size, s, e) && !e.Receive?
    ensures Inv(Config(size, true), Step(size, s, e).cache)
  {
    hide Inv, Apply, Enabled, Handle, Truncated, AllSliceable, Hashes;
    match e {
      case Issue(tx, hashes) => CacheStep(size, s.cache, Push(tx));
      case Keep(serial) => CacheStep(size, s.cache, Store(s.issued[serial].transactionId, s.issued[serial]));
      case Expire(a) => CacheStep(size, s.cache, a);
      case _ =>
    }
  }

  lemma StepKeepsTracker(size: nat, s: Tracker, e: Event)
    requires TrackerInv(size, s) && EventEnabled(size, s, e)
    ensures TrackerInv(size, Step(size, s, e))
  {
    hide Matched, Inv, Step, EventEnabled, Asks;
    StepAsks(size, s, e);
    match e {
      case Receive(packet) => ReceiveKeepsInv(size, s, packet);
      case _ =>
        StepMatches(size, s, e);
        StepKeepsCache(size, s, e);
    }
  }

  lemma {:induction false} EventsKeepInv(size: nat, s: Tracker, run: seq<Event>)
    requires TrackerInv(size, s) && ValidEvents(size, s, run)
    ensures TrackerInv(size, AfterEvents(size, s, run))
    decreases |run|
  {
    hide TrackerInv, Step, EventEnabled;
    if run != [] {
      StepKeepsTracker(size, s, run[0]);
      EventsKeepInv(size, Step(size, s, run[0]), run[1..]);
    }
  }

  /**
   In every run every batch answers a Scrape of that run: it was read from a packet that came
   under the Scrape's id after its hashes were stored, and pairs the i-th hash with the i-th
   triple. No Scrape and no packet yields two batches, and no more Scrapes are outstanding than
   the queue has room for.
   */
  lemma ScrapesMatch(size: nat, run: seq<Event>)
    requires ValidEvents(size, Start(), run)
    ensures var s := AfterEvents(size, Start(), run);
      && (forall j :: 0 <= j < |s.batches| ==> Answers(run, Asks(run), s.batches[j]))
      && AtMostOnce(s.batches) && |s.cache.data| <= size
  {
    hide Answers, Asks;
    StartIsMatched(size);
    EventsKeepInv(size, Start(), run);
    TraceIsRun(size, Start(), run);
    assert Start().trace + run == run;
  }

  /** A packet that answers `transactionId` with these results. */
  ghost predicate Conveys(packet: bytes, transactionId: nat, results: seq<ScrapeResult>) {
    && transactionId < 0x1_0000_0000 && FourByteCounts(results)
    && [0, 0, 0, 2] + ToBigEndian(transactionId, 4) + Triples(results) <= packet
  }

  lemma AnswersConveys(trace: seq<Event>, asks: seq<Ask>, b: Batch)
    requires Answers(trace, asks, b)
    ensures Conveys(trace[b.at].packet, asks[b.serial].transactionId, b.results)
    ensures ForHashes(b.results, asks[b.serial].hashes)
  {
    hide Results, Word, ToBigEndian, Triples;
    var packet := trace[b.at].packet;
    var buf, n := Truncated(packet), TRIPLE_SIZE * |asks[b.serial].hashes|;
    ReadIsAnswer(asks[b.serial].hashes, buf[HEADER_SIZE..]);
    WordWritten(buf, 0);
    WordWritten(buf, 4);
    TwoInFour();
    assert buf[..HEADER_SIZE + n] == buf[0..4] + buf[4..8] + buf[HEADER_SIZE..][..n];
    assert buf[..HEADER_SIZE + n] <= packet;
  }

  lemma {:induction false} AsksGrow(trace: seq<Event>, k: nat)
    requires k <= |trace|
    ensures Asks(trace[..k]) <= Asks(trace)
    decreases |trace|
  {
    if k < |trace| {
      var before := trace[..|trace| - 1];
      AsksGrow(before, k);
      assert before[..k] == trace[..k];
    } else {
      assert trace[..k] == trace;
    }
  }

  /** The `serial`-th Scrape of a run is its `serial`-th Issue. */
  lemma {:induction false} AskIsIssue(trace: seq<Event>, serial: nat) returns (m: nat)
    requires serial < |Asks(trace)|
    ensures m < |trace| && trace[m].Issue? && |Asks(trace[..m])| == serial
    ensures Asks(trace)[serial] == Ask(serial, trace[m].transactionId, Hashes(trace[m].hashes))
    decreases |trace|
  {
    var last := |trace| - 1;
    var before := trace[..last];
    if serial < |Asks(before)| {
      m := AskIsIssue(before, serial);
      assert before[..m] == trace[..m];
    } else {
      m := last;
    }
  }

  lemma {:induction false} EventsSplit(size: nat, s: Tracker, r1: seq<Event>, r2: seq<Event>)
    requires ValidEvents(size, s, r1 + r2)
    ensures ValidEvents(size, s, r1) && ValidEvents(size, AfterEvents(size, s, r1), r2)
    decreases |r1|
  {
    hide Step, EventEnabled;
    if r1 == [] {
      assert r1 + r2 == r2;
    } else {
      assert (r1 + r2)[0] == r1[0] && (r1 + r2)[1..] == r1[1..] + r2;
      EventsSplit(size, Step(size, s, r1[0]), r1[1..], r2);
    }
  }

  /** A Scrape stores its hashes after it was issued. */
  lemma KeptWasIssued(size: nat, run: seq<Event>, k: nat, serial: nat)
    requires ValidEvents(size, Start(), run) && k < |run| && run[k] == Keep(serial)
    ensures serial < |Asks(run[..k])|
  {
    hide AfterEvents, TrackerInv, Asks;
    assert run == run[..k] + run[k..];
    EventsSplit(size, Start(), run[..k], run[k..]);
    StartIsMatched(size);
    EventsKeepInv(size, Start(), run[..k]);
    TraceIsRun(size, Start(), run[..k]);
    assert Start().trace + run[..k] == run[..k];
    AsksAreIssued(size, AfterEvents(size, Start(), run[..k]));
    assert run[k..][0] == Keep(serial);
  }

  lemma AsksAreIssued(size: nat, s: Tracker)
    requires TrackerInv(size, s)
    ensures s.issued == Asks(s.trace)
  {
  }

  /**
   In every run every batch is the answer to a Scrape of that run, byte for byte: the Scrape was
   issued at `m` and stored its hashes at `k`; then the packet at `at` came, with its id and with
   the counts of the batch, one triple for each of its hashes in their order.
   */
  lemma BatchTellsAnswer(size: nat, run: seq<Event>, j: nat) returns (m: nat, k: nat)
    requires ValidEvents(size, Start(), run) && j < |AfterEvents(size, Start(), run).batches|
    ensures var b := AfterEvents(size, Start(), run).batches[j];
      && m < k < b.at < |run| && run[m].Issue? && run[k] == Keep(b.serial) && run[b.at].Receive?
      && |Asks(run[..m])| == b.serial
      && Conveys(run[b.at].packet, run[m].transactionId, b.results)
      && ForHashes(b.results, Hashes(run[m].hashes))
  {
    hide AfterEvents, Asks, Conveys, ForHashes, NeedsLock, Results, Truncated, Word, ValidEvents;
    ScrapesMatch(size, run);
    var b := AfterEvents(size, Start(), run).batches[j];
    assert Answers(run, Asks(run), b);
    AnswersConveys(run, Asks(run), b);
    k :| 0 <= k < b.at && run[k] == Keep(b.serial);
    KeptWasIssued(size, run, k, b.serial);
    m := AskIsIssue(run[..k], b.serial);
    AsksGrow(run, k);
    assert run[..k][..m] == run[..m];
  }

  lemma StartIsMatched(size: nat)
    ensures TrackerInv(size, Start()) && Accounted(Start())
  {
  }

  /** An answer to an outstanding Scrape that fits the buffer is delivered as the next batch, with its counts. */
  lemma AnswerIsDelivered(size: nat, s: Tracker, packet: bytes, serial: nat, results: seq<ScrapeResult>)
    requires TrackerInv(size, s) && EventEnabled(size, s, Receive(packet)) && Outstanding(s, serial)
    requires Conveys(packet, s.issued[serial].transactionId, results) && ForHashes(results, s.issued[serial].hashes)
    requires |results| <= 170
    ensures var s' := Step(size, s, Receive(packet));
      && s'.batches == s.batches + [Batch(serial, |s.trace|, results)]
      && !Outstanding(s', serial) && s'.reading == s.reading
  {
    hide Inv, Asks, Results, Forget, Triples, ToBigEndian, Word;
    var tx := s.issued[serial].transactionId;
    assert Stored(s, tx, s.cache.data[tx].value);
    ConveyedIsRead(packet, tx, results, s.issued[serial].hashes);
    ForgetIsTwoSteps(size, s.cache, tx);
  }

  lemma {:induction false} TriplesLength(results: seq<ScrapeResult>)
    ensures |Triples(results)| == TRIPLE_SIZE * |results|
  {
    if results != [] {
      TriplesLength(results[1..]);
    }
  }

  lemma ConveyedIsRead(packet: bytes, tx: nat, results: seq<ScrapeResult>, hashes: seq<bytes>)
    requires Conveys(packet, tx, results) && ForHashes(results, hashes) && |results| <= 170
    ensures var buf := Truncated(packet);
      && NeedsLock(buf) && Word(buf, 4) == tx && Results(hashes, buf[HEADER_SIZE..]) == Some(results)
  {
    hide Results, Triples, ToBigEndian;
    TriplesLength(results);
    var text, buf := Triples(results), Truncated(packet);
    var answer := [0, 0, 0, 2] + ToBigEndian(tx, 4) + text;
    assert |answer| <= BUFFER_SIZE && answer <= buf;
    assert buf[0..4] == answer[0..4] == [0, 0, 0, 2] && buf[4..8] == answer[4..8] == ToBigEndian(tx, 4);
    TwoInFour();
    assert Pow256(4) == 0x1_0000_0000;
    BigEndianRoundTrip(tx, 4);
    var rest := buf[|answer|..];
    assert buf == answer + rest;
    assert buf[HEADER_SIZE..] == text + rest;
    AnswerIsRead(results, hashes, rest);
  }

  // ---------- Accounting ----------

  ghost predicate Outstanding(s: Tracker, serial: nat) {
    && serial < |s.issued| && s.issued[serial].transactionId in s.cache.data
    && s.cache.data[s.issued[serial].transactionId].value.serial == serial
  }

  /** Every Scrape is somewhere, and a lost one is nowhere else. */
  ghost predicate Accounted(s: Tracker) {
    && (forall serial :: 0 <= serial < |s.issued| ==>
          serial in s.starting || serial in s.lost || Outstanding(s, serial) || !Unanswered(s, serial))
    && (forall serial :: serial in s.lost ==>
          serial < |s.issued| && serial !in s.starting && !Outstanding(s, serial) && Unanswered(s, serial))
  }

  /** Same records, and every outstanding Scrape that is no longer outstanding is lost now. */
  lemma LosingAccounts(s: Tracker, s': Tracker)
    requires Matched(s) && Accounted(s) && Shrinks(s.cache, s'.cache)
    requires s'.starting == s.starting && s'.issued == s.issued && s'.batches == s.batches
    requires s.lost <= s'.lost
    requires forall serial :: serial in s'.lost && serial !in s.lost ==> Outstanding(s, serial) && !Outstanding(s', serial)
    requires forall tx :: tx in s.cache.data && tx !in s'.cache.data ==> s.cache.data[tx].value.serial in s'.lost
    ensures Accounted(s')
  {
    forall serial | 0 <= serial < |s'.issued|
      ensures serial in s'.starting || serial in s'.lost || Outstanding(s', serial) || !Unanswered(s', serial)
    {
      assert Unanswered(s', serial) <==> Unanswered(s, serial);
    }
    forall serial | serial in s'.lost
      ensures serial < |s'.issued| && serial !in s'.starting && !Outstanding(s', serial) && Unanswered(s', serial)
    {
      assert Unanswered(s', serial) <==> Unanswered(s, serial);
      if serial !in s.lost {
        var tx := s.issued[serial].transactionId;
        assert Stored(s, tx, s.cache.data[tx].value);
      } else {
        assert Outstanding(s', serial) ==> Outstanding(s, serial);
      }
    }
  }

  lemma BatchAccounts(s: Tracker, s': Tracker, tx: nat)
    requires Matched(s) && Accounted(s) && tx in s.cache.data && Shrinks(s.cache, s'.cache)
    requires s'.cache.data.Keys == s.cache.data.Keys - {tx}
    requires s'.starting == s.starting && s'.issued == s.issued && s'.lost == s.lost
    requires |s'.batches| == |s.batches| + 1 && s'.batches[..|s.batches|] == s.batches
    requires s'.batches[|s.batches|].serial == s.cache.data[tx].value.serial
    ensures Accounted(s')
  {
    var last := |s.batches|;
    assert forall j :: 0 <= j < last ==> s'.batches[j] == s.batches[j];
    assert Stored(s, tx, s.cache.data[tx].value);
    forall serial | 0 <= serial < |s'.issued|
      ensures serial in s'.starting || serial in s'.lost || Outstanding(s', serial) || !Unanswered(s', serial)
    {
      if !Unanswered(s, serial) {
        var j :| 0 <= j < last && s.batches[j].serial == serial;
        assert s'.batches[j].serial == serial;
      } else if Outstanding(s, serial) && s.issued[serial].transactionId == tx {
        assert s'.batches[last].serial == serial;
      }
    }
    forall serial | serial in s'.lost
      ensures !Outstanding(s', serial) && Unanswered(s', serial)
    {
      assert !Outstanding(s, serial) && Unanswered(s, serial);
      assert Outstanding(s, s.cache.data[tx].value.serial);
    }
  }

  lemma IssueAccounts(size: nat, s: Tracker, tx: nat, hashes: seq<Slice>)
    requires Matched(s) && Accounted(s) && EventEnabled(size, s, Issue(tx, hashes))
    ensures Accounted(Step(size, s, Issue(tx, hashes)))
  {
    var s' := Step(size, s, Issue(tx, hashes));
    forall serial | 0 <= serial < |s'.issued|
      ensures serial in s'.starting || serial in s'.lost || Outstanding(s', serial) || !Unanswered(s', serial)
    {
      if serial < |s.issued| {
        assert Outstanding(s, serial) ==> Outstanding(s', serial);
        assert Unanswered(s', serial) ==> Unanswered(s, serial);
      }
    }
    forall serial | serial in s'.lost
      ensures serial !in s'.starting && !Outstanding(s', serial) && Unanswered(s', serial)
    {
      assert Unanswered(s, serial) && !Outstanding(s, serial);
    }
  }

  lemma KeepAccounts(size: nat, s: Tracker, serial: nat)
    requires Matched(s) && Accounted(s) && EventEnabled(size, s, Keep(serial))
    ensures Accounted(Step(size, s, Keep(serial)))
  {
    hide Answers, KeptBefore, Handle, BatchesAnswer, AtMostOnce, LoopEnds, Disconnect;
    var s' := Step(size, s, Keep(serial));
    var tx := s.issued[serial].transactionId;
    assert tx in s.cache.data ==> Stored(s, tx, s.cache.data[tx].value);
    forall x | 0 <= x < |s'.issued|
      ensures x in s'.starting || x in s'.lost || Outstanding(s', x) || !Unanswered(s', x)
    {
      assert Unanswered(s', x) ==> Unanswered(s, x);
    }
    forall x | x in s'.lost
      ensures x < |s'.issued| && x !in s'.starting && !Outstanding(s', x) && Unanswered(s', x)
    {
      assert x in s.lost ==> Unanswered(s, x) && !Outstanding(s, x);
      assert Unanswered(s, x);
    }
  }

  lemma ExpireAccounts(size: nat, s: Tracker, a: Action<nat, Ask>)
    requires Matched(s) && Accounted(s) && EventEnabled(size, s, Expire(a))
    ensures Accounted(Step(size, s, Expire(a)))
  {
    hide Matched, Accounted;
    var s' := Step(size, s, Expire(a));
    ExpiryShrinks(size, s.cache, a);
    if a.Callback? && s.cache.fired[a.timer] in s.cache.data {
      StoredIsOutstanding(s, s.cache.fired[a.timer]);
    }
    LosingAccounts(s, s');
  }

  lemma StoredIsOutstanding(s: Tracker, tx: nat)
    requires Matched(s) && tx in s.cache.data
    ensures Outstanding(s, s.cache.data[tx].value.serial)
    ensures s.issued[s.cache.data[tx].value.serial].transactionId == tx
  {
    assert Stored(s, tx, s.cache.data[tx].value);
  }

  lemma ReceiveAccounts(size: nat, s: Tracker, packet: bytes)
    requires TrackerInv(size, s) && Accounted(s) && EventEnabled(size, s, Receive(packet))
    ensures Accounted(Step(size, s, Receive(packet)))
  {
    hide Matched, Inv, Results, Forget, Truncated, Accounted, Word, Asks;
    var s', buf := Step(size, s, Receive(packet)), Truncated(packet);
    if !NeedsLock(buf) || Word(buf, 4) !in s.cache.data {
      LosingAccounts(s, s');
    } else {
      var tx, body := Word(buf, 4), buf[HEADER_SIZE..];
      ForgetIsTwoSteps(size, s.cache, tx);
      StoredIsOutstanding(s, tx);
      if Results(s.cache.data[tx].value.hashes, body).None? {
        LosingAccounts(s, s');
      } else {
        BatchAccounts(s, s', tx);
      }
    }
  }

  lemma StepAccounts(size: nat, s: Tracker, e: Event)
    requires TrackerInv(size, s) && Accounted(s) && EventEnabled(size, s, e)
    ensures Accounted(Step(size, s, e))
  {
    hide Matched, Inv, Apply, Enabled, Handle, Truncated, Accounted, AllSliceable, Hashes, Asks;
    match e {
      case Issue(tx, hashes) => IssueAccounts(size, s, tx, hashes);
      case Keep(serial) => KeepAccounts(size, s, serial);
      case Receive(packet) => ReceiveAccounts(size, s, packet);
      case Expire(a) => ExpireAccounts(size, s, a);
      case _ => LosingAccounts(s, Step(size, s, e));
    }
  }

  lemma {:induction false} EventsAccount(size: nat, s: Tracker, run: seq<Event>)
    requires TrackerInv(size, s) && Accounted(s) && ValidEvents(size, s, run)
    ensures Accounted(AfterEvents(size, s, run))
    decreases |run|
  {
    hide TrackerInv, Step, EventEnabled, Accounted;
    if run != [] {
      StepKeepsTracker(size, s, run[0]);
      StepAccounts(size, s, run[0]);
      EventsAccount(size, Step(size, s, run[0]), run[1..]);
    }
  }

  function Count(a: bool, b: bool, c: bool, d: bool): nat {
    (if a then 1 else 0) + (if b then 1 else 0) + (if c then 1 else 0) + (if d then 1 else 0)
  }

  /** In every run every Scrape is exactly one of: starting, outstanding, answered, lost. */
  lemma EveryScrapeAccounted(size: nat, run: seq<Event>, serial: nat)
    requires ValidEvents(size, Start(), run) && serial < |AfterEvents(size, Start(), run).issued|
    ensures var s := AfterEvents(size, Start(), run);
      Count(serial in s.starting, Outstanding(s, serial), !Unanswered(s, serial), serial in s.lost) == 1
  {
    StartIsMatched(size);
    EventsKeepInv(size, Start(), run);
    EventsAccount(size, Start(), run);
    var s := AfterEvents(size, Start(), run);
    if Outstanding(s, serial) {
      var tx := s.issued[serial].transactionId;
      assert Stored(s, tx, s.cache.data[tx].value);
    }
  }

  /** An answer under an id that is not outstanding changes nothing. */
  lemma UnknownIdIgnored(s: Tracker, packet: bytes, at: nat)
    requires s.reading > 0 && NeedsLock(Truncated(packet)) && Word(Truncated(packet), 4) !in s.cache.data
    ensures Handle(s, packet, at) == s
  {
  }

  /** The packet begins with these four bytes and holds at least eight. */
  predicate Begins(buf: bytes, action: bytes) {
    |buf| >= 8 && action <= buf
  }

  /**
   What ends a receive loop: a packet of fewer than eight bytes or with an unknown action, a
   connection answer without an id, or an answer to an outstanding Scrape that is too short for its
   hashes. Everything else leaves it reading, or handing over a connection.
   */
  lemma LoopEndsExactly(s: Tracker, packet: bytes, at: nat)
    requires s.reading > 0
    ensures var s', buf := Handle(s, packet, at), Truncated(packet);
      && (s'.reading + s'.handing == s.reading + s.handing - 1 <==>
          || !(Begins(buf, [0, 0, 0, 0]) || Begins(buf, [0, 0, 0, 2]))
          || (Begins(buf, [0, 0, 0, 0]) && |buf| < 16)
          || (Begins(buf, [0, 0, 0, 2]) && Word(buf, 4) in s.cache.data
              && |buf| < 8 + 12 * |s.cache.data[Word(buf, 4)].value.hashes|))
      && (s'.reading + s'.handing == s.reading + s.handing - 1 ==> !s'.link && (s.link ==> s'.connectionId == 0))
      && (s'.handing == s.handing + 1 <==> Begins(buf, [0, 0, 0, 0]) && |buf| >= 16)
      && (s'.handing == s.handing + 1 ==> s'.connectionId == FromBigEndian(buf[8..16]) && s'.reading == s.reading - 1)
  {
    hide Word, Results, Forget;
    var buf := Truncated(packet);
    if |buf| >= 8 {
      ActionWord(buf);
      assert |buf| < 16 || buf[HEADER_SIZE..][..8] == buf[8..16];
    }
  }

  lemma ActionWord(buf: bytes)
    requires |buf| >= 8
    ensures Word(buf, 0) == 0 <==> Begins(buf, [0, 0, 0, 0])
    ensures Word(buf, 0) == 2 <==> Begins(buf, [0, 0, 0, 2])
  {
    FourBytes(buf[0], buf[1], buf[2], buf[3]);
    assert buf[0..4] == [buf[0], buf[1], buf[2], buf[3]];
  }

  /** The read buffer bounds the hashes of one Scrape: with more than 170 of them every answer is refused. */
  lemma TooManyHashes(s: Tracker, packet: bytes, at: nat)
    requires s.reading > 0 && NeedsLock(Truncated(packet)) && Word(Truncated(packet), 4) in s.cache.data
    requires |s.cache.data[Word(Truncated(packet), 4)].value.hashes| > 170
    ensures var s' := Handle(s, packet, at);
      s'.batches == s.batches && s'.reading == s.reading - 1 && !s'.link
  {
  }

  // ---------- Distinct ids ----------

  /** Every Scrape of the run draws an id that no outstanding Scrape has. */
  ghost predicate DistinctIds(size: nat, s: Tracker, run: seq<Event>)
    requires ValidEvents(size, s, run)
    decreases |run|
  {
    run != [] ==>
      && (run[0].Issue? ==> run[0].transactionId !in s.cache.data && run[0].transactionId !in s.cache.pending)
      && DistinctIds(size, Step(size, s, run[0]), run[1..])
  }

  ghost predicate Undisturbed(c: State<nat, Ask>) {
    && c.overwrites == 0
    && forall tx :: tx in c.pending ==> c.pending[tx] == 1 && tx !in c.data
  }

  lemma StepUndisturbed(size: nat, s: Tracker, e: Event)
    requires EventEnabled(size, s, e) && Undisturbed(s.cache)
    requires e.Issue? ==> e.transactionId !in s.cache.data && e.transactionId !in s.cache.pending
    ensures Undisturbed(Step(size, s, e).cache)
  {
    hide *;
    match e {
      case Issue(tx, hashes) => IssueUndisturbed(size, s, tx, hashes);
      case Keep(serial) => KeepUndisturbed(size, s, serial);
      case Receive(packet) => ReceiveUndisturbed(size, s, packet);
      case Expire(a) => ExpireUndisturbed(size, s, a);
      case _ => OtherUndisturbed(size, s, e);
    }
  }

  lemma IssueUndisturbed(size: nat, s: Tracker, tx: nat, hashes: seq<Slice>)
    requires EventEnabled(size, s, Issue(tx, hashes)) && Undisturbed(s.cache)
    requires tx !in s.cache.data && tx !in s.cache.pending
    ensures Undisturbed(Step(size, s, Issue(tx, hashes)).cache)
  {
    hide Handle;
  }

  lemma KeepUndisturbed(size: nat, s: Tracker, serial: nat)
    requires EventEnabled(size, s, Keep(serial)) && Undisturbed(s.cache)
    ensures Undisturbed(Step(size, s, Keep(serial)).cache)
  {
    hide Handle;
  }

  lemma ExpireUndisturbed(size: nat, s: Tracker, a: Action<nat, Ask>)
    requires EventEnabled(size, s, Expire(a)) && Undisturbed(s.cache)
    ensures Undisturbed(Step(size, s, Expire(a)).cache)
  {
    hide Handle;
  }

  lemma OtherUndisturbed(size: nat, s: Tracker, e: Event)
    requires EventEnabled(size, s, e) && Undisturbed(s.cache)
    requires !(e.Issue? || e.Keep? || e.Receive? || e.Expire?)
    ensures Undisturbed(Step(size, s, e).cache)
  {
    hide Handle, Undisturbed;
  }

  lemma ReceiveUndisturbed(size: nat, s: Tracker, packet: bytes)
    requires EventEnabled(size, s, Receive(packet)) && Undisturbed(s.cache)
    ensures Undisturbed(Step(size, s, Receive(packet)).cache)
  {
    hide Results, Word, Truncated;
  }

  /** With distinct ids no Scrape displaces another, so none is lost but to expiry or a bad answer. */
  lemma {:induction false} DistinctIdsNeverDisplace(size: nat, s: Tracker, run: seq<Event>)
    requires ValidEvents(size, s, run) && Undisturbed(s.cache) && DistinctIds(size, s, run)
    ensures AfterEvents(size, s, run).cache.overwrites == 0
    decreases |run|
  {
    hide EventEnabled, Step, Undisturbed;
    if run == [] {
      UndisturbedMeans(s.cache);
    } else {
      StepUndisturbed(size, s, run[0]);
      DistinctIdsNeverDisplace(size, Step(size, s, run[0]), run[1..]);
    }
  }

  lemma UndisturbedMeans(c: State<nat, Ask>)
    requires Undisturbed(c)
    ensures c.overwrites == 0
  {
  }

  // ---------- The connection handover ----------

  predicate ConnectAnswer(packet: bytes) {
    var buf := Truncated(packet);
    |buf| >= HEADER_SIZE + 8 && Word(buf, 0) == ACTION_CONNECT
  }

  /** The answer of BEP 15 to a connection request. */
  function ConnectPacket(transactionId: nat, connectionId: nat): bytes {
    [0, 0, 0, 0] + ToBigEndian(transactionId, 4) + ToBigEndian(connectionId, 8)
  }

  lemma ConnectPacketConnects(transactionId: nat, connectionId: nat)
    requires connectionId < 0x1_0000_0000_0000_0000
    ensures var p := ConnectPacket(transactionId, connectionId);
      ConnectAnswer(p) && !NeedsLock(Truncated(p)) && FromBigEndian(Truncated(p)[HEADER_SIZE..][..8]) == connectionId
  {
    var p := ConnectPacket(transactionId, connectionId);
    assert Pow256(8) == 0x1_0000_0000_0000_0000;
    TwoInFour();
    BigEndianRoundTrip(connectionId, 8);
    assert p[0..4] == [0, 0, 0, 0];
    assert p[HEADER_SIZE..][..8] == ToBigEndian(connectionId, 8);
  }

  ghost predicate NoStop(run: seq<Event>) {
    forall i :: 0 <= i < |run| ==> !run[i].Stop?
  }

  /**
   No loop reads, none is about to start, and none can be released: the loops that hand over have
   nobody to hand to, because whoever comes finds the connection there.
   */
  predicate Silent(s: Tracker) {
    && s.link && s.reading == 0 && s.dialing == 0
    && (s.handing == 0 || (s.waiters == 0 && s.connectionId != 0))
  }

  lemma StepStaysSilent(size: nat, s: Tracker, e: Event)
    requires Silent(s) && EventEnabled(size, s, e) && !e.Stop?
    ensures var s' := Step(size, s, e);
      && Silent(s') && s'.batches == s.batches && s'.waiters >= s.waiters
      && s'.handing == s.handing && s'.connectionId == s.connectionId
  {
    hide Apply, Enabled, AllSliceable, Hashes, Handle;
  }

  /** A silent tracker stays silent in every run without a Stop: no batch is delivered and nobody is released. */
  lemma {:induction false} SilentUntilStop(size: nat, s: Tracker, run: seq<Event>)
    requires Silent(s) && ValidEvents(size, s, run) && NoStop(run)
    ensures var s' := AfterEvents(size, s, run);
      && Silent(s') && s'.batches == s.batches && s'.waiters >= s.waiters
      && s'.handing == s.handing && s'.connectionId == s.connectionId
    decreases |run|
  {
    hide Silent, Step, EventEnabled;
    if run != [] {
      StepStaysSilent(size, s, run[0]);
      assert NoStop(run[1..]);
      SilentUntilStop(size, Step(size, s, run[0]), run[1..]);
    }
  }

  /** Some run without a Stop has a loop reading at its end. */
  ghost predicate CanRead(size: nat, s: Tracker) {
    exists run :: ValidEvents(size, s, run) && NoStop(run) && AfterEvents(size, s, run).reading > 0
  }

  /** Without a Stop nothing is ever read again if and only if the tracker is silent. */
  lemma ReadsAgainExactly(size: nat, s: Tracker)
    ensures CanRead(size, s) <==> !Silent(s)
  {
    if Silent(s) {
      forall run | ValidEvents(size, s, run) && NoStop(run)
        ensures AfterEvents(size, s, run).reading == 0
      {
        SilentUntilStop(size, s, run);
      }
    } else {
      var run := RunToReading(size, s);
    }
  }

  lemma RunToReading(size: nat, s: Tracker) returns (run: seq<Event>)
    requires !Silent(s)
    ensures ValidEvents(size, s, run) && NoStop(run) && AfterEvents(size, s, run).reading > 0
  {
    hide ValidEvents, AfterEvents;
    if s.reading > 0 {
      run := [];
      NoEvents(size, s);
    } else if s.dialing > 0 {
      run := [Dial];
      OneEvent(size, s, Dial);
    } else if !s.link {
      OneEvent(size, s, FindNoSocket);
      OneMore(size, s, [FindNoSocket], Dial);
      run := [FindNoSocket] + [Dial];
    } else if s.waiters > 0 {
      run := [Handover];
      OneEvent(size, s, Handover);
    } else {
      OneEvent(size, s, Check);
      OneMore(size, s, [Check], Handover);
      run := [Check] + [Handover];
    }
  }

  lemma NoEvents(size: nat, s: Tracker)
    ensures ValidEvents(size, s, []) && AfterEvents(size, s, []) == s
  {
  }

  /**
   When the answer to a connection request has been read, something is read again without a Stop
   if and only if a Scrape was waiting for it, another loop was reading, or a call was about to
   start one.
   */
  lemma AnswerSilencesExactly(size: nat, s: Tracker, packet: bytes)
    requires s.link && s.reading > 0 && ConnectAnswer(packet)
    requires FromBigEndian(Truncated(packet)[HEADER_SIZE..][..8]) != 0
    ensures EventEnabled(size, s, Receive(packet))
    ensures CanRead(size, Step(size, s, Receive(packet))) <==> s.waiters > 0 || s.reading > 1 || s.dialing > 0
  {
    hide CanRead;
    ReadsAgainExactly(size, Step(size, s, Receive(packet)));
  }

  /** Stopping and the next Scrape release a silent loop: it hands over to that Scrape and reads on beside the new one. */
  lemma StopReleases(size: nat, s: Tracker)
    requires Silent(s) && s.handing > 0
    ensures var run := [Stop, FindNoSocket, Dial, Check, Handover];
      && ValidEvents(size, s, run)
      && var s' := AfterEvents(size, s, run);
        s'.ready == s.ready + 1 && s'.handing == s.handing - 1 && s'.reading == 2
  {
    hide ValidEvents, AfterEvents;
    OneEvent(size, s, Stop);
    OneMore(size, s, [Stop], FindNoSocket);
    assert [Stop] + [FindNoSocket] == [Stop, FindNoSocket];
    OneMore(size, s, [Stop, FindNoSocket], Dial);
    assert [Stop, FindNoSocket] + [Dial] == [Stop, FindNoSocket, Dial];
    OneMore(size, s, [Stop, FindNoSocket, Dial], Check);
    assert [Stop, FindNoSocket, Dial] + [Check] == [Stop, FindNoSocket, Dial, Check];
    OneMore(size, s, [Stop, FindNoSocket, Dial, Check], Handover);
    assert [Stop, FindNoSocket, Dial, Check] + [Handover] == [Stop, FindNoSocket, Dial, Check, Handover];
  }

  lemma OneEvent(size: nat, s: Tracker, e: Event)
    requires EventEnabled(size, s, e)
    ensures ValidEvents(size, s, [e]) && AfterEvents(size, s, [e]) == Step(size, s, e)
  {
    hide EventEnabled, Step;
    var s' := Step(size, s, e);
    assert [e][1..] == [] && ValidEvents(size, s', []) && AfterEvents(size, s', []) == s';
  }

  lemma {:induction false} OneMore(size: nat, s: Tracker, run: seq<Event>, e: Event)
    requires ValidEvents(size, s, run) && EventEnabled(size, AfterEvents(size, s, run), e)
    ensures ValidEvents(size, s, run + [e])
    ensures AfterEvents(size, s, run + [e]) == Step(size, AfterEvents(size, s, run), e)
    decreases |run|
  {
    hide EventEnabled, Step;
    if run == [] {
      assert run + [e] == [e];
      OneEvent(size, s, e);
    } else {
      OneMore(size, Step(size, s, run[0]), run[1..], e);
      assert (run + [e])[0] == run[0] && (run + [e])[1..] == run[1..] + [e];
    }
  }

  /** A tracker that connects before its first Scrape is silent from the first answer on. */
  lemma EarlyConnectionIsSilent(size: nat, tx: nat, id: nat)
    requires 0 < id < 0x1_0000_0000_0000_0000
    ensures var run := [FindNoSocket, Dial, Receive(ConnectPacket(tx, id))];
      && ValidEvents(size, Start(), run)
      && Silent(AfterEvents(size, Start(), run)) && AfterEvents(size, Start(), run).handing == 1
  {
    hide ValidEvents, AfterEvents, ConnectPacket, Truncated, Word;
    var answer := Receive(ConnectPacket(tx, id));
    ConnectPacketConnects(tx, id);
    Connected(size);
    OneMore(size, Start(), [FindNoSocket, Dial], answer);
    assert [FindNoSocket, Dial] + [answer] == [FindNoSocket, Dial, answer];
  }

  lemma Connected(size: nat)
    ensures var run := [FindNoSocket, Dial];
      && ValidEvents(size, Start(), run)
      && AfterEvents(size, Start(), run) == Start().(link := true, reading := 1, trace := run)
  {
    hide ValidEvents, AfterEvents;
    OneEvent(size, Start(), FindNoSocket);
    OneMore(size, Start(), [FindNoSocket], Dial);
    assert [FindNoSocket] + [Dial] == [FindNoSocket, Dial];
  }

  /** So is one whose first connection request could not be sent. */
  lemma UnsentRequestIsSilent(size: nat)
    ensures var run := [FindNoSocket, DialUnsent];
      && ValidEvents(size, Start(), run)
      && Silent(AfterEvents(size, Start(), run)) && AfterEvents(size, Start(), run).handing == 0
  {
    hide ValidEvents, AfterEvents;
    OneEvent(size, Start(), FindNoSocket);
    OneMore(size, Start(), [FindNoSocket], DialUnsent);
    assert [FindNoSocket] + [DialUnsent] == [FindNoSocket, DialUnsent];
  }

  // ---------- Waiting Scrapes ----------

  ghost predicate NoConnectAnswer(run: seq<Event>) {
    forall i :: 0 <= i < |run| && run[i].Receive? ==> !ConnectAnswer(run[i].packet)
  }

  lemma StepKeepsSurplus(size: nat, s: Tracker, e: Event)
    requires EventEnabled(size, s, e) && (e.Receive? ==> !ConnectAnswer(e.packet))
    ensures var s' := Step(size, s, e); s'.waiters - s'.handing >= s.waiters - s.handing
  {
    hide Results, Apply, Enabled, AllSliceable, Hashes, Forget;
  }

  /** One connection answer releases one Scrape: in a run without another the surplus of waiting Scrapes never falls. */
  lemma {:induction false} WaitersNeedAnswers(size: nat, s: Tracker, run: seq<Event>)
    requires ValidEvents(size, s, run) && NoConnectAnswer(run)
    ensures var s' := AfterEvents(size, s, run); s'.waiters - s'.handing >= s.waiters - s.handing
    decreases |run|
  {
    hide Step, EventEnabled;
    if run != [] {
      StepKeepsSurplus(size, s, run[0]);
      assert NoConnectAnswer(run[1..]);
      WaitersNeedAnswers(size, Step(size, s, run[0]), run[1..]);
    }
  }

  function Handovers(n: nat): seq<Event> {
    if n == 0 then [] else [Handover] + Handovers(n - 1)
  }

  lemma {:induction false} HandoversPossible(size: nat, s: Tracker, n: nat)
    requires n <= s.handing && n <= s.waiters
    ensures ValidEvents(size, s, Handovers(n)) && NoConnectAnswer(Handovers(n))
    ensures AfterEvents(size, s, Handovers(n)).waiters == s.waiters - n
    decreases n
  {
    if n > 0 {
      var s1 := Step(size, s, Handover);
      HandoversPossible(size, s1, n - 1);
      assert Handovers(n)[0] == Handover && Handovers(n)[1..] == Handovers(n - 1);
    }
  }

  /** All waiting Scrapes can be released without another answer if and only if there is a loop for each of them. */
  lemma AllReleasedExactly(size: nat, s: Tracker)
    ensures (exists run :: ValidEvents(size, s, run) && NoConnectAnswer(run) && AfterEvents(size, s, run).waiters == 0)
            <==> s.waiters <= s.handing
  {
    hide ValidEvents, AfterEvents, NoConnectAnswer, Handovers;
    if s.waiters <= s.handing {
      HandoversPossible(size, s, s.waiters);
    }
    forall run | ValidEvents(size, s, run) && NoConnectAnswer(run) && AfterEvents(size, s, run).waiters == 0
      ensures s.waiters <= s.handing
    {
      WaitersNeedAnswers(size, s, run);
    }
  }

  /** Of two Scrapes that wait for the same connection one is left waiting although the connection is there. */
  lemma SecondWaiterIsLeft(size: nat, tx: nat, id: nat)
    requires 0 < id < 0x1_0000_0000_0000_0000
    ensures var run := [FindNoSocket, Dial, Check, Check, Receive(ConnectPacket(tx, id)), Handover];
      && ValidEvents(size, Start(), run)
      && var s := AfterEvents(size, Start(), run);
        s.connectionId == id && s.waiters == 1 && s.handing == 0
  {
    hide ValidEvents, AfterEvents, ConnectPacket, Truncated, Word;
    var answer := Receive(ConnectPacket(tx, id));
    ConnectPacketConnects(tx, id);
    Connected(size);
    var run := [FindNoSocket, Dial];
    OneMore(size, Start(), run, Check);
    OneMore(size, Start(), run + [Check], Check);
    OneMore(size, Start(), run + [Check] + [Check], answer);
    OneMore(size, Start(), run + [Check] + [Check] + [answer], Handover);
    assert run + [Check] + [Check] + [answer] + [Handover] == [FindNoSocket, Dial, Check, Check, answer, Handover];
  }

  // ---------- The code ----------

  class UDPTracker {
    const scrapeQueue: LRWCache<nat, seq<bytes>>
    var connectionId: nat
    var result: seq<seq<ScrapeResult>>

    constructor (queueSize: nat)
      ensures this.scrapeQueue.config == Config(queueSize, true) && this.scrapeQueue.View() == Empty()
      ensures connectionId == 0 && result == []
    {
      scrapeQueue := new LRWCache(queueSize, true);
      connectionId, result := 0, [];
    }

    /** Builds the request that goes out for `hashes`, or panics on a hash it cannot slice. */
    method BuildRequest(transactionId: nat, hashes: seq<Slice>) returns (packet: Outcome<bytes>)
      ensures packet.Ok? <==> AllSliceable(hashes)
      ensures packet.Ok? ==> packet.value == ScrapePacket(connectionId, transactionId, hashes)
      ensures !packet.Ok? ==> packet.Panic?
    {
      var writer := ToBigEndian(connectionId, 8) + ToBigEndian(ACTION_SCRAPE, 4) + ToBigEndian(transactionId, 4);
      ghost var header := writer;
      for i := 0 to |hashes|
        invariant AllSliceable(hashes[..i])
        invariant AllSliceable(hashes) ==> writer + Concat(hashes[i..]) == header + Concat(hashes)
      {
        var reach := hashes[i].data + hashes[i].spare;
        if |reach| < 20 {
          assert !Sliceable(hashes[i]);
          return Panic;
        }
        assert hashes[i..][1..] == hashes[i + 1..];
        assert hashes[..i + 1] == hashes[..i] + [hashes[i]];
        writer := writer + reach[..20];
      }
      assert hashes[..|hashes|] == hashes;
      return Ok(writer);
    }

    /** Matches an answer to the Scrape stored under its id. */
    method HandleScrape(transactionId: nat, body: bytes) returns (ok: bool)
      requires Inv(scrapeQueue.config, scrapeQueue.View()) && scrapeQueue.config.blocking && !scrapeQueue.waiting
      modifies this`result, scrapeQueue
      ensures scrapeQueue.data == old(scrapeQueue.data) - {transactionId}
      ensures Inv(scrapeQueue.config, scrapeQueue.View()) && !scrapeQueue.waiting
      ensures transactionId !in old(scrapeQueue.data) ==> ok && result == old(result)
      ensures transactionId in old(scrapeQueue.data) ==>
        var expected := Results(old(scrapeQueue.data)[transactionId].value, body);
        ok == expected.Some? && result == old(result) + (if ok then [expected.value] else [])
    {
      hide Inv;
      var found, _ := scrapeQueue.GetAndRemove(transactionId);
      if found.None? {
        return true;
      }
      var hashes := found.value;
      var results: seq<ScrapeResult> := [];
      for i := 0 to |hashes|
        invariant |results| == i && TRIPLE_SIZE * i <= |body|
        invariant forall j :: 0 <= j < i ==> results[j] == ResultAt(hashes, body, j)
      {
        var at := TRIPLE_SIZE * i;
        if at + TRIPLE_SIZE > |body| {
          return false;
        }
        results := results + [ScrapeResult(hashes[i], Word(body, at), Word(body, at + 4), Word(body, at + 8))];
      }
      assert results == Results(hashes, body).value;
      result := result + [results];
      return true;
    }
  }
}
