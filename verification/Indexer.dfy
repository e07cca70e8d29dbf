/**
 The search indexer of indexer/internal/svc/indexer.go against an AMQP broker.

 The broker keeps the messages it has delivered until they are acknowledged and delivers no
 more than the prefetch count of them (section 1.8.3.1 of the AMQP 0-9-1 reference; 0 means no
 limit). An acknowledgement with `multiple` settles every tag up to its own (section 1.8.3.13);
 a negative one puts them back into the queue. The queue is a multiset: the model holds for
 every order in which the broker delivers and requeues.
 */
module Indexer {
  import opened Base
  import opened SearchIndex

  datatype Delivery = Delivery(tag: nat, body: bytes)

  /**
   - `unacked` is the broker's list of unacknowledged deliveries, `inflight` the ones the
     indexer has not taken from its channel yet;
   - `batch` is the indexer's field, `held` the deliveries the batch came from;
   - `index` is the search index;
   - `published`, `settled`, `dropped`, `sent` and `answered` record the messages that were
     published, acknowledged after a bulk, acknowledged as malformed, sent in a bulk, and sent in
     one that was answered.
   */
  datatype State = State(
    queue: multiset<bytes>, unacked: seq<Delivery>, inflight: seq<Delivery>, nextTag: nat,
    batch: seq<Torrent>, held: seq<Delivery>, index: Index,
    published: multiset<bytes>, settled: multiset<bytes>, dropped: multiset<bytes>,
    sent: multiset<bytes>, answered: multiset<bytes>)

  datatype Event =
    | Publish(body: bytes)
    | Deliver(body: bytes)
    | Process(bulk: Bulk)
    | Crash

  type Decoder = bytes -> Option<Torrent>

  function Initial(): State {
    State(multiset{}, [], [], 1, [], [], map[], multiset{}, multiset{}, multiset{}, multiset{}, multiset{})
  }

  // ---------- The broker ----------

  function UpTo(ds: seq<Delivery>, tag: nat): seq<Delivery> {
    if ds == [] then []
    else (if ds[0].tag <= tag then [ds[0]] else []) + UpTo(ds[1..], tag)
  }

  function Beyond(ds: seq<Delivery>, tag: nat): seq<Delivery> {
    if ds == [] then []
    else (if ds[0].tag <= tag then [] else [ds[0]]) + Beyond(ds[1..], tag)
  }

  function Except(ds: seq<Delivery>, tag: nat): seq<Delivery> {
    if ds == [] then []
    else (if ds[0].tag == tag then [] else [ds[0]]) + Except(ds[1..], tag)
  }

  function Bodies(ds: seq<Delivery>): multiset<bytes> {
    if ds == [] then multiset{} else multiset{ds[0].body} + Bodies(ds[1..])
  }

  predicate MayDeliver(prefetch: nat, s: State) {
    prefetch == 0 || |s.unacked| < prefetch
  }

  // ---------- The consumer ----------

  predicate Enabled(prefetch: nat, s: State, e: Event) {
    match e
    case Publish(_) => true
    case Deliver(body) => body in s.queue && MayDeliver(prefetch, s)
    case Process(_) => s.inflight != []
    case Crash => true
  }

  /** Everything unacknowledged goes back to the queue; the new process starts with an empty batch. */
  function Restart(s: State): State {
    s.(queue := s.queue + Bodies(s.unacked), unacked := [], inflight := [], nextTag := 1, batch := [], held := [])
  }

  function Dropped(s: State, d: Delivery): State {
    s.(unacked := Except(s.unacked, d.tag), dropped := s.dropped + multiset{d.body})
  }

  /** A bulk with the batch went out. */
  function Sent(s: State, bulk: Bulk): State {
    s.(index := PutAll(s.index, Items(s.batch, bulk, true)), sent := s.sent + Bodies(s.held),
       answered := if bulk.Failed? then s.answered else s.answered + Bodies(s.held))
  }

  function Flush(s: State, tag: nat, bulk: Bulk): State {
    var settled, kept, s1 := UpTo(s.unacked, tag), Beyond(s.unacked, tag), Sent(s, bulk);
    match bulk
    case Failed(_) => s1.(batch := [], held := [], unacked := kept, queue := s.queue + Bodies(settled))
    case Answered(_) => s1.(batch := [], held := [], unacked := kept, settled := s.settled + Bodies(settled))
    case AckLost(_) => Restart(s1)
  }

  function Take(batchSize: nat, decode: Decoder, s: State, bulk: Bulk): State
    requires s.inflight != []
  {
    var d := s.inflight[0];
    var s1 := s.(inflight := s.inflight[1..]);
    match decode(d.body)
    case None => Dropped(s1, d)
    case Some(t) =>
      var s2 := s1.(batch := s1.batch + [t], held := s1.held + [d]);
      if |s2.batch| >= batchSize then Flush(s2, d.tag, bulk) else s2
  }

  function Step(batchSize: nat, decode: Decoder, s: State, e: Event): State
    requires Enabled(batchSize, s, e)
  {
    match e
    case Publish(body) => s.(queue := s.queue + multiset{body}, published := s.published + multiset{body})
    case Deliver(body) =>
      var d := Delivery(s.nextTag, body);
      s.(queue := s.queue - multiset{body}, unacked := s.unacked + [d], inflight := s.inflight + [d],
         nextTag := s.nextTag + 1)
    case Process(bulk) => Take(batchSize, decode, s, bulk)
    case Crash => Restart(s)
  }

  ghost predicate ValidRun(batchSize: nat, decode: Decoder, s: State, run: seq<Event>)
    decreases |run|
  {
    run == [] || (Enabled(batchSize, s, run[0]) && ValidRun(batchSize, decode, Step(batchSize, decode, s, run[0]), run[1..]))
  }

  ghost function After(batchSize: nat, decode: Decoder, s: State, run: seq<Event>): State
    requires ValidRun(batchSize, decode, s, run)
    decreases |run|
  {
    if run == [] then s else After(batchSize, decode, Step(batchSize, decode, s, run[0]), run[1..])
  }

  // ---------- Invariants ----------

  /** Every published message is in exactly one place, and nothing else was ever sent in a bulk. */
  ghost predicate Conserved(s: State) {
    && s.published == s.queue + Bodies(s.inflight) + Bodies(s.held) + s.settled + s.dropped
    && SentWasPublished(s)
  }

  ghost predicate SentWasPublished(s: State) {
    forall b :: b in s.sent ==> b in s.published
  }

  lemma StillPublished(s: State, s': State)
    requires SentWasPublished(s) && s.published <= s'.published && s'.sent == s.sent
    ensures SentWasPublished(s')
  {
  }

  /** What is in the batch was published, so it may go out. */
  lemma HeldWasPublished(s: State, bulk: Bulk)
    requires Conserved(s)
    ensures SentWasPublished(Sent(s, bulk))
  {
    hide PutAll, Items, Bodies;
  }

  predicate Ascending(ds: seq<Delivery>) {
    forall i, j :: 0 <= i < j < |ds| ==> ds[i].tag < ds[j].tag
  }

  /** What the broker waits for is the batch, then what the indexer has not looked at yet. */
  ghost predicate Tracked(batchSize: nat, s: State) {
    && s.unacked == s.held + s.inflight
    && Ascending(s.unacked)
    && (forall i :: 0 <= i < |s.unacked| ==> s.unacked[i].tag < s.nextTag)
    && (batchSize > 0 ==> |s.unacked| <= batchSize)
  }

  ghost predicate BatchIsHeld(batchSize: nat, decode: Decoder, s: State) {
    && |s.held| == |s.batch|
    && (forall i :: 0 <= i < |s.batch| ==> decode(s.held[i].body) == Some(s.batch[i]))
    && (|s.batch| == 0 || |s.batch| < batchSize)
  }

  /** A message is settled no more often than an answered bulk had it; only malformed ones are dropped, none is sent. */
  ghost predicate Answering(decode: Decoder, s: State) {
    && s.settled <= s.answered <= s.sent
    && (forall b :: b in s.sent ==> decode(b).Some?)
    && (forall b :: b in s.dropped ==> decode(b).None?)
  }

  ghost predicate Inv(batchSize: nat, decode: Decoder, s: State) {
    Conserved(s) && Tracked(batchSize, s) && BatchIsHeld(batchSize, decode, s) && Answering(decode, s)
  }

  lemma {:induction false} BodiesConcat(a: seq<Delivery>, b: seq<Delivery>)
    ensures Bodies(a + b) == Bodies(a) + Bodies(b)
    decreases |a|
  {
    if a == [] {
      assert a + b == b;
    } else {
      assert (a + b)[0] == a[0] && (a + b)[1..] == a[1..] + b;
      BodiesConcat(a[1..], b);
    }
  }

  lemma {:induction false} AllBeyond(ds: seq<Delivery>, tag: nat)
    requires forall i :: 0 <= i < |ds| ==> ds[i].tag > tag
    ensures UpTo(ds, tag) == [] && Beyond(ds, tag) == ds && Except(ds, tag) == ds
    decreases |ds|
  {
    if ds != [] {
      AllBeyond(ds[1..], tag);
    }
  }

  lemma {:induction false} AllUpTo(ds: seq<Delivery>, tag: nat)
    requires forall i :: 0 <= i < |ds| ==> ds[i].tag <= tag
    ensures UpTo(ds, tag) == ds && Beyond(ds, tag) == []
    decreases |ds|
  {
    if ds != [] {
      AllUpTo(ds[1..], tag);
      assert ds == [ds[0]] + ds[1..];
    }
  }

  lemma Regroup(a: seq<Delivery>, b: seq<Delivery>, c: seq<Delivery>)
    ensures a + (b + c) == a + b + c
  {
  }

  lemma {:induction false} UpToConcat(a: seq<Delivery>, b: seq<Delivery>, tag: nat)
    ensures UpTo(a + b, tag) == UpTo(a, tag) + UpTo(b, tag)
    decreases |a|
  {
    if a == [] {
      assert a + b == b;
    } else {
      assert (a + b)[0] == a[0] && (a + b)[1..] == a[1..] + b;
      UpToConcat(a[1..], b, tag);
      Regroup(if a[0].tag <= tag then [a[0]] else [], UpTo(a[1..], tag), UpTo(b, tag));
    }
  }

  lemma {:induction false} BeyondConcat(a: seq<Delivery>, b: seq<Delivery>, tag: nat)
    ensures Beyond(a + b, tag) == Beyond(a, tag) + Beyond(b, tag)
    decreases |a|
  {
    if a == [] {
      assert a + b == b;
    } else {
      assert (a + b)[0] == a[0] && (a + b)[1..] == a[1..] + b;
      BeyondConcat(a[1..], b, tag);
      Regroup(if a[0].tag <= tag then [] else [a[0]], Beyond(a[1..], tag), Beyond(b, tag));
    }
  }

  /** Settling everything up to the last of `a` settles exactly `a`. */
  lemma SettleExactly(a: seq<Delivery>, b: seq<Delivery>)
    requires a != [] && Ascending(a + b)
    ensures UpTo(a + b, a[|a| - 1].tag) == a && Beyond(a + b, a[|a| - 1].tag) == b
  {
    hide UpTo, Beyond;
    var ds, last := a + b, |a| - 1;
    assert forall i :: 0 <= i < |a| ==> a[i] == ds[i];
    assert forall i :: 0 <= i < |b| ==> b[i] == ds[|a| + i];
    AllUpTo(a, a[last].tag);
    AllBeyond(b, a[last].tag);
    UpToConcat(a, b, a[last].tag);
    BeyondConcat(a, b, a[last].tag);
  }

  lemma AscendingTail(ds: seq<Delivery>)
    requires ds != [] && Ascending(ds)
    ensures Ascending(ds[1..])
  {
    forall i, j | 0 <= i < j < |ds[1..]|
      ensures ds[1..][i].tag < ds[1..][j].tag
    {
      assert ds[i + 1].tag < ds[j + 1].tag;
    }
  }

  /** A single acknowledgement takes out exactly the message it is for. */
  lemma {:induction false} ExceptExactly(a: seq<Delivery>, d: Delivery, b: seq<Delivery>)
    requires Ascending(a + [d] + b)
    ensures Except(a + [d] + b, d.tag) == a + b
    decreases |a|
  {
    var ds := a + [d] + b;
    if a == [] {
      assert ds[0] == d && ds[1..] == b;
      assert forall i :: 0 <= i < |b| ==> b[i] == ds[i + 1];
      AllBeyond(b, d.tag);
    } else {
      assert ds[0] == a[0] && ds[|a|] == d && ds[1..] == a[1..] + [d] + b;
      AscendingTail(ds);
      ExceptExactly(a[1..], d, b);
    }
  }

  // ---------- Every step keeps them ----------

  lemma DeliverKeeps(batchSize: nat, decode: Decoder, s: State, body: bytes)
    requires Inv(batchSize, decode, s) && Enabled(batchSize, s, Deliver(body))
    ensures Inv(batchSize, decode, Step(batchSize, decode, s, Deliver(body)))
  {
    hide Answering, Bodies, Tracked, SentWasPublished;
    var d, s' := Delivery(s.nextTag, body), Step(batchSize, decode, s, Deliver(body));
    DeliverTracked(batchSize, s, s', d);
    BodiesConcat(s.inflight, [d]);
    OneBody(d);
    AnsweringElsewhere(decode, s, s');
    StillPublished(s, s');
  }

  lemma DeliverTracked(batchSize: nat, s: State, s': State, d: Delivery)
    requires Tracked(batchSize, s) && MayDeliver(batchSize, s) && d.tag == s.nextTag && s'.nextTag == s.nextTag + 1
    requires s'.unacked == s.unacked + [d] && s'.inflight == s.inflight + [d] && s'.held == s.held
    ensures Tracked(batchSize, s')
  {
    assert s.held + (s.inflight + [d]) == s.held + s.inflight + [d];
  }

  lemma OneBody(d: Delivery)
    ensures Bodies([d]) == multiset{d.body}
  {
    assert [d][1..] == [];
    assert Bodies([]) == multiset{};
  }

  lemma AnsweringElsewhere(decode: Decoder, s: State, s': State)
    requires Answering(decode, s)
    requires s'.settled == s.settled && s'.dropped == s.dropped && s'.sent == s.sent && s'.answered == s.answered
    ensures Answering(decode, s')
  {
  }

  lemma RestartKeeps(batchSize: nat, decode: Decoder, s: State)
    requires Conserved(s) && s.unacked == s.held + s.inflight && Answering(decode, s)
    ensures Inv(batchSize, decode, Restart(s))
  {
    hide Answering, Bodies, SentWasPublished;
    BodiesConcat(s.held, s.inflight);
    NoBodies();
    AnsweringElsewhere(decode, s, Restart(s));
    StillPublished(s, Restart(s));
  }

  /** Taking the head of `inflight` splits the unacknowledged messages around it. */
  lemma TakeHead(batchSize: nat, s: State)
    requires Tracked(batchSize, s) && s.inflight != []
    ensures s.unacked == s.held + [s.inflight[0]] + s.inflight[1..]
    ensures Bodies(s.inflight) == multiset{s.inflight[0].body} + Bodies(s.inflight[1..])
    ensures Bodies(s.held + [s.inflight[0]]) == Bodies(s.held) + multiset{s.inflight[0].body}
  {
    assert s.inflight == [s.inflight[0]] + s.inflight[1..];
    BodiesConcat(s.held, [s.inflight[0]]);
    OneBody(s.inflight[0]);
  }

  lemma SubTracked(batchSize: nat, s: State, s': State)
    requires Tracked(batchSize, s) && s.inflight != [] && s'.nextTag == s.nextTag
    requires s'.unacked == s'.held + s'.inflight
    requires s'.unacked == s.held + s.inflight[1..] || s'.unacked == s.unacked || s'.unacked == s.inflight[1..]
    ensures Tracked(batchSize, s')
  {
    var n := |s.held|;
    if s'.unacked == s.held + s.inflight[1..] {
      assert forall i :: 0 <= i < |s'.unacked| ==> s'.unacked[i] == s.unacked[if i < n then i else i + 1];
    } else if s'.unacked == s.inflight[1..] {
      assert forall i :: 0 <= i < |s'.unacked| ==> s'.unacked[i] == s.unacked[n + 1 + i];
    }
  }

  lemma DropKeeps(batchSize: nat, decode: Decoder, s: State)
    requires Inv(batchSize, decode, s) && s.inflight != [] && decode(s.inflight[0].body).None?
    ensures Inv(batchSize, decode, Dropped(s.(inflight := s.inflight[1..]), s.inflight[0]))
  {
    hide Bodies, Except, Answering, SentWasPublished;
    var d, s' := s.inflight[0], Dropped(s.(inflight := s.inflight[1..]), s.inflight[0]);
    TakeHead(batchSize, s);
    ExceptExactly(s.held, d, s.inflight[1..]);
    hide Tracked;
    SubTracked(batchSize, s, s');
    DroppingKeeps(decode, s, s', d.body);
    StillPublished(s, s');
  }

  lemma DroppingKeeps(decode: Decoder, s: State, s': State, body: bytes)
    requires Answering(decode, s) && decode(body).None?
    requires s'.settled == s.settled && s'.dropped == s.dropped + multiset{body}
    requires s'.sent == s.sent && s'.answered == s.answered
    ensures Answering(decode, s')
  {
  }

  /** The state after a decodable message joined the batch, before any flush. */
  function Joined(s: State, t: Torrent): State
    requires s.inflight != []
  {
    s.(inflight := s.inflight[1..], batch := s.batch + [t], held := s.held + [s.inflight[0]])
  }

  ghost predicate FullBatch(decode: Decoder, s: State) {
    && s.held != [] && |s.held| == |s.batch|
    && (forall i :: 0 <= i < |s.batch| ==> decode(s.held[i].body) == Some(s.batch[i]))
  }

  lemma JoinKeeps(batchSize: nat, decode: Decoder, s: State, t: Torrent)
    requires Inv(batchSize, decode, s) && s.inflight != [] && decode(s.inflight[0].body) == Some(t)
    ensures var s' := Joined(s, t);
      && Conserved(s') && Tracked(batchSize, s') && FullBatch(decode, s') && Answering(decode, s')
  {
    hide Bodies, Answering, SentWasPublished;
    var s' := Joined(s, t);
    TakeHead(batchSize, s);
    AnsweringElsewhere(decode, s, s');
    StillPublished(s, s');
    hide Tracked;
    assert s'.unacked == s'.held + s'.inflight;
    SubTracked(batchSize, s, s');
  }

  lemma {:induction false} HeldBodies(decode: Decoder, held: seq<Delivery>, batch: seq<Torrent>, b: bytes)
    requires |held| == |batch| && forall i :: 0 <= i < |batch| ==> decode(held[i].body) == Some(batch[i])
    requires b in Bodies(held)
    ensures decode(b).Some? && decode(b).value in batch
    decreases |held|
  {
    if b == held[0].body {
      assert batch[0] in batch;
    } else {
      HeldBodies(decode, held[1..], batch[1..], b);
      assert batch == [batch[0]] + batch[1..];
    }
  }

  lemma {:induction false} BodyAmong(held: seq<Delivery>, i: nat)
    requires i < |held|
    ensures held[i].body in Bodies(held)
    decreases |held|
  {
    if i > 0 {
      BodyAmong(held[1..], i - 1);
    }
  }

  lemma SendingKeeps(decode: Decoder, s: State, bulk: Bulk)
    requires Answering(decode, s) && FullBatch(decode, s)
    ensures var s' := Sent(s, bulk);
      Answering(decode, s') && (!bulk.Failed? ==> Answering(decode, s'.(settled := s.settled + Bodies(s.held))))
  {
    hide PutAll, Items, Bodies;
    var s' := Sent(s, bulk);
    forall b | b in s'.sent
      ensures decode(b).Some?
    {
      if b !in s.sent {
        HeldBodies(decode, s.held, s.batch, b);
      }
    }
  }

  /** Settling or requeuing what was held conserves the messages. */
  lemma FlushConserves(s: State, s': State)
    requires Conserved(s) && SentWasPublished(s')
    requires s'.published == s.published && s'.inflight == s.inflight && s'.held == [] && s'.dropped == s.dropped
    requires s'.queue + s'.settled == s.queue + s.settled + Bodies(s.held)
    ensures Conserved(s')
  {
    hide Bodies, SentWasPublished;
    NoBodies();
    forall b
      ensures s'.published[b] == (s'.queue + Bodies(s'.inflight) + Bodies(s'.held) + s'.settled + s'.dropped)[b]
    {
      assert (s'.queue + s'.settled)[b] == (s.queue + s.settled + Bodies(s.held))[b];
    }
  }

  /** A flush settles or requeues exactly the batch. */
  lemma FlushKeeps(batchSize: nat, decode: Decoder, s: State, bulk: Bulk)
    requires Conserved(s) && Tracked(batchSize, s) && FullBatch(decode, s) && Answering(decode, s)
    ensures Inv(batchSize, decode, Flush(s, s.held[|s.held| - 1].tag, bulk))
    ensures UpTo(s.unacked, s.held[|s.held| - 1].tag) == s.held
  {
    hide Bodies, Answering, UpTo, Beyond, PutAll, Items, SentWasPublished, FullBatch;
    FullBatchMeans(decode, s);
    SettleExactly(s.held, s.inflight);
    SendingKeeps(decode, s, bulk);
    HeldWasPublished(s, bulk);
    var s1, s' := Sent(s, bulk), Flush(s, s.held[|s.held| - 1].tag, bulk);
    if bulk.AckLost? {
      hide Tracked;
      RestartKeeps(batchSize, decode, s1);
    } else {
      FlushTracked(batchSize, s, s');
      hide Tracked, Conserved;
      StillPublished(s1, s');
      FlushConserves(s, s');
      AnsweringElsewhere(decode, if bulk.Failed? then s1 else s1.(settled := s.settled + Bodies(s.held)), s');
    }
  }

  lemma FullBatchMeans(decode: Decoder, s: State)
    requires FullBatch(decode, s)
    ensures s.held != []
  {
  }

  lemma NoBodies()
    ensures Bodies([]) == multiset{}
  {
  }

  lemma FlushTracked(batchSize: nat, s: State, s': State)
    requires Tracked(batchSize, s) && s'.nextTag == s.nextTag
    requires s'.held == [] && s'.inflight == s.inflight && s'.unacked == s.inflight
    ensures Tracked(batchSize, s')
  {
    assert forall i :: 0 <= i < |s.inflight| ==> s.inflight[i] == s.unacked[|s.held| + i];
  }

  lemma TakeKeeps(batchSize: nat, decode: Decoder, s: State, bulk: Bulk)
    requires Inv(batchSize, decode, s) && s.inflight != []
    ensures Inv(batchSize, decode, Take(batchSize, decode, s, bulk))
  {
    hide Conserved, Tracked, Answering, Flush, Dropped;
    var d := s.inflight[0];
    match decode(d.body) {
      case None =>
        DropKeeps(batchSize, decode, s);
      case Some(t) =>
        JoinKeeps(batchSize, decode, s, t);
        var s2 := Joined(s, t);
        if |s2.batch| >= batchSize {
          FlushKeeps(batchSize, decode, s2, bulk);
        }
    }
  }

  lemma StepKeeps(batchSize: nat, decode: Decoder, s: State, e: Event)
    requires Inv(batchSize, decode, s) && Enabled(batchSize, s, e)
    ensures Inv(batchSize, decode, Step(batchSize, decode, s, e))
  {
    hide Tracked, Answering, Take, Restart, Bodies;
    match e {
      case Publish(body) =>
        PublishKeeps(batchSize, decode, s, body);
      case Deliver(body) =>
        DeliverKeeps(batchSize, decode, s, body);
      case Process(bulk) =>
        TakeKeeps(batchSize, decode, s, bulk);
      case Crash =>
        TrackedMeans(batchSize, s);
        RestartKeeps(batchSize, decode, s);
    }
  }

  lemma TrackedMeans(batchSize: nat, s: State)
    requires Tracked(batchSize, s)
    ensures s.unacked == s.held + s.inflight
  {
  }

  lemma PublishKeeps(batchSize: nat, decode: Decoder, s: State, body: bytes)
    requires Inv(batchSize, decode, s)
    ensures Inv(batchSize, decode, Step(batchSize, decode, s, Publish(body)))
  {
    hide Answering, Bodies, SentWasPublished;
    AnsweringElsewhere(decode, s, Step(batchSize, decode, s, Publish(body)));
    StillPublished(s, Step(batchSize, decode, s, Publish(body)));
  }

  lemma {:induction false} RunKeeps(batchSize: nat, decode: Decoder, s: State, run: seq<Event>)
    requires Inv(batchSize, decode, s) && ValidRun(batchSize, decode, s, run)
    ensures Inv(batchSize, decode, After(batchSize, decode, s, run))
    decreases |run|
  {
    hide Inv, Step;
    if run != [] {
      StepKeeps(batchSize, decode, s, run[0]);
      RunKeeps(batchSize, decode, Step(batchSize, decode, s, run[0]), run[1..]);
    }
  }

  ghost predicate Reachable(batchSize: nat, decode: Decoder, s: State) {
    exists run :: ValidRun(batchSize, decode, Initial(), run) && After(batchSize, decode, Initial(), run) == s
  }

  lemma ReachableInv(batchSize: nat, decode: Decoder, s: State)
    requires Reachable(batchSize, decode, s)
    ensures Inv(batchSize, decode, s)
  {
    var run :| ValidRun(batchSize, decode, Initial(), run) && After(batchSize, decode, Initial(), run) == s;
    RunKeeps(batchSize, decode, Initial(), run);
  }

  // ---------- What the indexer promises ----------

  /**
   In every run every published message is in exactly one place: queued, delivered, in the
   batch, acknowledged after a bulk, or dropped as malformed. Only malformed messages are
   dropped, and no message is acknowledged more often than it was in an answered bulk.
   */
  lemma NothingLost(batchSize: nat, decode: Decoder, s: State)
    requires Reachable(batchSize, decode, s)
    ensures s.published == s.queue + Bodies(s.unacked) + s.settled + s.dropped
    ensures s.settled <= s.answered
    ensures forall b :: b in s.answered ==> decode(b).Some?
    ensures forall b :: b in s.dropped ==> decode(b).None?
  {
    ReachableInv(batchSize, decode, s);
    BodiesConcat(s.held, s.inflight);
  }

  /** A bulk goes out when a message fills the batch, and has that size, or one message if the size is 0. */
  function BulkSize(batchSize: nat, decode: Decoder, s: State, e: Event): nat {
    if e.Process? && s.inflight != [] && decode(s.inflight[0].body).Some? && |s.batch| + 1 >= batchSize
    then if batchSize == 0 then 1 else batchSize
    else 0
  }

  /** Every bulk is a full batch, and nothing else sends anything. */
  lemma BulksAreFull(batchSize: nat, decode: Decoder, s: State, e: Event)
    requires Reachable(batchSize, decode, s) && Enabled(batchSize, s, e)
    ensures |Step(batchSize, decode, s, e).sent| == |s.sent| + BulkSize(batchSize, decode, s, e)
  {
    hide Bodies, PutAll, Items, UpTo, Beyond, Except, Reachable;
    ReachableInv(batchSize, decode, s);
    if e.Process? {
      BodiesCount(s.held + [s.inflight[0]]);
    }
  }

  lemma {:induction false} BodiesCount(ds: seq<Delivery>)
    ensures |Bodies(ds)| == |ds|
  {
    if ds != [] {
      BodiesCount(ds[1..]);
    }
  }

  // ---------- What a run does to the index ----------

  /** The items of the bulk that an event sends, if it sends one. */
  function BulkOf(batchSize: nat, decode: Decoder, s: State, e: Event): seq<Torrent> {
    if e.Process? && s.inflight != [] && decode(s.inflight[0].body).Some? && |s.batch| + 1 >= batchSize
    then s.batch + [decode(s.inflight[0].body).value]
    else []
  }

  function TakenBy(batchSize: nat, decode: Decoder, s: State, e: Event): seq<Torrent> {
    if e.Process? then Items(BulkOf(batchSize, decode, s, e), e.bulk, true) else []
  }

  function RefusedBy(batchSize: nat, decode: Decoder, s: State, e: Event): seq<Torrent> {
    if e.Process? && !e.bulk.Failed? then Items(BulkOf(batchSize, decode, s, e), e.bulk, false) else []
  }

  /** The items that the index took from the bulks of a run, in order. */
  ghost function TakenIn(batchSize: nat, decode: Decoder, s: State, run: seq<Event>): seq<Torrent>
    requires ValidRun(batchSize, decode, s, run)
    decreases |run|
  {
    if run == [] then []
    else TakenBy(batchSize, decode, s, run[0]) + TakenIn(batchSize, decode, Step(batchSize, decode, s, run[0]), run[1..])
  }

  /** The items that the answers of a run refused. */
  ghost function RefusedIn(batchSize: nat, decode: Decoder, s: State, run: seq<Event>): seq<Torrent>
    requires ValidRun(batchSize, decode, s, run)
    decreases |run|
  {
    if run == [] then []
    else RefusedBy(batchSize, decode, s, run[0]) + RefusedIn(batchSize, decode, Step(batchSize, decode, s, run[0]), run[1..])
  }

  lemma StepPuts(batchSize: nat, decode: Decoder, s: State, e: Event)
    requires Enabled(batchSize, s, e)
    ensures Step(batchSize, decode, s, e).index == PutAll(s.index, TakenBy(batchSize, decode, s, e))
  {
    hide Items, Bodies, Except, Flush;
    if e.Process? {
      NoItems(e.bulk);
      if BulkOf(batchSize, decode, s, e) != [] {
        hide PutAll;
        var d := s.inflight[0];
        FlushPuts(Joined(s, decode(d.body).value), d.tag, e.bulk);
      }
    }
  }

  lemma FlushPuts(s: State, tag: nat, bulk: Bulk)
    ensures Flush(s, tag, bulk).index == PutAll(s.index, Items(s.batch, bulk, true))
  {
    hide PutAll, Items, UpTo, Beyond, Bodies;
  }

  lemma NoItems(bulk: Bulk)
    ensures Items([], bulk, true) == []
  {
  }

  /** The index after a run is the one before with the items taken in the run laid over it, in order. */
  lemma {:induction false} RunPuts(batchSize: nat, decode: Decoder, s: State, run: seq<Event>)
    requires ValidRun(batchSize, decode, s, run)
    ensures After(batchSize, decode, s, run).index == PutAll(s.index, TakenIn(batchSize, decode, s, run))
    decreases |run|
  {
    hide Step, Enabled, TakenBy;
    if run != [] {
      var s1 := Step(batchSize, decode, s, run[0]);
      StepPuts(batchSize, decode, s, run[0]);
      RunPuts(batchSize, decode, s1, run[1..]);
      PutConcat(s.index, TakenBy(batchSize, decode, s, run[0]), TakenIn(batchSize, decode, s1, run[1..]));
    }
  }

  /** The message that an item of a bulk came from is recorded as sent. */
  lemma BulkWasSent(batchSize: nat, decode: Decoder, s: State, e: Event, t: Torrent) returns (b: bytes)
    requires Inv(batchSize, decode, s) && Enabled(batchSize, s, e) && t in BulkOf(batchSize, decode, s, e)
    ensures decode(b) == Some(t) && b in Step(batchSize, decode, s, e).sent
  {
    hide Items, PutAll, UpTo, Beyond, Bodies, Except, Conserved, Tracked, Answering;
    var held := s.held + [s.inflight[0]];
    var i :| 0 <= i < |s.batch| + 1 && BulkOf(batchSize, decode, s, e)[i] == t;
    b := held[i].body;
    BodyAmong(held, i);
  }

  lemma StepKeepsSent(batchSize: nat, decode: Decoder, s: State, e: Event)
    requires Enabled(batchSize, s, e)
    ensures s.sent <= Step(batchSize, decode, s, e).sent && s.published <= Step(batchSize, decode, s, e).published
  {
    hide Items, PutAll, UpTo, Beyond, Bodies, Except;
  }

  lemma {:induction false} RunKeepsSent(batchSize: nat, decode: Decoder, s: State, run: seq<Event>)
    requires ValidRun(batchSize, decode, s, run)
    ensures s.sent <= After(batchSize, decode, s, run).sent
    decreases |run|
  {
    hide Step, Enabled;
    if run != [] {
      StepKeepsSent(batchSize, decode, s, run[0]);
      RunKeepsSent(batchSize, decode, Step(batchSize, decode, s, run[0]), run[1..]);
    }
  }

  /** Every item taken in a run is a message that was sent. */
  lemma {:induction false} TakenWasSent(batchSize: nat, decode: Decoder, s: State, run: seq<Event>, t: Torrent) returns (b: bytes)
    requires Inv(batchSize, decode, s) && ValidRun(batchSize, decode, s, run)
    requires t in TakenIn(batchSize, decode, s, run)
    ensures decode(b) == Some(t) && b in After(batchSize, decode, s, run).sent
    decreases |run|
  {
    hide Step, Enabled, Inv, BulkOf, Items;
    var e, s1 := run[0], Step(batchSize, decode, s, run[0]);
    StepKeeps(batchSize, decode, s, e);
    if t in TakenBy(batchSize, decode, s, e) {
      ItemsAreOfBulk(BulkOf(batchSize, decode, s, e), e.bulk, true);
      b := BulkWasSent(batchSize, decode, s, e, t);
      RunKeepsSent(batchSize, decode, s1, run[1..]);
    } else {
      b := TakenWasSent(batchSize, decode, s1, run[1..], t);
    }
  }

  /**
   In every run: a hash has an entry exactly if the index took an item for it; a field of a message
   is in the entry exactly if some such item had it, with the value it has in the document of the
   latest of them; and every entry says that it is indexed.
   */
  lemma IndexExactly(batchSize: nat, decode: Decoder, run: seq<Event>, h: bytes, f: bytes)
    requires ValidRun(batchSize, decode, Initial(), run)
    ensures var items := TakenIn(batchSize, decode, Initial(), run);
      var index := After(batchSize, decode, Initial(), run).index;
      && (h in index <==> exists i: nat :: Hit(items, h, i))
      && (HasField(index, h, Ascii("search_updated")) <==> h in index)
      && (h in index ==> index[h][Ascii("search_updated")] == Ascii("true"))
      && (f != Ascii("search_updated") ==>
            && (HasField(index, h, f) <==> exists i: nat :: Latest(items, h, f, i))
            && (forall i: nat :: Latest(items, h, f, i) ==> HasField(index, h, f) && index[h][f] == items[i].doc[f]))
  {
    hide ValidRun, After, TakenIn, PutAll, Ascii;
    var items := TakenIn(batchSize, decode, Initial(), run);
    RunPuts(batchSize, decode, Initial(), run);
    KeysExactly(map[], items, h);
    MarkedAsIndexed(items, h);
    if f != Ascii("search_updated") {
      FieldsExactly(items, h, f);
    }
  }

  /** In every run every field of every entry is that of a published message, the latest with the field that was taken. */
  lemma NothingInvented(batchSize: nat, decode: Decoder, run: seq<Event>, h: bytes, f: bytes) returns (i: nat, b: bytes)
    requires ValidRun(batchSize, decode, Initial(), run) && HasField(After(batchSize, decode, Initial(), run).index, h, f)
    requires f != Ascii("search_updated")
    ensures var items := TakenIn(batchSize, decode, Initial(), run);
      var s := After(batchSize, decode, Initial(), run);
      && Latest(items, h, f, i) && decode(b) == Some(items[i]) && b in s.sent && b in s.published
      && s.index[h][f] == items[i].doc[f]
  {
    hide ValidRun, After, TakenIn, Inv, PutAll;
    var items := TakenIn(batchSize, decode, Initial(), run);
    IndexExactly(batchSize, decode, run, h, f);
    i :| Latest(items, h, f, i);
    InitialInv(batchSize, decode);
    RunKeeps(batchSize, decode, Initial(), run);
    b := TakenWasSent(batchSize, decode, Initial(), run, items[i]);
    SentIsPublished(batchSize, decode, After(batchSize, decode, Initial(), run), b);
  }

  lemma InitialInv(batchSize: nat, decode: Decoder)
    ensures Inv(batchSize, decode, Initial())
  {
  }

  lemma SentIsPublished(batchSize: nat, decode: Decoder, s: State, b: bytes)
    requires Inv(batchSize, decode, s) && b in s.sent
    ensures b in s.published
  {
  }

  lemma StepAnswers(batchSize: nat, decode: Decoder, s: State, e: Event, b: bytes)
    requires Inv(batchSize, decode, s) && Enabled(batchSize, s, e)
    requires b in Step(batchSize, decode, s, e).answered && b !in s.answered
    ensures decode(b).Some?
    ensures decode(b).value in TakenBy(batchSize, decode, s, e) || decode(b).value in RefusedBy(batchSize, decode, s, e)
  {
    hide Items, PutAll, UpTo, Beyond, Bodies, Except, Conserved, Tracked, Answering;
    var ts, held := BulkOf(batchSize, decode, s, e), s.held + [s.inflight[0]];
    HeldBodies(decode, held, ts, b);
    TakenOrNot(ts, e.bulk);
  }

  /** What an answered bulk of the run had was taken or refused. */
  lemma {:induction false} AnsweredIsTakenOrRefused(batchSize: nat, decode: Decoder, s: State, run: seq<Event>, b: bytes)
    requires Inv(batchSize, decode, s) && ValidRun(batchSize, decode, s, run)
    requires b in After(batchSize, decode, s, run).answered && b !in s.answered
    ensures decode(b).Some?
    ensures decode(b).value in TakenIn(batchSize, decode, s, run) || decode(b).value in RefusedIn(batchSize, decode, s, run)
    decreases |run|
  {
    hide Step, Enabled, Inv, TakenBy, RefusedBy;
    if run != [] {
      var s1 := Step(batchSize, decode, s, run[0]);
      StepKeeps(batchSize, decode, s, run[0]);
      if b in s1.answered {
        StepAnswers(batchSize, decode, s, run[0], b);
      } else {
        AnsweredIsTakenOrRefused(batchSize, decode, s1, run[1..], b);
      }
    }
  }

  /**
   In every run a message that was acknowledged after a bulk was taken or refused, and its hash is
   in the index if and only if some bulk of the run had an item with that hash taken.
   */
  lemma AcknowledgedExactly(batchSize: nat, decode: Decoder, run: seq<Event>, b: bytes)
    requires ValidRun(batchSize, decode, Initial(), run) && b in After(batchSize, decode, Initial(), run).settled
    ensures var items := TakenIn(batchSize, decode, Initial(), run);
      && decode(b).Some?
      && (decode(b).value in items || decode(b).value in RefusedIn(batchSize, decode, Initial(), run))
      && (decode(b).value.infoHash in After(batchSize, decode, Initial(), run).index <==>
          exists i: nat :: Hit(items, decode(b).value.infoHash, i))
  {
    hide ValidRun, After, TakenIn, RefusedIn, Inv;
    InitialInv(batchSize, decode);
    RunKeeps(batchSize, decode, Initial(), run);
    SettledIsAnswered(batchSize, decode, After(batchSize, decode, Initial(), run), b);
    AnsweredIsTakenOrRefused(batchSize, decode, Initial(), run, b);
    IndexExactly(batchSize, decode, run, decode(b).value.infoHash, []);
  }

  lemma SettledIsAnswered(batchSize: nat, decode: Decoder, s: State, b: bytes)
    requires Inv(batchSize, decode, s) && b in s.settled
    ensures b in s.answered
  {
  }

  predicate RefusesNothing(e: Event) {
    e.Process? && !e.bulk.Failed? ==> e.bulk.refused == {}
  }

  lemma {:induction false} NothingRefused(batchSize: nat, decode: Decoder, s: State, run: seq<Event>)
    requires ValidRun(batchSize, decode, s, run) && forall i :: 0 <= i < |run| ==> RefusesNothing(run[i])
    ensures RefusedIn(batchSize, decode, s, run) == []
    decreases |run|
  {
    hide Step, Enabled, BulkOf, Items;
    if run != [] {
      assert RefusesNothing(run[0]);
      if run[0].Process? && !run[0].bulk.Failed? {
        AllTaken(BulkOf(batchSize, decode, s, run[0]), run[0].bulk);
      }
      NothingRefused(batchSize, decode, Step(batchSize, decode, s, run[0]), run[1..]);
    }
  }

  /** As long as no answer refuses an item, everything acknowledged after a bulk is in the index. */
  lemma AcknowledgedIsIndexed(batchSize: nat, decode: Decoder, run: seq<Event>, b: bytes)
    requires ValidRun(batchSize, decode, Initial(), run) && forall i :: 0 <= i < |run| ==> RefusesNothing(run[i])
    requires b in After(batchSize, decode, Initial(), run).settled
    ensures decode(b).Some? && decode(b).value.infoHash in After(batchSize, decode, Initial(), run).index
  {
    hide ValidRun, After, TakenIn, RefusedIn;
    NothingRefused(batchSize, decode, Initial(), run);
    AcknowledgedExactly(batchSize, decode, run, b);
    var items := TakenIn(batchSize, decode, Initial(), run);
    var i :| 0 <= i < |items| && items[i] == decode(b).value;
    assert Hit(items, decode(b).value.infoHash, i);
  }

  lemma {:induction false} OneMore(batchSize: nat, decode: Decoder, s: State, run: seq<Event>, e: Event)
    requires ValidRun(batchSize, decode, s, run) && Enabled(batchSize, After(batchSize, decode, s, run), e)
    ensures ValidRun(batchSize, decode, s, run + [e])
    ensures After(batchSize, decode, s, run + [e]) == Step(batchSize, decode, After(batchSize, decode, s, run), e)
    decreases |run|
  {
    hide Enabled, Step;
    if run == [] {
      var s' := Step(batchSize, decode, s, e);
      assert run + [e] == [e] && [e][1..] == [];
      assert ValidRun(batchSize, decode, s', []) && After(batchSize, decode, s', []) == s';
    } else {
      assert (run + [e])[0] == run[0] && (run + [e])[1..] == run[1..] + [e];
      OneMore(batchSize, decode, Step(batchSize, decode, s, run[0]), run[1..], e);
    }
  }

  lemma RefusedSettles(decode: Decoder, s: State, b: bytes)
    requires decode(b).Some? && s.inflight == [Delivery(1, b)] && s.unacked == [Delivery(1, b)]
    requires s.held == [] && s.batch == [] && s.index == map[]
    ensures var s' := Step(1, decode, s, Process(Answered({0})));
      b in s'.settled && s'.index == map[] && s'.queue == s.queue && s'.unacked == []
  {
    hide UpTo, Beyond, Bodies;
    var d, t := Delivery(1, b), decode(b).value;
    OneDelivery(d);
    assert [] + [d] == [d] && [] + [t] == [t];
    assert [t][..0] == [] && Items([t], Answered({0}), true) == [];
  }

  /** A refused item is acknowledged all the same and is in no index. */
  lemma RefusedIsAcknowledged(decode: Decoder, b: bytes)
    requires decode(b).Some?
    ensures var run := [Publish(b), Deliver(b), Process(Answered({0}))];
      && ValidRun(1, decode, Initial(), run)
      && var s := After(1, decode, Initial(), run);
        b in s.settled && decode(b).value.infoHash !in s.index && s.queue == multiset{} && s.unacked == []
  {
    hide ValidRun, After, Take;
    var e := Process(Answered({0}));
    NoSteps(decode);
    OneMore(1, decode, Initial(), [], Publish(b));
    assert [] + [Publish(b)] == [Publish(b)];
    OneMore(1, decode, Initial(), [Publish(b)], Deliver(b));
    assert [Publish(b)] + [Deliver(b)] == [Publish(b), Deliver(b)];
    var s := After(1, decode, Initial(), [Publish(b), Deliver(b)]);
    assert s.queue == multiset{};
    RefusedSettles(decode, s, b);
    OneMore(1, decode, Initial(), [Publish(b), Deliver(b)], e);
    assert [Publish(b), Deliver(b)] + [e] == [Publish(b), Deliver(b), e];
  }

  lemma NoSteps(decode: Decoder)
    ensures ValidRun(1, decode, Initial(), []) && After(1, decode, Initial(), []) == Initial()
  {
  }

  lemma OneDelivery(d: Delivery)
    ensures UpTo([d], d.tag) == [d] && Beyond([d], d.tag) == [] && Bodies([d]) == multiset{d.body}
  {
    assert [d][1..] == [];
    assert UpTo([], d.tag) == [] && Beyond([], d.tag) == [];
    OneBody(d);
  }

  /** A failed bulk returns the whole batch, and only the batch, to the queue. */
  lemma FailureReturnsBatch(batchSize: nat, decode: Decoder, s: State, t: Torrent, applied: set<nat>)
    requires Reachable(batchSize, decode, s) && s.inflight != []
    requires decode(s.inflight[0].body) == Some(t) && |s.batch| + 1 >= batchSize
    ensures var s' := Step(batchSize, decode, s, Process(Failed(applied)));
      && s'.queue == s.queue + Bodies(s.held) + multiset{s.inflight[0].body}
      && s'.unacked == s.inflight[1..] && s'.settled == s.settled && s'.batch == []
  {
    hide Bodies, Answering, UpTo, Beyond, PutAll, Items;
    ReachableInv(batchSize, decode, s);
    JoinKeeps(batchSize, decode, s, t);
    var s2 := Joined(s, t);
    SettleExactly(s2.held, s2.inflight);
    TakeHead(batchSize, s);
  }

  /**
   At every loop head the batch is all that is processed and unacknowledged and it is not full,
   so whenever messages are queued and none is on its way the broker may deliver any of them.
   */
  lemma NeverStalls(batchSize: nat, decode: Decoder, s: State)
    requires Reachable(batchSize, decode, s) && s.inflight == []
    ensures |s.unacked| == |s.batch| && (|s.batch| == 0 || |s.batch| < batchSize)
    ensures forall body :: body in s.queue ==> Enabled(batchSize, s, Deliver(body))
  {
    ReachableInv(batchSize, decode, s);
  }

  // ---------- Draining ----------

  predicate Working(e: Event) {
    e.Deliver? || (e.Process? && e.bulk.Answered?)
  }

  function Work(s: State): nat {
    2 * |s.queue| + |s.inflight|
  }

  lemma StepWorks(batchSize: nat, decode: Decoder, s: State, e: Event)
    requires Enabled(batchSize, s, e) && Working(e)
    ensures Work(Step(batchSize, decode, s, e)) < Work(s)
  {
    hide UpTo, Beyond, Bodies, PutAll, Items, Except;
  }

  /** Delivering and processing cannot go on for ever; the work left bounds the steps. */
  lemma {:induction false} RunIsBounded(batchSize: nat, decode: Decoder, s: State, run: seq<Event>)
    requires ValidRun(batchSize, decode, s, run) && forall i :: 0 <= i < |run| ==> Working(run[i])
    ensures |run| + Work(After(batchSize, decode, s, run)) <= Work(s)
    decreases |run|
  {
    hide Step, Enabled, Work;
    if run != [] {
      StepWorks(batchSize, decode, s, run[0]);
      RunIsBounded(batchSize, decode, Step(batchSize, decode, s, run[0]), run[1..]);
    }
  }

  /**
   When neither a delivery nor a message to process is left, all that is not settled or dropped
   is a batch that is not full: whatever malformed messages were mixed in.
   */
  lemma QuietMeansDrained(batchSize: nat, decode: Decoder, s: State)
    requires Reachable(batchSize, decode, s)
    requires forall e :: Working(e) ==> !Enabled(batchSize, s, e)
    ensures s.published == Bodies(s.held) + s.settled + s.dropped
    ensures |s.held| == 0 || |s.held| < batchSize
  {
    hide Bodies, Answering;
    ReachableInv(batchSize, decode, s);
    assert Working(Process(Answered({}))) && !Enabled(batchSize, s, Process(Answered({})));
    NoBodies();
    forall body: bytes
      ensures body !in s.queue
    {
      assert Working(Deliver(body));
      assert MayDeliver(batchSize, s);
    }
    assert s.queue == multiset{};
  }

  // ---------- The code ----------

  class IndexerService {
    const batchSize: nat
    const decode: Decoder
    var batch: seq<Torrent>
    var delayedCursor: Option<Torrent>
    /** The broker and the search index, with their history; the batch is the field above. */
    var world: State

    function View(): State
      reads this
    {
      world.(batch := batch)
    }

    constructor (batchSize: nat, decode: Decoder)
      ensures View() == Initial() && this.batchSize == batchSize && this.decode == decode
    {
      this.batchSize, this.decode := batchSize, decode;
      batch, delayedCursor, world := [], None, Initial();
    }

    /**
     The bulk request: one partial update per torrent, each marked as indexed. The index lays the
     fields of every item it takes over what it has. The answer is not looked at.
     */
    method BatchSaveToIndex(bulk: Bulk) returns (ok: bool)
      modifies this`world
      ensures ok <==> !bulk.Failed?
      ensures View() == Sent(old(View()), bulk)
    {
      var index := world.index;
      for i := 0 to |batch|
        invariant world == old(world)
        invariant index == PutAll(world.index, Items(batch[..i], bulk, true))
      {
        var t := batch[i];
        assert batch[..i + 1] == batch[..i] + [t];
        ItemsSnoc(batch[..i], t, bulk, true);
        if Takes(bulk, i) {
          PutSnoc(world.index, Items(batch[..i], bulk, true), t);
          var stored := if t.infoHash in index then index[t.infoHash] else map[];
          index := index[t.infoHash := stored + t.doc[SEARCH_UPDATED := TRUE]];
        } else {
          assert Items(batch[..i], bulk, true) + [] == Items(batch[..i], bulk, true);
        }
      }
      assert batch[..|batch|] == batch;
      world := world.(index := index, sent := world.sent + Bodies(world.held));
      if bulk.Failed? {
        return false;
      }
      world := world.(answered := world.answered + Bodies(world.held));
      return true;
    }

    method AckMultiple(tag: nat)
      modifies this`world
      ensures View() == old(View()).(unacked := Beyond(old(world.unacked), tag),
                                     settled := old(world.settled) + Bodies(UpTo(old(world.unacked), tag)))
    {
      world := world.(unacked := Beyond(world.unacked, tag), settled := world.settled + Bodies(UpTo(world.unacked, tag)));
    }

    method NackRequeue(tag: nat)
      modifies this`world
      ensures View() == old(View()).(unacked := Beyond(old(world.unacked), tag),
                                     queue := old(world.queue) + Bodies(UpTo(old(world.unacked), tag)))
    {
      world := world.(unacked := Beyond(world.unacked, tag), queue := world.queue + Bodies(UpTo(world.unacked, tag)));
    }

    /** Saves the full batch and answers the broker for all of it. */
    method FlushBatch(tag: nat, bulk: Bulk)
      requires batch != []
      modifies this
      ensures View() == Flush(old(View()), tag, bulk)
    {
      hide UpTo, Beyond, Bodies, PutAll, Items;
      var ok := BatchSaveToIndex(bulk);
      if !ok {
        NackRequeue(tag);
      } else {
        delayedCursor := Some(batch[0]);
        if bulk.AckLost? {
          // The acknowledgement failed and the process panics.
          world := world.(queue := world.queue + Bodies(world.unacked), unacked := [], inflight := [], nextTag := 1, held := []);
          batch := [];
          return;
        }
        AckMultiple(tag);
      }
      world, batch := world.(held := []), [];
    }

    /** The loop body for one delivery. */
    method HandleDelivery(bulk: Bulk)
      requires world.inflight != []
      modifies this
      ensures View() == Step(batchSize, decode, old(View()), Process(bulk))
    {
      hide Flush, Except;
      var delivery := world.inflight[0];
      world := world.(inflight := world.inflight[1..]);
      var t := decode(delivery.body);
      if t.None? {
        world := world.(unacked := Except(world.unacked, delivery.tag), dropped := world.dropped + multiset{delivery.body});
        return;
      }
      batch := batch + [t.value];
      world := world.(held := world.held + [delivery]);
      if |batch| >= batchSize {
        FlushBatch(delivery.tag, bulk);
      }
    }
  }
}
