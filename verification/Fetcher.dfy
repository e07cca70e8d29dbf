/**
 The two-tier duplicate check of crawler/internal/svc/torrent_fetcher.go: a Bloom filter in
 front of the database, with the filter saved at shutdown and loaded at start.

 Each call is split where other goroutines can come in between: a Push has judged its hash
 before it enqueues or commits it, the check loop has its answer before it commits, and a
 fetched torrent is stored before it is added to the filter. Stopping cancels the database checks
 and then saves the filter; it does not end the handlers that still run, so a hash may be added
 between the save and the end of the process.
 */
module Fetcher {
  import opened Base
  import opened Bloom

  const UNCHECKED_CAPACITY := 10000

  /** Where a pushed request is. */
  datatype Place =
    | Suspect    // the filter knows the hash; waits for room in the channel
    | Unchecked  // waits for the database check
    | Clean      // about to be committed
    | Committed  // given to the executor
    | Dropped    // the executor's queue was full
    | Lost       // the database check failed
    | Known      // the database has the hash

  datatype Request = Request(infoHash: bytes, place: Place)

  /**
   `requests` holds every request of this process under its number, from `base` on; `stored` are
   the requests whose torrent is in the database and not yet in the filter, `finished` those the
   executor is done with; `workers` counts its workers; `stopped` says that the process is being
   stopped; `added` are the hashes added to the filter in this process; `disk` is
   the saved filter.
   */
  datatype State = State(
    filter: Filter, db: set<bytes>, requests: map<nat, Request>, base: nat, next: nat,
    unchecked: seq<nat>, tasks: seq<nat>, running: set<nat>, stored: set<nat>, finished: set<nat>,
    workers: nat, stopped: bool, added: set<bytes>, disk: Option<bytes>)

  /** `bits` is the size of a new filter. */
  datatype Env = Env(hash: Hash, codec: Codec, bits: nat, maxQueue: nat, workers: nat)

  datatype Event =
    | Push(infoHash: bytes)
    | Enqueue(id: nat)
    | Lookup(failed: bool)
    | Commit(id: nat)
    | StartTask
    | GiveUp(id: nat)
    | StoreTorrent(id: nat)
    | PublishFails(id: nat)
    | AddToFilter(id: nat)
    | Cancel
    | WorkerEnds
    | Save
    | Restart

  predicate Usable(f: Filter) {
    f.m > 0 && Bloom.Fits(f)
  }

  predicate IsAt(s: State, id: nat, place: Place) {
    id in s.requests && s.requests[id].place == place
  }

  /** A process starts without a file, or with one that loads. */
  predicate Starts(env: Env, disk: Option<bytes>) {
    disk.None? || Loaded(env.codec, disk.value).Some?
  }

  function FirstFilter(env: Env, disk: Option<bytes>): Filter
    requires Starts(env, disk)
  {
    if disk.None? then Filter(env.bits, 0, 7, {}) else Loaded(env.codec, disk.value).value
  }

  function Boot(env: Env, db: set<bytes>, base: nat, disk: Option<bytes>): State
    requires Starts(env, disk)
  {
    State(FirstFilter(env, disk), db, map[], base, base, [], [], {}, {}, {}, env.workers, false, {}, disk)
  }

  /** Some worker has no task: it may take one, or end once the process is being stopped. */
  predicate Idle(s: State) {
    |s.running| + |s.stored| < s.workers
  }

  predicate Enabled(env: Env, s: State, e: Event)
    requires s.filter.m > 0
  {
    match e
    case Push(_) => true
    case Enqueue(id) => IsAt(s, id, Suspect) && |s.unchecked| < UNCHECKED_CAPACITY
    case Lookup(failed) => s.unchecked != [] && s.unchecked[0] in s.requests && (s.stopped ==> failed)
    case Commit(id) => IsAt(s, id, Clean)
    case StartTask => s.tasks != [] && Idle(s)
    case GiveUp(id) => id in s.running
    case StoreTorrent(id) => id in s.running && id in s.requests
    case PublishFails(id) => id in s.stored
    case AddToFilter(id) => id in s.stored && id in s.requests
    case Cancel => true
    case WorkerEnds => s.stopped && Idle(s)
    case Save => s.stopped
    case Restart => Starts(env, s.disk)
  }

  function Move(s: State, id: nat, place: Place): State
    requires id in s.requests
  {
    s.(requests := s.requests[id := s.requests[id].(place := place)])
  }

  function Add(env: Env, s: State, infoHash: bytes): State
    requires s.filter.m > 0
  {
    s.(filter := Added(env.hash, s.filter, infoHash), added := s.added + {infoHash})
  }

  function Step(env: Env, s: State, e: Event): State
    requires s.filter.m > 0 && Enabled(env, s, e)
  {
    match e
    case Push(infoHash) =>
      var place := if MayContain(env.hash, s.filter, infoHash) then Suspect else Clean;
      s.(requests := s.requests[s.next := Request(infoHash, place)], next := s.next + 1)
    case Enqueue(id) => Move(s, id, Unchecked).(unchecked := s.unchecked + [id])
    case Lookup(failed) =>
      var id := s.unchecked[0];
      var infoHash, s1 := s.requests[id].infoHash, s.(unchecked := s.unchecked[1..]);
      if failed then Move(s1, id, Lost)
      else if infoHash in s.db then Add(env, Move(s1, id, Known), infoHash)
      else Move(s1, id, Clean)
    case Commit(id) =>
      if |s.tasks| >= env.maxQueue then Move(s, id, Dropped)
      else Move(s, id, Committed).(tasks := s.tasks + [id])
    case StartTask => s.(tasks := s.tasks[1..], running := s.running + {s.tasks[0]})
    case GiveUp(id) => s.(running := s.running - {id}, finished := s.finished + {id})
    case StoreTorrent(id) =>
      s.(running := s.running - {id}, stored := s.stored + {id}, db := s.db + {s.requests[id].infoHash})
    case PublishFails(id) => s.(stored := s.stored - {id}, finished := s.finished + {id})
    case AddToFilter(id) =>
      Add(env, s.(stored := s.stored - {id}, finished := s.finished + {id}), s.requests[id].infoHash)
    case Cancel => s.(stopped := true)
    case WorkerEnds => s.(workers := s.workers - 1)
    case Save => s.(disk := Some(Saved(env.codec, s.filter)))
    case Restart => Boot(env, s.db, s.next, s.disk)
  }

  ghost predicate ValidRun(env: Env, s: State, run: seq<Event>)
    decreases |run|
  {
    s.filter.m > 0 &&
    (run == [] || (Enabled(env, s, run[0]) && ValidRun(env, Step(env, s, run[0]), run[1..])))
  }

  ghost function After(env: Env, s: State, run: seq<Event>): (r: State)
    requires ValidRun(env, s, run)
    ensures r.filter.m > 0
    decreases |run|
  {
    if run == [] then s else After(env, Step(env, s, run[0]), run[1..])
  }

  lemma OneEvent(env: Env, s: State, e: Event)
    requires s.filter.m > 0 && Enabled(env, s, e) && Step(env, s, e).filter.m > 0
    ensures ValidRun(env, s, [e]) && After(env, s, [e]) == Step(env, s, e)
  {
    hide Enabled, Step;
    var s' := Step(env, s, e);
    assert [e][1..] == [] && ValidRun(env, s', []) && After(env, s', []) == s';
  }

  lemma {:induction false} Then(env: Env, s: State, r1: seq<Event>, r2: seq<Event>)
    requires ValidRun(env, s, r1) && ValidRun(env, After(env, s, r1), r2)
    ensures ValidRun(env, s, r1 + r2) && After(env, s, r1 + r2) == After(env, After(env, s, r1), r2)
    decreases |r1|
  {
    hide Enabled, Step;
    if r1 == [] {
      assert r1 + r2 == r2;
    } else {
      Then(env, Step(env, s, r1[0]), r1[1..], r2);
      assert (r1 + r2)[0] == r1[0] && (r1 + r2)[1..] == r1[1..] + r2;
    }
  }

  lemma OneMore(env: Env, s: State, run: seq<Event>, e: Event)
    requires ValidRun(env, s, run) && Enabled(env, After(env, s, run), e)
    requires Step(env, After(env, s, run), e).filter.m > 0
    ensures ValidRun(env, s, run + [e]) && After(env, s, run + [e]) == Step(env, After(env, s, run), e)
  {
    hide Enabled, Step, ValidRun, After;
    OneEvent(env, After(env, s, run), e);
    Then(env, s, run, [e]);
  }

  // ---------- Every request is somewhere ----------

  /** What a place says about the queues. */
  ghost predicate Located(s: State, id: nat) {
    && (IsAt(s, id, Unchecked) <==> id in s.unchecked)
    && (IsAt(s, id, Committed) <==> id in s.tasks || id in s.running || id in s.stored || id in s.finished)
    && (IsAt(s, id, Known) ==> s.requests[id].infoHash in s.db)
    && (id in s.stored ==> s.requests[id].infoHash in s.db)
  }

  /** No request is in two of the executor's hands. */
  ghost predicate InOneHand(s: State, id: nat) {
    && !(id in s.tasks && (id in s.running || id in s.stored || id in s.finished))
    && !(id in s.running && (id in s.stored || id in s.finished))
    && !(id in s.stored && id in s.finished)
  }

  ghost predicate Distinct(ids: seq<nat>) {
    forall i, j :: 0 <= i < j < |ids| ==> ids[i] != ids[j]
  }

  /** Every task that is being worked on has its worker, and none has left before the stop. */
  ghost predicate Staffed(env: Env, s: State) {
    |s.running| + |s.stored| <= s.workers && (!s.stopped ==> s.workers == env.workers)
  }

  ghost predicate Orderly(env: Env, s: State) {
    && (forall id :: Located(s, id) && InOneHand(s, id))
    && s.base <= s.next && (forall id :: id in s.requests <==> s.base <= id < s.next)
    && Distinct(s.unchecked) && Distinct(s.tasks)
    && |s.tasks| <= env.maxQueue && |s.unchecked| <= UNCHECKED_CAPACITY
    && Staffed(env, s)
    && s.added <= s.db
  }

  lemma TailOf(ids: seq<nat>)
    requires Distinct(ids) && ids != []
    ensures Distinct(ids[1..]) && forall x :: x in ids[1..] <==> x in ids && x != ids[0]
  {
    forall x
      ensures x in ids[1..] <==> x in ids && x != ids[0]
    {
      if x in ids && x != ids[0] {
        var i :| 0 <= i < |ids| && ids[i] == x;
        assert ids[1..][i - 1] == x;
      }
    }
  }

  lemma EnqueueOrderly(env: Env, s: State, id: nat)
    requires s.filter.m > 0 && Orderly(env, s) && Enabled(env, s, Enqueue(id))
    ensures Orderly(env, Step(env, s, Enqueue(id)))
  {
    var s' := Step(env, s, Enqueue(id));
    assert Located(s, id);
    assert id !in s.unchecked;
    forall x
      ensures Located(s', x) && InOneHand(s', x)
    {
      assert Located(s, x) && InOneHand(s, x);
      assert x in s'.unchecked <==> x in s.unchecked || x == id;
    }
  }

  lemma LookupOrderly(env: Env, s: State, failed: bool)
    requires s.filter.m > 0 && Orderly(env, s) && Enabled(env, s, Lookup(failed))
    ensures Orderly(env, Step(env, s, Lookup(failed)))
  {
    hide Added, MayContain;
    var id, s' := s.unchecked[0], Step(env, s, Lookup(failed));
    assert id in s.unchecked && Located(s, id);
    TailOf(s.unchecked);
    forall x
      ensures Located(s', x) && InOneHand(s', x)
    {
      assert Located(s, x) && InOneHand(s, x);
    }
  }

  lemma CommitOrderly(env: Env, s: State, id: nat)
    requires s.filter.m > 0 && Orderly(env, s) && Enabled(env, s, Commit(id))
    ensures Orderly(env, Step(env, s, Commit(id)))
  {
    var s' := Step(env, s, Commit(id));
    assert Located(s, id) && id !in s.tasks && id !in s.unchecked;
    assert forall x :: x in s.tasks + [id] <==> x in s.tasks || x == id;
    forall x
      ensures Located(s', x) && InOneHand(s', x)
    {
      assert Located(s, x) && InOneHand(s, x);
    }
  }

  /** The steps of the executor and its handlers. */
  predicate OfExecutor(e: Event) {
    e.StartTask? || e.GiveUp? || e.StoreTorrent? || e.PublishFails? || e.AddToFilter?
  }

  lemma ExecutorStaffed(env: Env, s: State, e: Event)
    requires s.filter.m > 0 && Orderly(env, s) && Enabled(env, s, e) && OfExecutor(e)
    ensures Staffed(env, Step(env, s, e))
  {
    hide Added, MayContain;
    var s' := Step(env, s, e);
    match e {
      case StartTask =>
        assert InOneHand(s, s.tasks[0]) && s.tasks[0] in s.tasks;
        assert |s'.running| == |s.running| + 1;
      case StoreTorrent(id) =>
        assert InOneHand(s, id);
        assert |s'.running| == |s.running| - 1 && |s'.stored| == |s.stored| + 1;
      case GiveUp(id) =>
        assert |s'.running| == |s.running| - 1;
      case PublishFails(id) =>
        assert |s'.stored| == |s.stored| - 1;
      case AddToFilter(id) =>
        assert |s'.stored| == |s.stored| - 1;
    }
  }

  lemma ExecutorOrderly(env: Env, s: State, e: Event)
    requires s.filter.m > 0 && Orderly(env, s) && Enabled(env, s, e) && OfExecutor(e)
    ensures Orderly(env, Step(env, s, e))
  {
    hide Added, MayContain, Staffed, Idle;
    var s' := Step(env, s, e);
    if e.StartTask? {
      TailOf(s.tasks);
    }
    ExecutorStaffed(env, s, e);
    forall x
      ensures Located(s', x) && InOneHand(s', x)
    {
      assert Located(s, x) && InOneHand(s, x);
    }
    if e.AddToFilter? {
      assert Located(s, e.id);
    }
  }

  lemma PushOrderly(env: Env, s: State, infoHash: bytes)
    requires s.filter.m > 0 && Orderly(env, s)
    ensures Orderly(env, Step(env, s, Push(infoHash)))
  {
    hide MayContain;
    var s' := Step(env, s, Push(infoHash));
    assert Located(s, s.next) && s.next !in s.requests;
    forall x
      ensures x in s'.requests <==> s'.base <= x < s'.next
    {
      assert x in s.requests <==> s.base <= x < s.next;
    }
    forall x
      ensures Located(s', x) && InOneHand(s', x)
    {
      assert Located(s, x) && InOneHand(s, x);
    }
  }

  lemma SaveOrderly(env: Env, s: State, e: Event)
    requires s.filter.m > 0 && Orderly(env, s) && Enabled(env, s, e) && (e.Cancel? || e.WorkerEnds? || e.Save?)
    ensures Orderly(env, Step(env, s, e))
  {
    hide Saved;
    forall x
      ensures Located(Step(env, s, e), x) && InOneHand(Step(env, s, e), x)
    {
      assert Located(s, x) && InOneHand(s, x);
    }
  }

  lemma RestartOrderly(env: Env, s: State)
    requires s.filter.m > 0 && Enabled(env, s, Restart)
    ensures Orderly(env, Step(env, s, Restart))
  {
    hide Orderly;
    BootOrderly(env, s.db, s.next, s.disk);
  }

  lemma StepOrderly(env: Env, s: State, e: Event)
    requires s.filter.m > 0 && Orderly(env, s) && Enabled(env, s, e)
    ensures Orderly(env, Step(env, s, e))
  {
    hide Orderly, Enabled, Step;
    match e {
      case Enqueue(id) => EnqueueOrderly(env, s, id);
      case Lookup(failed) => LookupOrderly(env, s, failed);
      case Commit(id) => CommitOrderly(env, s, id);
      case Push(infoHash) => PushOrderly(env, s, infoHash);
      case Cancel => SaveOrderly(env, s, e);
      case WorkerEnds => SaveOrderly(env, s, e);
      case Save => SaveOrderly(env, s, e);
      case Restart => RestartOrderly(env, s);
      case _ => ExecutorOrderly(env, s, e);
    }
  }

  lemma {:induction false} RunOrderly(env: Env, s: State, run: seq<Event>)
    requires ValidRun(env, s, run) && Orderly(env, s)
    ensures Orderly(env, After(env, s, run))
    decreases |run|
  {
    hide Orderly, Enabled, Step;
    if run != [] {
      StepOrderly(env, s, run[0]);
      RunOrderly(env, Step(env, s, run[0]), run[1..]);
    }
  }

  lemma BootOrderly(env: Env, db: set<bytes>, base: nat, disk: Option<bytes>)
    requires Starts(env, disk)
    ensures Orderly(env, Boot(env, db, base, disk))
  {
    hide Loaded;
  }

  // ---------- Both queues are first-in first-out ----------

  /** What an event puts into the channel of the check loop, and what it takes out. */
  function Enqueued(s: State, e: Event): seq<nat> {
    if e.Enqueue? then [e.id] else []
  }

  function LookedUp(s: State, e: Event): seq<nat> {
    if e.Lookup? && s.unchecked != [] then [s.unchecked[0]] else []
  }

  /** What an event puts into the queue of the executor, and what it takes out. */
  function Queued(env: Env, s: State, e: Event): seq<nat> {
    if e.Commit? && |s.tasks| < env.maxQueue then [e.id] else []
  }

  function Started(s: State, e: Event): seq<nat> {
    if e.StartTask? && s.tasks != [] then [s.tasks[0]] else []
  }

  /** Everything a run put into a queue, or took out of it, in order. */
  datatype Traffic = Traffic(enqueued: seq<nat>, lookedUp: seq<nat>, queued: seq<nat>, started: seq<nat>)

  ghost function TrafficOf(env: Env, s: State, run: seq<Event>): Traffic
    requires ValidRun(env, s, run)
    decreases |run|
  {
    if run == [] then Traffic([], [], [], [])
    else
      var e, later := run[0], TrafficOf(env, Step(env, s, run[0]), run[1..]);
      Traffic(Enqueued(s, e) + later.enqueued, LookedUp(s, e) + later.lookedUp,
              Queued(env, s, e) + later.queued, Started(s, e) + later.started)
  }

  lemma StepQueues(env: Env, s: State, e: Event)
    requires s.filter.m > 0 && Enabled(env, s, e) && !e.Restart?
    ensures var s' := Step(env, s, e);
      && s.unchecked + Enqueued(s, e) == LookedUp(s, e) + s'.unchecked
      && s.tasks + Queued(env, s, e) == Started(s, e) + s'.tasks
      && (e.StartTask? ==> s'.running == s.running + {s.tasks[0]})
      && (e.Lookup? ==> !IsAt(s', s.unchecked[0], Unchecked))
      && (e.Commit? ==> IsAt(s', e.id, if |s.tasks| < env.maxQueue then Committed else Dropped))
  {
    hide MayContain, Added, Saved, Loaded;
  }

  /** In every run of a process what was waiting and what was put in come out in that order, and the rest still waits. */
  lemma {:induction false} QueuesInOrder(env: Env, s: State, run: seq<Event>)
    requires ValidRun(env, s, run) && NoRestart(run)
    ensures var t, s' := TrafficOf(env, s, run), After(env, s, run);
      && s.unchecked + t.enqueued == t.lookedUp + s'.unchecked
      && s.tasks + t.queued == t.started + s'.tasks
    decreases |run|
  {
    hide Step, Enabled, Enqueued, LookedUp, Queued, Started;
    if run != [] {
      var e, s1 := run[0], Step(env, s, run[0]);
      StepQueues(env, s, e);
      assert NoRestart(run[1..]);
      QueuesInOrder(env, s1, run[1..]);
      var later, s' := TrafficOf(env, s1, run[1..]), After(env, s, run);
      Rotate(s.unchecked, Enqueued(s, e), LookedUp(s, e), s1.unchecked, later.enqueued, later.lookedUp, s'.unchecked);
      Rotate(s.tasks, Queued(env, s, e), Started(s, e), s1.tasks, later.queued, later.started, s'.tasks);
    }
  }

  lemma Rotate(q: seq<nat>, a: seq<nat>, b: seq<nat>, q1: seq<nat>, c: seq<nat>, d: seq<nat>, q2: seq<nat>)
    requires q + a == b + q1 && q1 + c == d + q2
    ensures q + (a + c) == b + d + q2
  {
    assert q + (a + c) == q + a + c;
    assert b + q1 + c == b + (q1 + c);
    assert b + (d + q2) == b + d + q2;
  }

  /** A torrent was fetched, or a check found that the database knows the hash. */
  predicate AddsToFilter(s: State, e: Event) {
    e.AddToFilter? ||
    (e == Lookup(false) && s.unchecked != [] && s.unchecked[0] in s.requests && s.requests[s.unchecked[0]].infoHash in s.db)
  }

  /** How many additions to the filter a run makes. */
  ghost function Additions(env: Env, s: State, run: seq<Event>): nat
    requires ValidRun(env, s, run)
    decreases |run|
  {
    if run == [] then 0
    else (if AddsToFilter(s, run[0]) then 1 else 0) + Additions(env, Step(env, s, run[0]), run[1..])
  }

  lemma StepCountsAdditions(env: Env, s: State, e: Event)
    requires s.filter.m > 0 && Enabled(env, s, e) && !e.Restart?
    ensures Step(env, s, e).filter.n == if AddsToFilter(s, e) then (s.filter.n + 1) % TWO_64 else s.filter.n
  {
    hide MayContain, Saved, Loaded, Locations;
  }

  /** In every run of a process the filter counts every torrent fetched and every hash the database knew. */
  lemma {:induction false} AdditionsCounted(env: Env, s: State, run: seq<Event>)
    requires ValidRun(env, s, run) && NoRestart(run) && s.filter.n < 0x1_0000_0000_0000_0000
    ensures After(env, s, run).filter.n == (s.filter.n + Additions(env, s, run)) % 0x1_0000_0000_0000_0000
    decreases |run|
  {
    hide Step, Enabled;
    if run != [] {
      StepCountsAdditions(env, s, run[0]);
      assert NoRestart(run[1..]);
      AdditionsCounted(env, Step(env, s, run[0]), run[1..]);
    }
  }

  // ---------- Never wrongly suppressed ----------

  /** In the hands of the caller, of the check loop or of the executor. */
  ghost predicate InHand(s: State, id: nat) {
    IsAt(s, id, Suspect) || IsAt(s, id, Clean) || id in s.unchecked || id in s.tasks || id in s.running || id in s.finished
  }

  /**
   In every run, from any database and any saved filter: every request that was pushed in this
   process and whose hash the database does not have is really there. Its Push has not returned,
   or it is in the channel of the check loop, in the executor's queue, being fetched or through;
   otherwise it was dropped for a full queue or lost to a database error. The filter's false
   positives never discard it.
   */
  lemma NeverWronglySuppressed(env: Env, db: set<bytes>, disk: Option<bytes>, run: seq<Event>, id: nat)
    requires Starts(env, disk) && ValidRun(env, Boot(env, db, 0, disk), run)
    ensures var s := After(env, Boot(env, db, 0, disk), run);
      && s.added <= s.db
      && (s.base <= id < s.next ==>
            && id in s.requests
            && (s.requests[id].infoHash in s.db || InHand(s, id) || IsAt(s, id, Dropped) || IsAt(s, id, Lost)))
  {
    BootOrderly(env, db, 0, disk);
    RunOrderly(env, Boot(env, db, 0, disk), run);
    var s := After(env, Boot(env, db, 0, disk), run);
    assert Located(s, id);
  }

  ghost predicate NoneLost(s: State) {
    forall id :: !IsAt(s, id, Lost)
  }

  /** Only a failed database check loses a request. */
  lemma {:induction false} OnlyErrorsLose(env: Env, s: State, run: seq<Event>)
    requires ValidRun(env, s, run) && NoneLost(s)
    requires forall i :: 0 <= i < |run| ==> run[i] != Lookup(true)
    ensures NoneLost(After(env, s, run))
    decreases |run|
  {
    hide Enabled, Step, NoneLost;
    if run != [] {
      StepLosesNone(env, s, run[0]);
      OnlyErrorsLose(env, Step(env, s, run[0]), run[1..]);
    }
  }

  lemma StepLosesNone(env: Env, s: State, e: Event)
    requires s.filter.m > 0 && Enabled(env, s, e) && NoneLost(s) && e != Lookup(true)
    ensures NoneLost(Step(env, s, e))
  {
    hide MayContain, Added, Saved, Loaded;
    forall id
      ensures !IsAt(Step(env, s, e), id, Lost)
    {
      assert !IsAt(s, id, Lost);
    }
  }

  // ---------- Progress ----------

  /** The steps of a process that goes on without new requests, failing checks or a stop. */
  predicate Undisturbed(e: Event) {
    e.Enqueue? || e == Lookup(false) || e.Commit? || e.StartTask? || e.GiveUp? || e.PublishFails?
  }

  ghost predicate AllUndisturbed(run: seq<Event>) {
    forall i :: 0 <= i < |run| ==> Undisturbed(run[i])
  }

  /** Some run of this process commits the request. */
  ghost predicate CanCommit(env: Env, s: State, id: nat) {
    exists run :: ValidRun(env, s, run) && NoRestart(run) && IsAt(After(env, s, run), id, Committed)
  }

  /** The executor has room for a request, or a worker that can make some. */
  predicate TakesMore(env: Env, s: State) {
    |s.tasks| < env.maxQueue || (s.workers > 0 && env.maxQueue > 0)
  }

  /**
   A request that waits at any point of any run, and whose hash the database does not have, can
   still be committed by this process if and only if it is past its check or the process is not
   being stopped, and the executor has room or a worker left.
   */
  lemma FetchableExactly(env: Env, s: State, id: nat)
    requires s.filter.m > 0 && Orderly(env, s)
    requires IsAt(s, id, Suspect) || IsAt(s, id, Unchecked) || IsAt(s, id, Clean)
    requires s.requests[id].infoHash !in s.db
    ensures CanCommit(env, s, id) <==> (IsAt(s, id, Clean) || !s.stopped) && TakesMore(env, s)
  {
    hide ValidRun, After, Orderly;
    if (IsAt(s, id, Clean) || !s.stopped) && TakesMore(env, s) {
      var run := CanStillBeFetched(env, s, id);
      assert NoRestart(run);
    } else {
      forall run | ValidRun(env, s, run) && NoRestart(run)
        ensures !IsAt(After(env, s, run), id, Committed)
      {
        if TakesMore(env, s) {
          CancelledIsNotCommitted(env, s, run, id);
        } else {
          RequestIsOld(env, s, id);
          FullIsNotCommitted(env, s, run, id);
        }
      }
    }
  }

  lemma RequestIsOld(env: Env, s: State, id: nat)
    requires Orderly(env, s) && id in s.requests
    ensures id < s.next
  {
  }

  lemma StepStaysFull(env: Env, s: State, e: Event, id: nat)
    requires s.filter.m > 0 && Enabled(env, s, e) && !e.Restart?
    requires !TakesMore(env, s) && !IsAt(s, id, Committed) && id < s.next
    ensures var s' := Step(env, s, e); !TakesMore(env, s') && !IsAt(s', id, Committed) && id < s'.next
  {
    hide MayContain, Added, Saved, Loaded;
  }

  lemma {:induction false} FullIsNotCommitted(env: Env, s: State, run: seq<Event>, id: nat)
    requires ValidRun(env, s, run) && NoRestart(run)
    requires !TakesMore(env, s) && !IsAt(s, id, Committed) && id < s.next
    ensures !IsAt(After(env, s, run), id, Committed)
    decreases |run|
  {
    hide Enabled, Step, TakesMore;
    if run != [] {
      StepStaysFull(env, s, run[0], id);
      assert NoRestart(run[1..]);
      FullIsNotCommitted(env, Step(env, s, run[0]), run[1..], id);
    }
  }

  /** The check of the request is still to come and will not succeed. */
  ghost predicate Cancelled(s: State, id: nat) {
    s.stopped && (IsAt(s, id, Suspect) || IsAt(s, id, Unchecked) || IsAt(s, id, Lost))
  }

  lemma StepStaysCancelled(env: Env, s: State, e: Event, id: nat)
    requires s.filter.m > 0 && Enabled(env, s, e) && !e.Restart? && Cancelled(s, id) && id < s.next
    ensures Cancelled(Step(env, s, e), id) && id < Step(env, s, e).next
  {
    hide MayContain, Added, Saved, Loaded;
  }

  lemma {:induction false} CancelledIsLost(env: Env, s: State, run: seq<Event>, id: nat)
    requires ValidRun(env, s, run) && NoRestart(run) && Cancelled(s, id) && id < s.next
    ensures Cancelled(After(env, s, run), id)
    decreases |run|
  {
    hide Enabled, Step, Cancelled;
    if run != [] {
      StepStaysCancelled(env, s, run[0], id);
      assert NoRestart(run[1..]);
      CancelledIsLost(env, Step(env, s, run[0]), run[1..], id);
    }
  }

  lemma CancelledIsNotCommitted(env: Env, s: State, run: seq<Event>, id: nat)
    requires Orderly(env, s) && ValidRun(env, s, run) && NoRestart(run)
    requires s.stopped && (IsAt(s, id, Suspect) || IsAt(s, id, Unchecked))
    ensures !IsAt(After(env, s, run), id, Committed)
  {
    hide ValidRun, After;
    assert id in s.requests;
    CancelledIsLost(env, s, run, id);
  }

  /** The positive half, with a run that needs no new request and no failing check. */
  lemma CanStillBeFetched(env: Env, s: State, id: nat) returns (run: seq<Event>)
    requires s.filter.m > 0 && Orderly(env, s) && TakesMore(env, s)
    requires IsAt(s, id, Clean) || (!s.stopped && (IsAt(s, id, Suspect) || IsAt(s, id, Unchecked)))
    requires s.requests[id].infoHash !in s.db
    ensures AllUndisturbed(run) && ValidRun(env, s, run)
    ensures id in After(env, s, run).tasks && IsAt(After(env, s, run), id, Committed)
  {
    hide ValidRun, After, Orderly, Step, Enabled;
    assert Located(s, id) by { OrderlyLocates(env, s, id); }
    if IsAt(s, id, Clean) {
      run := CleanIsCommitted(env, s, id);
    } else if IsAt(s, id, Unchecked) {
      var k :| 0 <= k < |s.unchecked| && s.unchecked[k] == id;
      run := UncheckedIsCommitted(env, s, id, k);
    } else {
      run := SuspectIsCommitted(env, s, id);
    }
  }

  lemma OrderlyLocates(env: Env, s: State, id: nat)
    requires Orderly(env, s)
    ensures Located(s, id) && InOneHand(s, id) && |s.tasks| <= env.maxQueue && |s.unchecked| <= UNCHECKED_CAPACITY
  {
  }

  lemma CleanIsCommitted(env: Env, s: State, id: nat) returns (run: seq<Event>)
    requires s.filter.m > 0 && Orderly(env, s) && TakesMore(env, s) && IsAt(s, id, Clean)
    ensures AllUndisturbed(run) && ValidRun(env, s, run)
    ensures id in After(env, s, run).tasks && IsAt(After(env, s, run), id, Committed)
  {
    hide ValidRun, After, Orderly, Idle;
    OrderlyLocates(env, s, id);
    if |s.tasks| < env.maxQueue {
      run := [Commit(id)];
      OneEvent(env, s, Commit(id));
    } else if Idle(s) {
      run := StartAndCommit(env, s, id);
    } else {
      var e := WorkerFreed(env, s, id);
      OneEvent(env, s, e);
      var rest := StartAndCommit(env, Step(env, s, e), id);
      Then(env, s, [e], rest);
      run := [e] + rest;
    }
  }

  lemma StartAndCommit(env: Env, s: State, id: nat) returns (run: seq<Event>)
    requires s.filter.m > 0 && |s.tasks| == env.maxQueue > 0 && Idle(s) && IsAt(s, id, Clean)
    ensures AllUndisturbed(run) && ValidRun(env, s, run)
    ensures id in After(env, s, run).tasks && IsAt(After(env, s, run), id, Committed)
  {
    hide ValidRun, After, Idle;
    OneEvent(env, s, StartTask);
    OneMore(env, s, [StartTask], Commit(id));
    run := [StartTask] + [Commit(id)];
  }

  /** When all workers are busy, one of them can come to the end of its task. */
  lemma WorkerFreed(env: Env, s: State, id: nat) returns (e: Event)
    requires s.filter.m > 0 && Orderly(env, s) && s.workers > 0 && !Idle(s) && IsAt(s, id, Clean)
    ensures Undisturbed(e) && Enabled(env, s, e)
    ensures var s' := Step(env, s, e); s'.filter == s.filter && Idle(s') && s'.tasks == s.tasks && IsAt(s', id, Clean)
  {
    if s.running != {} {
      var x :| x in s.running;
      e := GiveUp(x);
      assert |s.running - {x}| == |s.running| - 1;
    } else {
      assert |s.stored| > 0;
      var x :| x in s.stored;
      e := PublishFails(x);
      assert |s.stored - {x}| == |s.stored| - 1;
    }
  }

  /** The request at position `k` of the channel comes up after `k` other look-ups. */
  lemma {:induction false} UncheckedIsCommitted(env: Env, s: State, id: nat, k: nat) returns (run: seq<Event>)
    requires s.filter.m > 0 && Orderly(env, s) && TakesMore(env, s) && !s.stopped
    requires k < |s.unchecked| && s.unchecked[k] == id && IsAt(s, id, Unchecked) && s.requests[id].infoHash !in s.db
    ensures AllUndisturbed(run) && ValidRun(env, s, run)
    ensures id in After(env, s, run).tasks && IsAt(After(env, s, run), id, Committed)
    decreases k
  {
    hide ValidRun, After, Orderly, MayContain, Added;
    LookupEnabled(env, s);
    var s1 := Step(env, s, Lookup(false));
    StepOrderly(env, s, Lookup(false));
    OneEvent(env, s, Lookup(false));
    var rest: seq<Event>;
    if k == 0 {
      rest := CleanIsCommitted(env, s1, id);
    } else {
      UncheckedDistinct(env, s, k);
      rest := UncheckedIsCommitted(env, s1, id, k - 1);
    }
    Then(env, s, [Lookup(false)], rest);
    run := [Lookup(false)] + rest;
  }

  lemma LookupEnabled(env: Env, s: State)
    requires s.filter.m > 0 && Orderly(env, s) && s.unchecked != [] && !s.stopped
    ensures Enabled(env, s, Lookup(false))
  {
    assert s.unchecked[0] in s.unchecked && Located(s, s.unchecked[0]);
  }

  lemma UncheckedDistinct(env: Env, s: State, k: nat)
    requires Orderly(env, s) && 0 < k < |s.unchecked|
    ensures s.unchecked[0] != s.unchecked[k]
  {
  }

  lemma SuspectIsCommitted(env: Env, s: State, id: nat) returns (run: seq<Event>)
    requires s.filter.m > 0 && Orderly(env, s) && TakesMore(env, s) && !s.stopped
    requires IsAt(s, id, Suspect) && s.requests[id].infoHash !in s.db
    ensures AllUndisturbed(run) && ValidRun(env, s, run)
    ensures id in After(env, s, run).tasks && IsAt(After(env, s, run), id, Committed)
  {
    hide ValidRun, After, Orderly, MayContain, Added;
    OrderlyLocates(env, s, id);
    if |s.unchecked| < UNCHECKED_CAPACITY {
      var s1 := Step(env, s, Enqueue(id));
      StepOrderly(env, s, Enqueue(id));
      OneEvent(env, s, Enqueue(id));
      var rest := UncheckedIsCommitted(env, s1, id, |s.unchecked|);
      Then(env, s, [Enqueue(id)], rest);
      run := [Enqueue(id)] + rest;
    } else {
      LookupEnabled(env, s);
      var s1 := Step(env, s, Lookup(false));
      StepOrderly(env, s, Lookup(false));
      OneEvent(env, s, Lookup(false));
      assert s.unchecked[0] != id;
      var s2 := Step(env, s1, Enqueue(id));
      StepOrderly(env, s1, Enqueue(id));
      OneMore(env, s, [Lookup(false)], Enqueue(id));
      var rest := UncheckedIsCommitted(env, s2, id, |s1.unchecked|);
      Then(env, s, [Lookup(false)] + [Enqueue(id)], rest);
      run := [Lookup(false)] + [Enqueue(id)] + rest;
    }
  }

  // ---------- Never fetched again ----------

  /** The filter has bits, and so has the one on disk. */
  ghost predicate Sound(env: Env, s: State) {
    && Usable(s.filter) && 0 < env.bits < TWO_64
    && (s.disk.Some? ==> Loaded(env.codec, s.disk.value).Some? && Loaded(env.codec, s.disk.value).value.m > 0)
  }

  lemma StepSound(env: Env, s: State, e: Event)
    requires Inverse(env.codec) && Sound(env, s) && Enabled(env, s, e)
    ensures Sound(env, Step(env, s, e))
  {
    hide MayContain, Saved, Loaded, Locations;
    if e.Save? {
      LoadSaved(env.codec, s.filter);
    } else if e.Restart? && s.disk.Some? {
      LoadedFits(env.codec, s.disk.value);
    }
  }

  lemma {:induction false} RunSound(env: Env, s: State, run: seq<Event>)
    requires Inverse(env.codec) && Sound(env, s) && ValidRun(env, s, run)
    ensures Sound(env, After(env, s, run))
    decreases |run|
  {
    hide Sound, Enabled, Step;
    if run != [] {
      StepSound(env, s, run[0]);
      RunSound(env, Step(env, s, run[0]), run[1..]);
    }
  }

  ghost predicate Remembered(env: Env, s: State, infoHash: bytes) {
    infoHash in s.db && s.filter.m > 0 && MayContain(env.hash, s.filter, infoHash)
  }

  /** The filter on disk has the hash. */
  ghost predicate OnDisk(env: Env, s: State, infoHash: bytes) {
    && s.disk.Some? && Loaded(env.codec, s.disk.value).Some? && Loaded(env.codec, s.disk.value).value.m > 0
    && MayContain(env.hash, Loaded(env.codec, s.disk.value).value, infoHash)
  }

  predicate OnItsWayOut(place: Place) {
    place.Suspect? || place.Unchecked? || place.Lost? || place.Known?
  }

  /** No request for the hash numbered from `since` on has been or will be committed. */
  ghost predicate NotFetched(s: State, infoHash: bytes, since: nat) {
    forall id :: id in s.requests && id >= since && s.requests[id].infoHash == infoHash ==>
      OnItsWayOut(s.requests[id].place)
  }

  ghost predicate NoRestart(run: seq<Event>) {
    forall i :: 0 <= i < |run| ==> !run[i].Restart?
  }

  lemma StepRemembers(env: Env, s: State, e: Event, infoHash: bytes)
    requires s.filter.m > 0 && Enabled(env, s, e) && Remembered(env, s, infoHash)
    requires e.Restart? ==> OnDisk(env, s, infoHash)
    ensures Remembered(env, Step(env, s, e), infoHash)
  {
    hide MayContain, Added, Saved, Loaded, Locations;
    match e {
      case Lookup(_) =>
        AddedIsFound(env.hash, s.filter, s.requests[s.unchecked[0]].infoHash, infoHash);
      case AddToFilter(id) =>
        AddedIsFound(env.hash, s.filter, s.requests[id].infoHash, infoHash);
      case _ =>
    }
  }

  lemma StepStaysOnDisk(env: Env, s: State, e: Event, infoHash: bytes)
    requires Inverse(env.codec) && Sound(env, s) && Enabled(env, s, e) && Remembered(env, s, infoHash)
    requires OnDisk(env, s, infoHash) || e.Save?
    ensures OnDisk(env, Step(env, s, e), infoHash)
  {
    hide MayContain, Added, Saved, Loaded, Locations;
    if e.Save? {
      LoadSaved(env.codec, s.filter);
    }
  }

  lemma StepNotFetched(env: Env, s: State, e: Event, infoHash: bytes, since: nat)
    requires s.filter.m > 0 && Enabled(env, s, e) && Remembered(env, s, infoHash)
    requires NotFetched(s, infoHash, since) && since <= s.next
    ensures NotFetched(Step(env, s, e), infoHash, since) && since <= Step(env, s, e).next
  {
    hide MayContain, Added, Saved, Loaded;
  }

  /** A remembered hash is not fetched again, over restarts too if the disk has it. */
  lemma {:induction false} RunNotFetched(env: Env, s: State, run: seq<Event>, infoHash: bytes, since: nat)
    requires ValidRun(env, s, run) && Inverse(env.codec) && Sound(env, s)
    requires Remembered(env, s, infoHash) && NotFetched(s, infoHash, since) && since <= s.next
    requires OnDisk(env, s, infoHash) || NoRestart(run)
    ensures NotFetched(After(env, s, run), infoHash, since) && since <= After(env, s, run).next
    ensures Remembered(env, After(env, s, run), infoHash)
    decreases |run|
  {
    hide Sound, Remembered, NotFetched, OnDisk, Enabled, Step;
    if run != [] {
      StepSound(env, s, run[0]);
      StepRemembers(env, s, run[0], infoHash);
      StepNotFetched(env, s, run[0], infoHash, since);
      if OnDisk(env, s, infoHash) {
        StepStaysOnDisk(env, s, run[0], infoHash);
      } else {
        assert NoRestart(run[1..]);
      }
      RunNotFetched(env, Step(env, s, run[0]), run[1..], infoHash, since);
    }
  }

  /**
   Once a torrent is stored, its hash added and the filter saved after that, no Push of it from
   the addition on is ever committed: whatever happened before, and in no later run, over any
   number of restarts, with the filter saved again before them or not.
   */
  lemma NeverFetchedAgain(env: Env, db: set<bytes>, disk: Option<bytes>,
                          before: seq<Event>, id: nat, between: seq<Event>, later: seq<Event>)
    requires Inverse(env.codec) && Starts(env, disk) && Sound(env, Boot(env, db, 0, disk))
    requires NoRestart(between)
    requires ValidRun(env, Boot(env, db, 0, disk), before + [AddToFilter(id)] + between + [Save] + later)
    ensures ValidRun(env, Boot(env, db, 0, disk), before)
    ensures var s := After(env, Boot(env, db, 0, disk), before);
      && id in s.requests
      && NotFetched(After(env, Boot(env, db, 0, disk), before + [AddToFilter(id)] + between + [Save] + later),
                    s.requests[id].infoHash, s.next)
  {
    hide ValidRun, After, Orderly, Sound, Step, Enabled, NotFetched;
    var boot := Boot(env, db, 0, disk);
    BootOrderly(env, db, 0, disk);
    Split(env, boot, before + [AddToFilter(id)] + between + [Save], later);
    Split(env, boot, before + [AddToFilter(id)] + between, [Save]);
    Split(env, boot, before + [AddToFilter(id)], between);
    Split(env, boot, before, [AddToFilter(id)]);
    RunOrderly(env, boot, before);
    RunSound(env, boot, before);
    var s := After(env, boot, before);
    First(env, s, AddToFilter(id));
    AddRemembers(env, s, id);
    RememberedIsKept(env, Step(env, s, AddToFilter(id)), between, later, s.requests[id].infoHash, s.next);
  }

  lemma AddRemembers(env: Env, s: State, id: nat)
    requires Inverse(env.codec) && Sound(env, s) && Orderly(env, s) && Enabled(env, s, AddToFilter(id))
    ensures id in s.requests && Sound(env, Step(env, s, AddToFilter(id)))
    ensures Remembered(env, Step(env, s, AddToFilter(id)), s.requests[id].infoHash)
    ensures NotFetched(Step(env, s, AddToFilter(id)), s.requests[id].infoHash, s.next)
    ensures s.next <= Step(env, s, AddToFilter(id)).next
  {
    hide MayContain, Locations, Saved, Loaded, Added;
    assert Located(s, id);
    StepSound(env, s, AddToFilter(id));
    AddedIsFound(env.hash, s.filter, s.requests[id].infoHash, s.requests[id].infoHash);
  }

  lemma RememberedIsKept(env: Env, s: State, between: seq<Event>, later: seq<Event>, infoHash: bytes, since: nat)
    requires Inverse(env.codec) && Sound(env, s) && NoRestart(between)
    requires Remembered(env, s, infoHash) && NotFetched(s, infoHash, since) && since <= s.next
    requires ValidRun(env, s, between) && ValidRun(env, After(env, s, between), [Save])
    requires ValidRun(env, After(env, After(env, s, between), [Save]), later)
    ensures NotFetched(After(env, After(env, After(env, s, between), [Save]), later), infoHash, since)
  {
    hide ValidRun, After, Sound, Step, Enabled, NotFetched, Remembered, OnDisk;
    RunNotFetched(env, s, between, infoHash, since);
    RunSound(env, s, between);
    var s1 := After(env, s, between);
    First(env, s1, Save);
    var s2 := Step(env, s1, Save);
    StepSound(env, s1, Save);
    StepRemembers(env, s1, Save, infoHash);
    StepNotFetched(env, s1, Save, infoHash, since);
    StepStaysOnDisk(env, s1, Save, infoHash);
    RunNotFetched(env, s2, later, infoHash, since);
  }

  lemma First(env: Env, s: State, e: Event)
    requires ValidRun(env, s, [e])
    ensures s.filter.m > 0 && Enabled(env, s, e) && After(env, s, [e]) == Step(env, s, e)
  {
    hide Enabled, Step;
    assert [e][1..] == [];
  }

  lemma {:induction false} Split(env: Env, s: State, r1: seq<Event>, r2: seq<Event>)
    requires ValidRun(env, s, r1 + r2)
    ensures ValidRun(env, s, r1) && ValidRun(env, After(env, s, r1), r2)
    ensures After(env, s, r1 + r2) == After(env, After(env, s, r1), r2)
    decreases |r1|
  {
    hide Enabled, Step;
    if r1 == [] {
      assert r1 + r2 == r2;
    } else {
      assert (r1 + r2)[0] == r1[0] && (r1 + r2)[1..] == r1[1..] + r2;
      Split(env, Step(env, s, r1[0]), r1[1..], r2);
    }
  }

  // ---------- What a restart forgets ----------

  /** Some later run of the restarted process commits a Push of the hash. */
  ghost predicate FetchedAgain(env: Env, s: State, infoHash: bytes) {
    exists run, id :: ValidRun(env, s, run) && Fetches(After(env, s, run), infoHash, s.next, id)
  }

  predicate Fetches(s: State, infoHash: bytes, since: nat, id: nat) {
    IsAt(s, id, Committed) && id >= since && s.requests[id].infoHash == infoHash
  }

  /**
   After any restart a hash that the database has can be fetched again if and only if the
   executor takes anything at all and the file the process started from, if there was one, lacks
   the hash.
   */
  lemma RestartForgetsExactly(env: Env, s: State, infoHash: bytes)
    requires Inverse(env.codec) && Sound(env, s) && infoHash in s.db
    ensures FetchedAgain(env, Step(env, s, Restart), infoHash) <==> env.maxQueue > 0 && !OnDisk(env, s, infoHash)
  {
    hide *;
    RestartIsEnabled(env, s);
    var s1 := Step(env, s, Restart);
    if env.maxQueue == 0 {
      NothingCommitted(env, s, infoHash);
    } else if OnDisk(env, s, infoHash) {
      DiskPreventsFetch(env, s, infoHash);
    } else {
      MissingIsFetched(env, s, infoHash);
    }
  }

  lemma RestartIsEnabled(env: Env, s: State)
    requires Sound(env, s)
    ensures s.filter.m > 0 && Enabled(env, s, Restart) && Step(env, s, Restart).filter.m > 0
  {
    hide Loaded;
  }

  lemma MissingIsFetched(env: Env, s: State, infoHash: bytes)
    requires Sound(env, s) && env.maxQueue > 0 && !OnDisk(env, s, infoHash)
    ensures s.filter.m > 0 && Enabled(env, s, Restart) && FetchedAgain(env, Step(env, s, Restart), infoHash)
    ensures var run := [Push(infoHash), Commit(s.next)];
      var s1 := Step(env, s, Restart);
      ValidRun(env, s1, run) && Fetches(After(env, s1, run), infoHash, s1.next, s.next) && After(env, s1, run).db == s.db
  {
    hide Loaded, MayContain, ValidRun, After;
    var s1 := Step(env, s, Restart);
    if s.disk.None? {
      EmptyContainsNothing(env.hash, s1.filter, infoHash);
    }
    OneEvent(env, s1, Push(infoHash));
    OneMore(env, s1, [Push(infoHash)], Commit(s.next));
    var run := [Push(infoHash), Commit(s.next)];
    assert run == [Push(infoHash)] + [Commit(s.next)];
    assert Fetches(After(env, s1, run), infoHash, s1.next, s.next);
  }

  lemma DiskPreventsFetch(env: Env, s: State, infoHash: bytes)
    requires Inverse(env.codec) && Sound(env, s) && infoHash in s.db && OnDisk(env, s, infoHash)
    ensures s.filter.m > 0 && Enabled(env, s, Restart) && !FetchedAgain(env, Step(env, s, Restart), infoHash)
  {
    hide Loaded, MayContain, ValidRun, After;
    var s1 := Step(env, s, Restart);
    StepSound(env, s, Restart);
    assert Remembered(env, s1, infoHash);
    forall run, id | ValidRun(env, s1, run)
      ensures !Fetches(After(env, s1, run), infoHash, s1.next, id)
    {
      RunNotFetched(env, s1, run, infoHash, s1.next);
    }
  }

  ghost predicate NoneCommitted(s: State) {
    forall id :: !IsAt(s, id, Committed)
  }

  lemma StepCommitsNone(env: Env, s: State, e: Event)
    requires s.filter.m > 0 && Enabled(env, s, e) && NoneCommitted(s) && env.maxQueue == 0
    ensures NoneCommitted(Step(env, s, e))
  {
    hide MayContain, Added, Saved, Loaded;
    forall id
      ensures !IsAt(Step(env, s, e), id, Committed)
    {
      assert !IsAt(s, id, Committed);
    }
  }

  lemma {:induction false} RunCommitsNone(env: Env, s: State, run: seq<Event>)
    requires ValidRun(env, s, run) && NoneCommitted(s) && env.maxQueue == 0
    ensures NoneCommitted(After(env, s, run))
    decreases |run|
  {
    hide Enabled, Step, NoneCommitted;
    if run != [] {
      StepCommitsNone(env, s, run[0]);
      RunCommitsNone(env, Step(env, s, run[0]), run[1..]);
    }
  }

  lemma NothingCommitted(env: Env, s: State, infoHash: bytes)
    requires Sound(env, s) && env.maxQueue == 0
    ensures s.filter.m > 0 && Enabled(env, s, Restart) && !FetchedAgain(env, Step(env, s, Restart), infoHash)
  {
    hide Loaded, MayContain, ValidRun, After;
    var s1 := Step(env, s, Restart);
    forall run, id | ValidRun(env, s1, run)
      ensures !Fetches(After(env, s1, run), infoHash, s1.next, id)
    {
      RunCommitsNone(env, s1, run);
      assert !IsAt(After(env, s1, run), id, Committed);
    }
  }

  /** A handler that adds its hash after the filter was saved: the restarted process fetches the torrent again. */
  lemma AddAfterSaveRefetches(env: Env, h: bytes) returns (run: seq<Event>)
    requires Inverse(env.codec) && 0 < env.bits < TWO_64 && env.maxQueue > 0 && env.workers > 0
    ensures run == [Push(h), Commit(0), StartTask, StoreTorrent(0), Cancel, Save, AddToFilter(0), Restart, Push(h), Commit(1)]
    ensures var boot := Boot(env, {}, 0, None);
      ValidRun(env, boot, run) && h in After(env, boot, run).db && Fetches(After(env, boot, run), h, 1, 1)
  {
    hide ValidRun, After, Step, Enabled, Sound, OnDisk, MayContain, Loaded, Saved, FetchedAgain;
    var boot := Boot(env, {}, 0, None);
    var fetch, save := FetchRun(h), [Cancel, Save, AddToFilter(0)];
    TorrentIsStored(env, h);
    var s1 := After(env, boot, fetch);
    SavedBeforeAdded(env, s1, h);
    Then(env, boot, fetch, save);
    var s2 := After(env, boot, fetch + save);
    RestartIsEnabled(env, s2);
    OneMore(env, boot, fetch + save, Restart);
    MissingIsFetched(env, s2, h);
    Then(env, boot, fetch + save + [Restart], [Push(h), Commit(1)]);
    run := fetch + save + [Restart] + [Push(h), Commit(1)];
    RestartCounts(env, s2);
  }

  function FetchRun(h: bytes): seq<Event> {
    [Push(h), Commit(0), StartTask, StoreTorrent(0)]
  }

  lemma RestartCounts(env: Env, s: State)
    requires s.filter.m > 0 && Enabled(env, s, Restart)
    ensures Step(env, s, Restart).next == s.next
  {
    hide Loaded;
  }

  lemma TorrentIsStored(env: Env, h: bytes)
    requires 0 < env.bits < TWO_64 && env.maxQueue > 0 && env.workers > 0
    ensures var boot := Boot(env, {}, 0, None);
      && ValidRun(env, boot, FetchRun(h))
      && var s := After(env, boot, FetchRun(h));
        s.next == 1 && s.db == {h} && s.stored == {0} && s.filter == boot.filter && 0 in s.requests && s.requests[0].infoHash == h
  {
    hide ValidRun, After, Step, Enabled;
    var boot := Boot(env, {}, 0, None);
    RequestIsCommitted(env, boot, h);
    var s := After(env, boot, [Push(h), Commit(0)]);
    TaskIsStored(env, s, h);
    Then(env, boot, [Push(h), Commit(0)], [StartTask, StoreTorrent(0)]);
    assert [Push(h), Commit(0)] + [StartTask, StoreTorrent(0)] == FetchRun(h);
  }

  lemma RequestIsCommitted(env: Env, boot: State, h: bytes)
    requires 0 < env.bits && env.maxQueue > 0 && boot == Boot(env, {}, 0, None)
    ensures var run := [Push(h), Commit(0)];
      ValidRun(env, boot, run) && After(env, boot, run) == boot.(requests := map[0 := Request(h, Committed)], next := 1, tasks := [0])
  {
    hide ValidRun, After, MayContain;
    EmptyContainsNothing(env.hash, boot.filter, h);
    OneEvent(env, boot, Push(h));
    OneMore(env, boot, [Push(h)], Commit(0));
    assert [Push(h)] + [Commit(0)] == [Push(h), Commit(0)];
  }

  lemma TaskIsStored(env: Env, s: State, h: bytes)
    requires s.filter.m > 0 && s.workers > 0 && s.requests == map[0 := Request(h, Committed)] && s.tasks == [0]
    requires s.running == {} && s.stored == {} && s.db == {}
    ensures var run := [StartTask, StoreTorrent(0)];
      && ValidRun(env, s, run)
      && var s' := After(env, s, run);
        s'.next == s.next && s'.db == {h} && s'.stored == {0} && s'.filter == s.filter && s'.requests == s.requests
  {
    hide ValidRun, After;
    OneEvent(env, s, StartTask);
    OneMore(env, s, [StartTask], StoreTorrent(0));
    assert [StartTask] + [StoreTorrent(0)] == [StartTask, StoreTorrent(0)];
  }

  lemma SavedBeforeAdded(env: Env, s: State, h: bytes)
    requires Inverse(env.codec) && 0 < env.bits < TWO_64 && s.filter == Boot(env, {}, 0, None).filter
    requires 0 in s.stored && 0 in s.requests && s.requests[0].infoHash == h && s.db == {h}
    ensures var run := [Cancel, Save, AddToFilter(0)];
      && ValidRun(env, s, run)
      && var s' := After(env, s, run); Sound(env, s') && !OnDisk(env, s', h) && s'.next == s.next && s'.db == {h}
  {
    hide ValidRun, After, MayContain, Saved, Loaded;
    EmptyContainsNothing(env.hash, s.filter, h);
    LoadSaved(env.codec, s.filter);
    OneEvent(env, s, Cancel);
    OneMore(env, s, [Cancel], Save);
    assert [Cancel] + [Save] == [Cancel, Save];
    OneMore(env, s, [Cancel, Save], AddToFilter(0));
    assert [Cancel, Save] + [AddToFilter(0)] == [Cancel, Save, AddToFilter(0)];
  }

  // ---------- The code ----------

  class TorrentFetcher {
    const env: Env
    const bloomFilter: BloomFilter
    var uncheckedChan: seq<nat>
    var executorQueue: seq<nat>
    /** The database, the disk and the requests; filter and queues are the fields above. */
    var world: State

    ghost function View(): State
      reads this, bloomFilter
    {
      world.(filter := bloomFilter.View(), unchecked := uncheckedChan, tasks := executorQueue)
    }

    constructor (env: Env, filter: BloomFilter, world: State)
      ensures this.env == env && bloomFilter == filter
      ensures View() == world.(filter := filter.View(), unchecked := [], tasks := [])
    {
      this.env, bloomFilter := env, filter;
      uncheckedChan, executorQueue := [], [];
      this.world := world;
    }

    /** Starts over the database with the filter on disk, or fails if the file does not load. */
    static method New(env: Env, db: set<bytes>, base: nat, disk: Option<bytes>) returns (f: TorrentFetcher?)
      ensures f == null <==> !Starts(env, disk)
      ensures f != null ==> fresh(f) && f.env == env && f.View() == Boot(env, db, base, disk)
    {
      hide Loaded;
      var filter: BloomFilter?;
      if disk.None? {
        filter := new BloomFilter(env.bits);
      } else {
        filter := BloomFilter.Load(env.codec, disk.value);
        if filter == null {
          return null;
        }
      }
      var world := State(filter.View(), db, map[], base, base, [], [], {}, {}, {}, env.workers, false, {}, disk);
      f := new TorrentFetcher(env, filter, world);
    }

    /** Cancels the checks, then writes the filter to disk. The handlers that still run are not waited for. */
    method Stop()
      requires bloomFilter.m > 0
      modifies this
      ensures View() == Step(env, Step(env, old(View()), Cancel), Save)
    {
      hide Saved;
      world := world.(stopped := true);
      var file := bloomFilter.Save(env.codec);
      world := world.(disk := Some(file));
    }

    /** Gives the request to the executor unless its queue is full. */
    method CommitRequest(id: nat)
      requires bloomFilter.m > 0 && Enabled(env, View(), Commit(id))
      modifies this
      ensures View() == Step(env, old(View()), Commit(id))
    {
      var infoHash := world.requests[id].infoHash;
      if |executorQueue| >= env.maxQueue {
        world := world.(requests := world.requests[id := Request(infoHash, Dropped)]);
      } else {
        world := world.(requests := world.requests[id := Request(infoHash, Committed)]);
        executorQueue := executorQueue + [id];
      }
    }

    /** An uncontended Push. With a full channel the call waits for room and the request stays with it. */
    method PushRequest(infoHash: bytes) returns (waits: bool)
      requires bloomFilter.m > 0
      modifies this
      ensures waits <==> MayContain(env.hash, bloomFilter.View(), infoHash) && |old(uncheckedChan)| >= 10000
      ensures var s1 := Step(env, old(View()), Push(infoHash));
        var id := old(world.next);
        View() == if waits then s1 else Step(env, s1, if IsAt(s1, id, Suspect) then Enqueue(id) else Commit(id))
    {
      hide MayContain;
      var exist := bloomFilter.Exists(env.hash, infoHash);
      var id := world.next;
      waits := false;
      if !exist.value {
        world := world.(requests := world.requests[id := Request(infoHash, Clean)], next := id + 1);
        CommitRequest(id);
      } else if |uncheckedChan| < UNCHECKED_CAPACITY {
        world := world.(requests := world.requests[id := Request(infoHash, Unchecked)], next := id + 1);
        uncheckedChan := uncheckedChan + [id];
      } else {
        world := world.(requests := world.requests[id := Request(infoHash, Suspect)], next := id + 1);
        waits := true;
      }
    }

    /** One round of the check loop, up to the commit of a request the database does not have. */
    method CheckExist(failed: bool)
      requires bloomFilter.m > 0 && Enabled(env, View(), Lookup(failed))
      modifies this, bloomFilter
      ensures View() == Step(env, old(View()), Lookup(failed))
    {
      hide Added;
      var id := uncheckedChan[0];
      uncheckedChan := uncheckedChan[1..];
      var infoHash := world.requests[id].infoHash;
      if failed {
        world := world.(requests := world.requests[id := Request(infoHash, Lost)]);
      } else if infoHash !in world.db {
        world := world.(requests := world.requests[id := Request(infoHash, Clean)]);
      } else {
        var ok := bloomFilter.Add(env.hash, infoHash);
        world := world.(requests := world.requests[id := Request(infoHash, Known)], added := world.added + {infoHash});
      }
    }

    /** Stores the torrent, publishes it, and only then adds its hash. */
    method HandleTorrent(id: nat, dbOk: bool, publishOk: bool)
      requires bloomFilter.m > 0 && Enabled(env, View(), StoreTorrent(id))
      modifies this, bloomFilter
      ensures !dbOk ==> View() == Step(env, old(View()), GiveUp(id))
      ensures dbOk ==>
        var s1 := Step(env, old(View()), StoreTorrent(id));
        View() == Step(env, s1, if publishOk then AddToFilter(id) else PublishFails(id))
    {
      hide Added;
      world := world.(running := world.running - {id});
      if dbOk {
        var infoHash := world.requests[id].infoHash;
        world := world.(stored := world.stored + {id}, db := world.db + {infoHash});
        if publishOk {
          var ok := bloomFilter.Add(env.hash, infoHash);
          world := world.(added := world.added + {infoHash});
        }
        world := world.(stored := world.stored - {id});
      }
      world := world.(finished := world.finished + {id});
    }
  }
}
