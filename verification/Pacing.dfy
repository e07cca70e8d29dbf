/**
 The refresh loop of tracker/internal/svc/tracker.go: a single token starts one refresh after
 another; a refresh takes the torrents last tried at least six hours ago, marks them as tried
 now and scrapes them. Time is in seconds; every step may be delayed.
 */
module Pacing {
  import opened Base

  const SIX_HOURS := 21600

  type Tried = map<bytes, Option<nat>>

  /** Where the refresh stands; `queried` and `marked` are the times of the query and of the update. */
  datatype Stage =
    | Idle
    | Querying
    | Marking(records: seq<bytes>, queried: nat)
    | Scraping(records: seq<bytes>, marked: nat)

  datatype Scrape = Scrape(records: seq<bytes>, marked: nat, at: nat)

  /** `channel` counts the tokens in `needUpdate`, `timers` the delayed ones. */
  datatype State = State(tried: Tried, clock: nat, channel: nat, timers: nat, stage: Stage, scrapes: seq<Scrape>)

  datatype Event =
    | Tick(seconds: nat)
    | Insert(infoHash: bytes)
    | Begin
    | Query(records: seq<bytes>)
    | QueryFails
    | Mark
    | MarkFails
    | DoScrape
    | TimerFires

  predicate Due(tried: Tried, now: nat, h: bytes) {
    h in tried && tried[h].Some? && tried[h].value + SIX_HOURS <= now
  }

  predicate Enabled(s: State, e: Event) {
    match e
    case Tick(_) => true
    case Insert(h) => h !in s.tried
    case Begin => s.channel > 0 && s.stage.Idle?
    case Query(records) =>
      s.stage.Querying? && forall i :: 0 <= i < |records| ==> Due(s.tried, s.clock, records[i])
    case QueryFails => s.stage.Querying?
    case Mark => s.stage.Marking?
    case MarkFails => s.stage.Marking?
    case DoScrape => s.stage.Scraping?
    case TimerFires => s.timers > 0
  }

  function Touched(tried: Tried, records: seq<bytes>, now: nat): Tried {
    map h | h in tried :: if h in records then Some(now) else tried[h]
  }

  /** A refresh sets the time of its torrents and of no others. */
  lemma TouchedExactly(tried: Tried, records: seq<bytes>, now: nat)
    ensures Touched(tried, records, now).Keys == tried.Keys
    ensures forall h :: h in tried ==> Touched(tried, records, now)[h] == if h in records then Some(now) else tried[h]
  {
  }

  /** The token goes straight back after a refresh that found something, and waits otherwise. */
  function Release(s: State, found: bool): State {
    if found then s.(stage := Idle, channel := s.channel + 1) else s.(stage := Idle, timers := s.timers + 1)
  }

  function Step(s: State, e: Event): State
    requires Enabled(s, e)
  {
    match e
    case Tick(seconds) => s.(clock := s.clock + seconds)
    case Insert(h) => s.(tried := s.tried[h := None])
    case Begin => s.(channel := s.channel - 1, stage := Querying)
    case Query(records) => s.(stage := Marking(records, s.clock))
    case QueryFails => Release(s, false)
    case Mark => s.(tried := Touched(s.tried, s.stage.records, s.clock), stage := Scraping(s.stage.records, s.clock))
    case MarkFails => Release(s, s.stage.records != [])
    case DoScrape =>
      Release(s, s.stage.records != []).(scrapes := s.scrapes + [Scrape(s.stage.records, s.stage.marked, s.clock)])
    case TimerFires => s.(timers := s.timers - 1, channel := s.channel + 1)
  }

  ghost predicate ValidRun(s: State, run: seq<Event>)
    decreases |run|
  {
    run == [] || (Enabled(s, run[0]) && ValidRun(Step(s, run[0]), run[1..]))
  }

  ghost function After(s: State, run: seq<Event>): State
    requires ValidRun(s, run)
    decreases |run|
  {
    if run == [] then s else After(Step(s, run[0]), run[1..])
  }

  /** After the start has put the first token into the channel. */
  predicate Started(s: State) {
    s.channel == 1 && s.timers == 0 && s.stage.Idle? && s.scrapes == []
  }

  // ---------- Invariants ----------

  function Tokens(s: State): nat {
    s.channel + s.timers + (if s.stage.Idle? then 0 else 1)
  }

  /** Every scraped torrent has been tried since, and not in the future. */
  ghost predicate Recorded(s: State) {
    forall i, h :: 0 <= i < |s.scrapes| && h in s.scrapes[i].records ==> MarkedBy(s, h, s.scrapes[i].marked)
  }

  ghost predicate MarkedBy(s: State, h: bytes, time: nat) {
    h in s.tried && s.tried[h].Some? && time <= s.tried[h].value
  }

  ghost predicate InTime(s: State) {
    forall i :: 0 <= i < |s.scrapes| ==> s.scrapes[i].marked <= s.scrapes[i].at <= s.clock
  }

  /** The torrents of the refresh in progress are due for it. */
  ghost predicate StageSound(s: State) {
    match s.stage
    case Marking(records, queried) =>
      queried <= s.clock && forall h :: h in records ==> Due(s.tried, queried, h)
    case Scraping(records, marked) =>
      && marked <= s.clock
      && (forall h :: h in records ==> MarkedBy(s, h, marked))
      && forall i, h :: 0 <= i < |s.scrapes| && h in s.scrapes[i].records && h in records ==>
           s.scrapes[i].marked + SIX_HOURS <= marked
    case _ => true
  }

  ghost predicate Paced(s: State) {
    forall i, j, h :: 0 <= i < j < |s.scrapes| && h in s.scrapes[i].records && h in s.scrapes[j].records ==>
      s.scrapes[i].marked + SIX_HOURS <= s.scrapes[j].marked
  }

  ghost predicate Inv(s: State) {
    Tokens(s) == 1 && Recorded(s) && InTime(s) && StageSound(s) && Paced(s)
  }

  lemma TouchKeeps(s: State, h: bytes, time: nat)
    requires s.stage.Marking? && MarkedBy(s, h, time) && time <= s.clock
    ensures MarkedBy(Step(s, Mark), h, time)
  {
  }

  lemma MarkKeeps(s: State)
    requires Inv(s) && s.stage.Marking?
    ensures Inv(Step(s, Mark))
  {
    var s' := Step(s, Mark);
    forall i, h | 0 <= i < |s.scrapes| && h in s.scrapes[i].records
      ensures MarkedBy(s', h, s.scrapes[i].marked)
      ensures h in s.stage.records ==> s.scrapes[i].marked + SIX_HOURS <= s.clock
    {
      assert MarkedBy(s, h, s.scrapes[i].marked);
      TouchKeeps(s, h, s.scrapes[i].marked);
      if h in s.stage.records {
        assert Due(s.tried, s.stage.queried, h);
      }
    }
    forall h | h in s.stage.records
      ensures MarkedBy(s', h, s.clock)
    {
      assert Due(s.tried, s.stage.queried, h);
    }
  }

  lemma InsertKeeps(s: State, h: bytes)
    requires Inv(s) && h !in s.tried
    ensures Inv(Step(s, Insert(h)))
  {
    var s' := Step(s, Insert(h));
    forall x, time | MarkedBy(s, x, time)
      ensures MarkedBy(s', x, time)
    {
    }
    forall i, x | 0 <= i < |s.scrapes| && x in s.scrapes[i].records
      ensures MarkedBy(s', x, s.scrapes[i].marked)
    {
      assert MarkedBy(s, x, s.scrapes[i].marked);
    }
    if s.stage.Marking? {
      forall x | x in s.stage.records
        ensures Due(s'.tried, s.stage.queried, x)
      {
        assert Due(s.tried, s.stage.queried, x);
      }
    }
  }

  lemma OtherKeeps(s: State, e: Event)
    requires Inv(s) && Enabled(s, e) && !e.Mark? && !e.Insert? && !e.DoScrape?
    ensures Inv(Step(s, e))
  {
    var s' := Step(s, e);
    forall i, h | 0 <= i < |s'.scrapes| && h in s'.scrapes[i].records
      ensures MarkedBy(s', h, s'.scrapes[i].marked)
    {
      assert MarkedBy(s, h, s.scrapes[i].marked);
    }
    if s.stage.Scraping? && s'.stage.Scraping? {
      forall h | h in s.stage.records
        ensures MarkedBy(s', h, s.stage.marked)
      {
        assert MarkedBy(s, h, s.stage.marked);
      }
    }
  }

  lemma ScrapeKeeps(s: State)
    requires Inv(s) && s.stage.Scraping?
    ensures Inv(Step(s, DoScrape))
  {
    var s' := Step(s, DoScrape);
    forall i, h | 0 <= i < |s'.scrapes| && h in s'.scrapes[i].records
      ensures MarkedBy(s', h, s'.scrapes[i].marked)
    {
      assert MarkedBy(s, h, s'.scrapes[i].marked);
    }
  }

  lemma StepKeeps(s: State, e: Event)
    requires Inv(s) && Enabled(s, e)
    ensures Inv(Step(s, e))
  {
    hide Inv, Step;
    match e {
      case Mark => MarkKeeps(s);
      case Insert(h) => InsertKeeps(s, h);
      case DoScrape => ScrapeKeeps(s);
      case _ => OtherKeeps(s, e);
    }
  }

  lemma {:induction false} RunKeeps(s: State, run: seq<Event>)
    requires Inv(s) && ValidRun(s, run)
    ensures Inv(After(s, run))
    decreases |run|
  {
    hide Inv, Step, Enabled;
    if run != [] {
      StepKeeps(s, run[0]);
      RunKeeps(Step(s, run[0]), run[1..]);
    }
  }

  // ---------- What the loop promises ----------

  /** Some step of the run marked the torrent, at that time. */
  ghost predicate MarkedIn(s: State, run: seq<Event>, h: bytes, time: nat)
    requires ValidRun(s, run)
    decreases |run|
  {
    run != [] &&
    (|| (run[0].Mark? && s.stage.Marking? && h in s.stage.records && s.clock == time)
     || MarkedIn(Step(s, run[0]), run[1..], h, time))
  }

  /** In every run the time of a torrent's last try stays, unless a refresh with that torrent marked it then. */
  lemma {:induction false} OnlyRefreshesMark(s: State, run: seq<Event>, h: bytes)
    requires ValidRun(s, run) && h in s.tried
    ensures var s' := After(s, run);
      && h in s'.tried
      && (s'.tried[h] == s.tried[h] || (s'.tried[h].Some? && MarkedIn(s, run, h, s'.tried[h].value)))
    decreases |run|
  {
    hide Step, Enabled;
    if run != [] {
      StepMarks(s, run[0], h);
      OnlyRefreshesMark(Step(s, run[0]), run[1..], h);
    }
  }

  lemma StepMarks(s: State, e: Event, h: bytes)
    requires Enabled(s, e) && h in s.tried
    ensures h in Step(s, e).tried
    ensures e.Mark? ==> s.stage.Marking?
    ensures Step(s, e).tried[h] == if e.Mark? && h in s.stage.records then Some(s.clock) else s.tried[h]
  {
  }

  /**
   In every run there is exactly one token, so no send into the channel of capacity one ever
   blocks and no two refreshes overlap.
   */
  lemma OneToken(s: State, run: seq<Event>)
    requires Started(s) && ValidRun(s, run)
    ensures Tokens(After(s, run)) == 1 && After(s, run).channel <= 1
    ensures !After(s, run).stage.Idle? || After(s, run).timers > 0 ==> After(s, run).channel == 0
  {
    RunKeeps(s, run);
  }

  /**
   Two refreshes of a torrent are marked at least six hours apart. The scrapes themselves are at
   least six hours apart but for the time by which the earlier one lagged behind its mark.
   */
  lemma SixHoursApart(s: State, run: seq<Event>, i: nat, j: nat, h: bytes)
    requires Started(s) && ValidRun(s, run)
    requires var scrapes := After(s, run).scrapes;
      i < j < |scrapes| && h in scrapes[i].records && h in scrapes[j].records
    ensures var scrapes := After(s, run).scrapes;
      && scrapes[i].marked + 21600 <= scrapes[j].marked
      && scrapes[i].at + 21600 <= scrapes[j].at + (scrapes[i].at - scrapes[i].marked)
  {
    RunKeeps(s, run);
    assert InTime(After(s, run));
  }

  lemma {:induction false} RunSnoc(s: State, run: seq<Event>, e: Event)
    requires ValidRun(s, run) && Enabled(After(s, run), e)
    ensures ValidRun(s, run + [e]) && After(s, run + [e]) == Step(After(s, run), e)
    decreases |run|
  {
    hide Enabled, Step;
    if run == [] {
      assert run + [e] == [e] && [e][0] == e && [e][1..] == [];
      assert ValidRun(Step(s, e), []) && After(Step(s, e), []) == Step(s, e);
    } else {
      assert (run + [e])[0] == run[0] && (run + [e])[1..] == run[1..] + [e];
      RunSnoc(Step(s, run[0]), run[1..], e);
    }
  }

  /** The bound is tight for every lag: some run has its scrapes six hours apart less exactly the lag. */
  lemma LagIsLost(h: bytes, lag: nat) returns (s: State, run: seq<Event>)
    requires lag <= 21600
    ensures Started(s) && ValidRun(s, run)
    ensures var scrapes := After(s, run).scrapes;
      && |scrapes| == 2 && h in scrapes[0].records && h in scrapes[1].records
      && scrapes[0].at == scrapes[0].marked + lag && scrapes[1].at - scrapes[0].at == 21600 - lag
  {
    hide ValidRun, After;
    s := State(map[h := Some(0)], SIX_HOURS, 1, 0, Idle, []);
    EmptyRun(s);
    run := [];
    RunSnoc(s, run, Begin);
    run := run + [Begin];
    RunSnoc(s, run, Query([h]));
    run := run + [Query([h])];
    RunSnoc(s, run, Mark);
    run := run + [Mark];
    RunSnoc(s, run, Tick(lag));
    run := run + [Tick(lag)];
    RunSnoc(s, run, DoScrape);
    run := run + [DoScrape];
    RunSnoc(s, run, Tick(SIX_HOURS - lag));
    run := run + [Tick(SIX_HOURS - lag)];
    RunSnoc(s, run, Begin);
    run := run + [Begin];
    RunSnoc(s, run, Query([h]));
    run := run + [Query([h])];
    RunSnoc(s, run, Mark);
    run := run + [Mark];
    RunSnoc(s, run, DoScrape);
    run := run + [DoScrape];
  }

  lemma EmptyRun(s: State)
    ensures ValidRun(s, []) && After(s, []) == s
  {
  }

  // ---------- The code ----------

  function LastTry(tried: Tried, h: bytes): nat {
    if h in tried && tried[h].Some? then tried[h].value else 0
  }

  predicate Oldest(tried: Tried, hs: set<bytes>, h: bytes) {
    h in hs && forall x :: x in hs ==> LastTry(tried, h) <= LastTry(tried, x)
  }

  lemma {:induction false} OldestExists(tried: Tried, hs: set<bytes>)
    requires hs != {}
    ensures exists h :: Oldest(tried, hs, h)
    decreases |hs|
  {
    var x :| x in hs;
    if hs == {x} {
      assert Oldest(tried, hs, x);
    } else {
      var rest := hs - {x};
      assert rest != {};
      OldestExists(tried, rest);
      var h :| Oldest(tried, rest, h);
      assert Oldest(tried, hs, if LastTry(tried, x) <= LastTry(tried, h) then x else h);
    }
  }

  lemma TokenIsHere(s: State)
    requires Inv(s) && !s.stage.Idle?
    ensures s.channel == 0 && s.timers == 0
  {
  }

  class RefreshLoop {
    const trackerLimit: nat
    var tried: Tried
    var clock: nat
    var needUpdate: nat
    var timers: nat
    var scrapes: seq<Scrape>
    ghost var stage: Stage

    ghost function View(): State
      reads this
    {
      State(tried, clock, needUpdate, timers, stage, scrapes)
    }

    constructor (trackerLimit: nat, tried: Tried, clock: nat)
      ensures this.trackerLimit == trackerLimit && View() == State(tried, clock, 1, 0, Idle, []) && Inv(View())
    {
      this.trackerLimit := trackerLimit;
      this.tried, this.clock, needUpdate, timers, scrapes := tried, clock, 1, 0, [];
      stage := Idle;
    }

    method SelectOldest() returns (records: seq<bytes>)
      ensures forall i :: 0 <= i < |records| ==> Due(tried, clock, records[i])
      ensures forall i, j :: 0 <= i < j < |records| ==>
        records[i] != records[j] && LastTry(tried, records[i]) <= LastTry(tried, records[j])
      ensures trackerLimit > 0 ==> |records| <= trackerLimit
      ensures forall h :: Due(tried, clock, h) && h !in records ==>
        |records| == trackerLimit > 0 && forall i :: 0 <= i < |records| ==> LastTry(tried, records[i]) <= LastTry(tried, h)
    {
      records := [];
      var rest := set h | h in tried && Due(tried, clock, h);
      while rest != {} && (trackerLimit == 0 || |records| < trackerLimit)
        invariant forall h :: h in rest ==> Due(tried, clock, h) && h !in records
        invariant forall i :: 0 <= i < |records| ==> Due(tried, clock, records[i])
        invariant forall h :: Due(tried, clock, h) ==> h in rest || h in records
        invariant forall i, h :: 0 <= i < |records| && h in rest ==> LastTry(tried, records[i]) <= LastTry(tried, h)
        invariant forall i, j :: 0 <= i < j < |records| ==>
          records[i] != records[j] && LastTry(tried, records[i]) <= LastTry(tried, records[j])
        invariant trackerLimit > 0 ==> |records| <= trackerLimit
        decreases |rest|
      {
        OldestExists(tried, rest);
        var h :| Oldest(tried, rest, h);
        records, rest := records + [h], rest - {h};
      }
    }

    /** The longest untried of the due torrents, oldest first; a limit of 0 is no limit. */
    method GetRecords() returns (records: seq<bytes>)
      ensures forall i :: 0 <= i < |records| ==>
        records[i] in tried && tried[records[i]].Some? && tried[records[i]].value + 21600 <= clock
      ensures forall i, j :: 0 <= i < j < |records| ==>
        records[i] != records[j] && tried[records[i]].value <= tried[records[j]].value
      ensures trackerLimit > 0 ==> |records| <= trackerLimit
      ensures forall h :: h in tried && tried[h].Some? && tried[h].value + 21600 <= clock && h !in records ==>
        |records| == trackerLimit > 0 && forall i :: 0 <= i < |records| ==> tried[records[i]].value <= tried[h].value
    {
      records := SelectOldest();
      assert forall h :: Due(tried, clock, h) <==> h in tried && tried[h].Some? && tried[h].value + 21600 <= clock;
      assert forall h :: Due(tried, clock, h) ==> LastTry(tried, h) == tried[h].value;
      assert forall i :: 0 <= i < |records| ==> Due(tried, clock, records[i]);
    }

    /** The token goes back at once, or after ten seconds if nothing was due. */
    method GiveBack(found: bool)
      modifies this`needUpdate, this`timers, this`stage
      ensures View() == Release(old(View()), found)
    {
      if found {
        needUpdate := needUpdate + 1;
      } else {
        timers := timers + 1;
      }
      stage := Idle;
    }

    method MarkTried(records: seq<bytes>)
      requires stage.Marking? && stage.records == records
      modifies this`tried, this`stage
      ensures View() == Step(old(View()), Mark)
    {
      tried := map h | h in tried :: if h in records then Some(clock) else tried[h];
      stage := Scraping(records, clock);
    }

    /** One uncontended refresh, from the token it took to the token it gives back. */
    method RefreshTracker(queryOk: bool, updateOk: bool)
      requires stage.Querying? && Inv(View())
      modifies this
      ensures Inv(View()) && stage.Idle?
      ensures !queryOk || !updateOk ==> tried == old(tried) && scrapes == old(scrapes)
      ensures queryOk && updateOk ==> exists records ::
        && (forall i :: 0 <= i < |records| ==> Due(old(tried), clock, records[i]))
        && tried.Keys == old(tried).Keys
        && (forall h :: h in tried ==> tried[h] == if h in records then Some(clock) else old(tried)[h])
        && scrapes == old(scrapes) + [Scrape(records, clock, clock)]
        && needUpdate == (if records == [] then 0 else 1)
      ensures !queryOk ==> needUpdate == 0 && timers == 1
      ensures queryOk ==> (needUpdate == 1 <==> exists h :: Due(old(tried), clock, h))
      ensures clock == old(clock)
    {
      hide Inv;
      TokenIsHere(View());
      if !queryOk {
        OtherKeeps(View(), QueryFails);
        GiveBack(false);
        return;
      }
      var records := GetRecords();
      if records != [] {
        assert Due(tried, clock, records[0]);
      }
      StepKeeps(View(), Query(records));
      stage := Marking(records, clock);
      if !updateOk {
        StepKeeps(View(), MarkFails);
        GiveBack(records != []);
        return;
      }
      StepKeeps(View(), Mark);
      MarkTried(records);
      StepKeeps(View(), DoScrape);
      scrapes := scrapes + [Scrape(records, clock, clock)];
      GiveBack(records != []);
    }
  }
}
