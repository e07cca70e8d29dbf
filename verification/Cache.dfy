/**
 The expiring cache of common/util/cache.go: a bounded channel of tokens, a map, and one
 timer per stored entry. Every atomic step of every call is an action, so a run is any
 interleaving of any number of concurrent calls and timer callbacks.

 `Set` is two halves because the token is pushed before the lock is taken. `delete` holds
 the lock while it waits for a token, so it is two actions as well.
 */
module Cache {
  import opened Base

  datatype Entry<+V> = Entry(timer: nat, value: V)

  /**
   - `armed` are the timers still running, `fired` those whose callback waits for the lock;
   - `pending` are the keys of Sets between their push and their store;
   - `sawFull` counts non-blocking Sets that found the channel full and have not evicted yet,
     `evicting` holds the tokens they took and whose Delete is still to come;
   - `waiting` says that a delete holds the lock, has removed its entry and waits for a token.

   `evictions` and `overwrites` only record history.
   */
  datatype State<K(==), +V> = State(
    tokens: seq<K>, data: map<K, Entry<V>>,
    armed: map<nat, K>, fired: map<nat, K>, nextTimer: nat,
    pending: multiset<K>, sawFull: nat, evicting: multiset<K>, waiting: bool,
    evictions: nat, overwrites: nat)

  datatype Config = Config(maxSize: nat, blocking: bool)

  datatype Action<K(==), +V> =
    | SeeFull
    | Evict
    | EvictDelete(k: K)
    | Push(key: K)
    | Store(key: K, value: V)
    | Remove(k: K)
    | TakeToken
    | Fire(timer: nat)
    | Callback(timer: nat)

  function Empty<K(==), V>(): State<K, V> {
    State([], map[], map[], map[], 0, multiset{}, 0, multiset{}, false, 0, 0)
  }

  predicate Enabled<K(==), V>(c: Config, s: State<K, V>, a: Action<K, V>) {
    match a
    case SeeFull => !c.blocking && |s.tokens| == c.maxSize
    case Evict => s.sawFull > 0 && s.tokens != []
    case EvictDelete(k) => !s.waiting && k in s.evicting
    case Push(_) => |s.tokens| < c.maxSize
    case Store(key, _) => !s.waiting && key in s.pending
    case Remove(_) => !s.waiting
    case TakeToken => s.waiting && s.tokens != []
    case Fire(t) => t in s.armed
    case Callback(t) => !s.waiting && t in s.fired
  }

  /** `delete` up to the point where it needs a token. */
  function Deleting<K(==), V>(s: State<K, V>, k: K): State<K, V> {
    if k !in s.data then s
    else s.(data := s.data - {k}, armed := s.armed - {s.data[k].timer}, waiting := true)
  }

  function Storing<K(==), V>(s: State<K, V>, key: K, value: V): State<K, V> {
    s.(data := s.data[key := Entry(s.nextTimer, value)],
       armed := s.armed[s.nextTimer := key],
       nextTimer := s.nextTimer + 1,
       pending := s.pending - multiset{key},
       overwrites := if key in s.data then s.overwrites + 1 else s.overwrites)
  }

  function Apply<K(==), V>(c: Config, s: State<K, V>, a: Action<K, V>): State<K, V>
    requires Enabled(c, s, a)
  {
    match a
    case SeeFull => s.(sawFull := s.sawFull + 1)
    case Evict =>
      s.(sawFull := s.sawFull - 1, evicting := s.evicting + multiset{s.tokens[0]},
         tokens := s.tokens[1..], evictions := s.evictions + 1)
    case EvictDelete(k) => Deleting(s.(evicting := s.evicting - multiset{k}), k)
    case Push(key) => s.(tokens := s.tokens + [key], pending := s.pending + multiset{key})
    case Store(key, value) => Storing(s, key, value)
    case Remove(k) => Deleting(s, k)
    case TakeToken => s.(tokens := s.tokens[1..], waiting := false)
    case Fire(t) => s.(armed := s.armed - {t}, fired := s.fired[t := s.armed[t]])
    case Callback(t) => Deleting(s.(fired := s.fired - {t}), s.fired[t])
  }

  ghost predicate ValidRun<K(!new), V(!new)>(c: Config, s: State<K, V>, run: seq<Action<K, V>>)
    decreases |run|
  {
    run == [] || (Enabled(c, s, run[0]) && ValidRun(c, Apply(c, s, run[0]), run[1..]))
  }

  ghost function After<K(!new), V(!new)>(c: Config, s: State<K, V>, run: seq<Action<K, V>>): State<K, V>
    requires ValidRun(c, s, run)
    decreases |run|
  {
    if run == [] then s else After(c, Apply(c, s, run[0]), run[1..])
  }

  // ---------- What every step keeps ----------

  function Held(waiting: bool): nat {
    if waiting then 1 else 0
  }

  /** Tokens and evictions on one side; entries, Sets in flight, overwrites and an unfinished delete on the other. */
  ghost predicate TokenLaw<K, V>(s: State<K, V>) {
    |s.tokens| + s.evictions == |s.data| + |s.pending| + s.overwrites + Held(s.waiting)
  }

  ghost predicate Bounded<K, V>(c: Config, s: State<K, V>) {
    && |s.tokens| <= c.maxSize
    && (c.blocking ==>
          && s.evictions == 0 && s.sawFull == 0 && s.evicting == multiset{}
          && (s.overwrites == 0 || s.overwrites < c.maxSize))
  }

  /** `t` will still delete `k`: its timer runs, or its callback waits for the lock. */
  ghost predicate WillExpire<K, V>(s: State<K, V>, t: nat, k: K) {
    (t in s.armed && s.armed[t] == k) || (t in s.fired && s.fired[t] == k)
  }

  ghost predicate TimersLive<K(!new), V>(s: State<K, V>) {
    && (forall t :: t in s.armed || t in s.fired ==> t < s.nextTimer)
    && s.armed.Keys !! s.fired.Keys
    && (forall k :: k in s.data ==> WillExpire(s, s.data[k].timer, k))
  }

  ghost predicate Inv<K(!new), V>(c: Config, s: State<K, V>) {
    TokenLaw(s) && Bounded(c, s) && TimersLive(s)
  }

  lemma RemoveOne<K, V>(m: map<K, V>, k: K)
    requires k in m
    ensures |m - {k}| == |m| - 1
  {
    assert (m - {k}).Keys == m.Keys - {k};
  }

  lemma AddOne<K, V>(m: map<K, V>, k: K, v: V)
    ensures |m[k := v]| == if k in m then |m| else |m| + 1
  {
    assert m[k := v].Keys == m.Keys + {k};
  }

  lemma StepKeepsTokenLaw<K, V>(c: Config, s: State<K, V>, a: Action<K, V>)
    requires TokenLaw(s) && Enabled(c, s, a)
    ensures TokenLaw(Apply(c, s, a))
  {
    match a {
      case EvictDelete(k) => if k in s.data { RemoveOne(s.data, k); }
      case Remove(k) => if k in s.data { RemoveOne(s.data, k); }
      case Callback(t) => if s.fired[t] in s.data { RemoveOne(s.data, s.fired[t]); }
      case Store(key, value) => AddOne(s.data, key, Entry(s.nextTimer, value));
      case _ =>
    }
  }

  lemma StepKeepsBounds<K, V>(c: Config, s: State<K, V>, a: Action<K, V>)
    requires TokenLaw(s) && Bounded(c, s) && Enabled(c, s, a)
    ensures Bounded(c, Apply(c, s, a))
  {
    if a.Store? {
      assert a.key in s.data ==> |s.data| >= 1 by {
        if a.key in s.data { RemoveOne(s.data, a.key); }
      }
      assert |s.pending| >= 1;
    }
  }

  lemma DeletingKeepsTimers<K(!new), V>(s: State<K, V>, k: K)
    requires forall t :: t in s.armed || t in s.fired ==> t < s.nextTimer
    requires s.armed.Keys !! s.fired.Keys
    requires forall x :: x in s.data && x != k ==> WillExpire(s, s.data[x].timer, x)
    requires k in s.data ==> s.data[k].timer in s.armed ==> s.armed[s.data[k].timer] == k
    ensures TimersLive(Deleting(s, k))
  {
    var s' := Deleting(s, k);
    forall x | x in s'.data
      ensures WillExpire(s', s'.data[x].timer, x)
    {
      assert WillExpire(s, s.data[x].timer, x);
    }
  }

  lemma TimersElsewhere<K(!new), V>(s: State<K, V>, s': State<K, V>)
    requires TimersLive(s)
    requires s'.data == s.data && s'.armed == s.armed && s'.fired == s.fired && s'.nextTimer == s.nextTimer
    ensures TimersLive(s')
  {
    forall x | x in s'.data
      ensures WillExpire(s', s'.data[x].timer, x)
    {
      assert WillExpire(s, s.data[x].timer, x);
    }
  }

  lemma RemoveKeepsTimers<K(!new), V>(s: State<K, V>, k: K)
    requires TimersLive(s)
    ensures TimersLive(Deleting(s, k))
  {
    assert k in s.data ==> WillExpire(s, s.data[k].timer, k);
    DeletingKeepsTimers(s, k);
  }

  lemma CallbackKeepsTimers<K(!new), V>(s: State<K, V>, t: nat)
    requires TimersLive(s) && t in s.fired
    ensures TimersLive(Deleting(s.(fired := s.fired - {t}), s.fired[t]))
  {
    var k, s0 := s.fired[t], s.(fired := s.fired - {t});
    forall x | x in s0.data && x != k
      ensures WillExpire(s0, s0.data[x].timer, x)
    {
      assert WillExpire(s, s.data[x].timer, x);
    }
    assert k in s.data ==> WillExpire(s, s.data[k].timer, k);
    DeletingKeepsTimers(s0, k);
  }

  lemma FireKeepsTimers<K(!new), V>(s: State<K, V>, t: nat)
    requires TimersLive(s) && t in s.armed
    ensures TimersLive(s.(armed := s.armed - {t}, fired := s.fired[t := s.armed[t]]))
  {
    var s' := s.(armed := s.armed - {t}, fired := s.fired[t := s.armed[t]]);
    forall x | x in s'.data
      ensures WillExpire(s', s'.data[x].timer, x)
    {
      assert WillExpire(s, s.data[x].timer, x);
    }
  }

  lemma StoreKeepsTimers<K(!new), V>(s: State<K, V>, key: K, value: V)
    requires TimersLive(s)
    ensures TimersLive(Storing(s, key, value))
  {
    var s' := Storing(s, key, value);
    forall x | x in s'.data
      ensures WillExpire(s', s'.data[x].timer, x)
    {
      assert x != key ==> WillExpire(s, s.data[x].timer, x);
    }
  }

  lemma StepKeepsTimers<K(!new), V>(c: Config, s: State<K, V>, a: Action<K, V>)
    requires TimersLive(s) && Enabled(c, s, a)
    ensures TimersLive(Apply(c, s, a))
  {
    hide TimersLive, Deleting, Storing;
    match a {
      case EvictDelete(k) =>
        var s0 := s.(evicting := s.evicting - multiset{k});
        TimersElsewhere(s, s0);
        RemoveKeepsTimers(s0, k);
      case Remove(k) =>
        RemoveKeepsTimers(s, k);
      case Callback(t) =>
        CallbackKeepsTimers(s, t);
      case Fire(t) =>
        FireKeepsTimers(s, t);
      case Store(key, value) =>
        StoreKeepsTimers(s, key, value);
      case _ =>
        TimersElsewhere(s, Apply(c, s, a));
    }
  }

  /** Every interleaving, in both modes, keeps the token law and a live timer for every entry. */
  lemma {:induction false} RunKeepsInv<K(!new), V(!new)>(c: Config, s: State<K, V>, run: seq<Action<K, V>>)
    requires Inv(c, s) && ValidRun(c, s, run)
    ensures Inv(c, After(c, s, run))
    decreases |run|
  {
    if run != [] {
      StepKeepsTokenLaw(c, s, run[0]);
      StepKeepsBounds(c, s, run[0]);
      StepKeepsTimers(c, s, run[0]);
      RunKeepsInv(c, Apply(c, s, run[0]), run[1..]);
    }
  }

  ghost predicate Reachable<K(!new), V(!new)>(c: Config, s: State<K, V>) {
    exists run :: ValidRun(c, Empty(), run) && After(c, Empty(), run) == s
  }

  lemma ReachableInv<K(!new), V(!new)>(c: Config, s: State<K, V>)
    requires Reachable(c, s)
    ensures Inv(c, s)
  {
    var run :| ValidRun(c, Empty(), run) && After(c, Empty(), run) == s;
    RunKeepsInv(c, Empty(), run);
  }

  // ---------- Values ----------

  /** The last store of `k` in the run put `v` there. */
  ghost predicate LastStored<K(!new), V(!new)>(run: seq<Action<K, V>>, k: K, v: V) {
    exists i :: 0 <= i < |run| && run[i] == Store(k, v) && forall j :: i < j < |run| ==> !IsStoreOf(run[j], k)
  }

  predicate IsStoreOf<K(==), V>(a: Action<K, V>, k: K) {
    a.Store? && a.key == k
  }

  lemma StepValue<K, V>(c: Config, s: State<K, V>, a: Action<K, V>, k: K)
    requires Enabled(c, s, a) && k in Apply(c, s, a).data
    ensures if IsStoreOf(a, k) then Apply(c, s, a).data[k].value == a.value
      else k in s.data && Apply(c, s, a).data[k] == s.data[k]
  {
  }

  /** In every run a stored value is the one the last Set of its key stored. */
  lemma {:induction false} ValueIsLastStored<K(!new), V(!new)>(c: Config, s: State<K, V>, run: seq<Action<K, V>>, k: K)
    requires ValidRun(c, s, run) && k in After(c, s, run).data
    ensures LastStored(run, k, After(c, s, run).data[k].value)
      || (k in s.data && After(c, s, run).data[k] == s.data[k] && forall j :: 0 <= j < |run| ==> !IsStoreOf(run[j], k))
    decreases |run|
  {
    hide Enabled, Apply;
    if run != [] {
      var s1, rest := Apply(c, s, run[0]), run[1..];
      var v := After(c, s, run).data[k].value;
      ValueIsLastStored(c, s1, rest, k);
      if LastStored(rest, k, v) {
        var i :| 0 <= i < |rest| && rest[i] == Store(k, v) && forall j :: i < j < |rest| ==> !IsStoreOf(rest[j], k);
        assert run[i + 1] == Store(k, v);
        assert forall j :: i + 1 < j < |run| ==> run[j] == rest[j - 1];
      } else {
        StepValue(c, s, run[0], k);
        assert forall j :: 0 < j < |run| ==> run[j] == rest[j - 1];
        assert IsStoreOf(run[0], k) ==> run[0] == Store(k, v);
      }
    }
  }

  // ---------- Blocking mode ----------

  /** Never more entries than tokens, never more tokens than the size, and no delete waits in vain. */
  lemma BlockingBounds<K(!new), V(!new)>(c: Config, s: State<K, V>)
    requires c.blocking && Reachable(c, s)
    ensures |s.data| <= |s.tokens| <= c.maxSize
    ensures s.waiting ==> Enabled<K, V>(c, s, TakeToken)
    ensures s.overwrites == 0 || s.overwrites < c.maxSize
  {
    ReachableInv(c, s);
  }

  predicate NoNewSet<K(==), V>(a: Action<K, V>) {
    a.Store? || a.Fire? || a.Callback? || a.TakeToken?
  }

  /**
   A full cache always gets room again without any new call: an unfinished delete takes its
   token, or some entry's timer runs out, after a Set in flight has stored its value `v` if
   there is no entry yet.
   */
  lemma FullCacheDrains<K(!new), V(!new)>(c: Config, s: State<K, V>, v: V) returns (run: seq<Action<K, V>>)
    requires c.blocking && c.maxSize > 0 && Reachable(c, s) && |s.tokens| == c.maxSize
    ensures forall i :: 0 <= i < |run| ==> NoNewSet(run[i])
    ensures ValidRun(c, s, run) && |After(c, s, run).tokens| == c.maxSize - 1
  {
    ReachableInv(c, s);
    hide ValidRun, After, TimersLive;
    if s.waiting {
      OneStep(c, s, TakeToken);
      run := [TakeToken];
    } else if |s.data| > 0 {
      run := EntryExpires(c, s);
    } else {
      assert |s.pending| > 0;
      run := StoreThenExpire(c, s, v);
    }
  }

  lemma StoreThenExpire<K(!new), V(!new)>(c: Config, s: State<K, V>, v: V) returns (run: seq<Action<K, V>>)
    requires TimersLive(s) && |s.pending| > 0 && !s.waiting && s.tokens != []
    ensures forall i :: 0 <= i < |run| ==> NoNewSet(run[i])
    ensures ValidRun(c, s, run) && |After(c, s, run).tokens| == |s.tokens| - 1
  {
    hide ValidRun, After, TimersLive;
    var k :| k in s.pending;
    StepKeepsTimers(c, s, Store(k, v));
    OneStep(c, s, Store(k, v));
    var s1 := Apply(c, s, Store(k, v));
    assert k in s1.data;
    RemoveOne(s1.data, k);
    var rest := EntryExpires(c, s1);
    RunConcat(c, s, [Store(k, v)], rest);
    run := [Store(k, v)] + rest;
  }

  lemma EntryExpires<K(!new), V(!new)>(c: Config, s: State<K, V>) returns (run: seq<Action<K, V>>)
    requires TimersLive(s) && |s.data| > 0 && !s.waiting && s.tokens != []
    ensures forall i :: 0 <= i < |run| ==> NoNewSet(run[i])
    ensures ValidRun(c, s, run) && |After(c, s, run).tokens| == |s.tokens| - 1
  {
    hide ValidRun, After;
    var k :| k in s.data;
    var t := s.data[k].timer;
    assert WillExpire(s, t, k);
    if t in s.armed {
      var s1 := Apply(c, s, Fire(t));
      assert s1.fired[t] == k;
      OneStep(c, s, Fire(t));
      ExpireFrees(c, s1, t);
      RunConcat(c, s, [Fire(t)], ExpireRun(t));
      run := [Fire(t)] + ExpireRun(t);
    } else {
      run := ExpireRun(t);
      ExpireFrees(c, s, t);
    }
  }

  function ExpireRun<K(==), V>(t: nat): seq<Action<K, V>> {
    [Callback(t), TakeToken]
  }

  lemma ExpireFrees<K(!new), V(!new)>(c: Config, s: State<K, V>, t: nat)
    requires t in s.fired && s.fired[t] in s.data && !s.waiting && s.tokens != []
    ensures ValidRun(c, s, ExpireRun(t))
    ensures |After(c, s, ExpireRun(t)).tokens| == |s.tokens| - 1
  {
    hide ValidRun, After;
    OneStep(c, s, Callback(t));
    RunSnoc(c, s, [Callback(t)], TakeToken);
    assert ExpireRun<K, V>(t) == [Callback(t)] + [TakeToken];
  }

  // ---------- Whose entry a timer deletes ----------

  /** Every running timer belongs to the entry it was started for. */
  ghost predicate TimersAreOwn<K(!new), V>(s: State<K, V>) {
    forall t :: t in s.armed ==> s.armed[t] in s.data && s.data[s.armed[t]].timer == t
  }

  /**
   In every run without overwrites the running timers are those of the stored entries: a delete
   has stopped the timer of its entry.
   */
  lemma {:induction false} TimersStayOwn<K(!new), V(!new)>(c: Config, s: State<K, V>, run: seq<Action<K, V>>)
    requires ValidRun(c, s, run) && TimersLive(s) && TimersAreOwn(s)
    requires After(c, s, run).overwrites == s.overwrites
    ensures TimersAreOwn(After(c, s, run))
    decreases |run|
  {
    hide Enabled, Apply, TimersLive, TimersAreOwn;
    if run != [] {
      var s1 := Apply(c, s, run[0]);
      OverwritesGrow(c, s1, run[1..]);
      StepCountsOverwrites(c, s, run[0]);
      StepKeepsTimers(c, s, run[0]);
      StepKeepsOwn(c, s, run[0]);
      TimersStayOwn(c, s1, run[1..]);
    }
  }

  lemma StepCountsOverwrites<K(!new), V(!new)>(c: Config, s: State<K, V>, a: Action<K, V>)
    requires Enabled(c, s, a)
    ensures Apply(c, s, a).overwrites == s.overwrites + if a.Store? && a.key in s.data then 1 else 0
  {
  }

  lemma {:induction false} OverwritesGrow<K(!new), V(!new)>(c: Config, s: State<K, V>, run: seq<Action<K, V>>)
    requires ValidRun(c, s, run)
    ensures After(c, s, run).overwrites >= s.overwrites
    decreases |run|
  {
    hide Enabled, Apply;
    if run != [] {
      StepCountsOverwrites(c, s, run[0]);
      OverwritesGrow(c, Apply(c, s, run[0]), run[1..]);
    }
  }

  lemma StepKeepsOwn<K(!new), V(!new)>(c: Config, s: State<K, V>, a: Action<K, V>)
    requires Enabled(c, s, a) && TimersLive(s) && TimersAreOwn(s) && !(a.Store? && a.key in s.data)
    ensures TimersAreOwn(Apply(c, s, a))
  {
  }

  /** The run in which a key is set twice and the timer of its first value runs out. */
  function StaleRun<K(==), V>(k: K, v: V, w: V): seq<Action<K, V>> {
    [Push(k), Store(k, v), Push(k), Store(k, w), Fire(0), Callback(0)]
  }

  lemma SetTwice<K(!new), V(!new)>(c: Config, k: K, v: V, w: V)
    requires c.maxSize >= 2
    ensures var run := StaleRun(k, v, w)[..4];
      && ValidRun(c, Empty(), run)
      && var s := After(c, Empty(), run);
        s.data == map[k := Entry(1, w)] && s.armed == map[0 := k, 1 := k] && s.fired == map[] && !s.waiting
  {
    hide ValidRun, After;
    var s0: State<K, V> := Empty();
    var run: seq<Action<K, V>> := StaleRun(k, v, w);
    NoAction<K, V>(c, s0);
    RunSnoc(c, s0, [], Push(k));
    assert [] + [run[0]] == run[..1];
    assert After(c, s0, run[..1]).pending == multiset{k};
    RunSnoc(c, s0, run[..1], Store(k, v));
    assert run[..1] + [run[1]] == run[..2];
    RunSnoc(c, s0, run[..2], Push(k));
    assert run[..2] + [run[2]] == run[..3];
    RunSnoc(c, s0, run[..3], Store(k, w));
    assert run[..3] + [run[3]] == run[..4];
  }

  /** The timer of an overwritten value goes on running, and deletes the value that replaced it. */
  lemma StaleTimerDeletes<K(!new), V(!new)>(c: Config, k: K, v: V, w: V)
    requires c.maxSize >= 2
    ensures ValidRun(c, Empty(), StaleRun(k, v, w)) && ValidRun(c, Empty(), StaleRun(k, v, w)[..4])
    ensures After(c, Empty(), StaleRun(k, v, w)[..4]).data == map[k := Entry(1, w)]
    ensures k !in After(c, Empty(), StaleRun(k, v, w)).data
  {
    hide ValidRun, After;
    var s0: State<K, V> := Empty();
    var run: seq<Action<K, V>> := StaleRun(k, v, w);
    SetTwice(c, k, v, w);
    RunSnoc(c, s0, run[..4], Fire(0));
    assert run[..4] + [run[4]] == run[..5];
    RunSnoc(c, s0, run[..5], Callback(0));
    assert run[..5] + [run[5]] == run;
  }

  // ---------- The order of tokens ----------

  /** The keys whose tokens a run pushed, in order. */
  function Pushed<K(==), V>(run: seq<Action<K, V>>): seq<K> {
    if run == [] then []
    else
      var last := run[|run| - 1];
      Pushed(run[..|run| - 1]) + if last.Push? then [last.key] else []
  }

  /** How many tokens a run took out of the channel. */
  function Taken<K(==), V>(run: seq<Action<K, V>>): nat {
    if run == [] then 0
    else
      var last := run[|run| - 1];
      Taken(run[..|run| - 1]) + if last.Evict? || last.TakeToken? then 1 else 0
  }

  /** A run without its last action. */
  lemma RunInit<K(!new), V(!new)>(c: Config, s: State<K, V>, run: seq<Action<K, V>>)
    requires ValidRun(c, s, run) && run != []
    ensures var before, last := run[..|run| - 1], run[|run| - 1];
      && ValidRun(c, s, before) && Enabled(c, After(c, s, before), last)
      && After(c, s, run) == Apply(c, After(c, s, before), last)
  {
    hide ValidRun, After;
    var before, last := run[..|run| - 1], run[|run| - 1];
    assert run == before + [last];
    RunSplit(c, s, before, [last]);
    LastStep(c, After(c, s, before), last);
    RunConcat(c, s, before, [last]);
  }

  lemma LastStep<K(!new), V(!new)>(c: Config, s: State<K, V>, a: Action<K, V>)
    requires ValidRun(c, s, [a])
    ensures Enabled(c, s, a) && After(c, s, [a]) == Apply(c, s, a)
  {
    hide Apply;
    assert [a][0] == a && [a][1..] == [];
  }

  /**
   In every run from the empty cache the channel is first-in first-out: it holds the keys pushed,
   in the order of their pushes, without as many of the first of them as were taken.
   */
  lemma {:induction false} TokensInOrder<K(!new), V(!new)>(c: Config, run: seq<Action<K, V>>)
    requires ValidRun(c, Empty(), run)
    ensures Taken(run) <= |Pushed(run)| && After(c, Empty(), run).tokens == Pushed(run)[Taken(run)..]
    decreases |run|
  {
    hide ValidRun, After, Apply, Enabled;
    if run == [] {
      EmptyCache<K, V>(c);
    } else {
      var before, last := run[..|run| - 1], run[|run| - 1];
      RunInit(c, Empty(), run);
      TokensInOrder(c, before);
      StepTokens(c, After(c, Empty(), before), last);
      var n, pushed := Taken(before), Pushed(before);
      if last.Push? {
        assert (pushed + [last.key])[n..] == pushed[n..] + [last.key];
      } else {
        assert pushed + [] == pushed;
      }
    }
  }

  lemma StepTokens<K(!new), V(!new)>(c: Config, s: State<K, V>, a: Action<K, V>)
    requires Enabled(c, s, a)
    ensures a.Evict? || a.TakeToken? ==> s.tokens != []
    ensures Apply(c, s, a).tokens ==
      if a.Push? then s.tokens + [a.key] else if a.Evict? || a.TakeToken? then s.tokens[1..] else s.tokens
  {
  }

  lemma EmptyCache<K(!new), V(!new)>(c: Config)
    ensures ValidRun<K, V>(c, Empty(), []) && After<K, V>(c, Empty(), []) == Empty()
  {
  }

  function Count<K(==), V>(run: seq<Action<K, V>>, seen: bool): nat {
    if run == [] then 0
    else
      var last := run[|run| - 1];
      Count(run[..|run| - 1], seen) + if (if seen then last.SeeFull? else last.Evict?) then 1 else 0
  }

  /**
   In every run a Set sees a full channel only when it is full, in non-blocking mode, and there
   are no more evictions than Sets that did.
   */
  lemma {:induction false} EvictsOnlyWhenFull<K(!new), V(!new)>(c: Config, run: seq<Action<K, V>>)
    requires ValidRun(c, Empty(), run)
    ensures After(c, Empty(), run).sawFull == Count(run, true) - Count(run, false)
    ensures run != [] && run[|run| - 1].SeeFull? ==>
      !c.blocking && ValidRun(c, Empty(), run[..|run| - 1]) && |After(c, Empty(), run[..|run| - 1]).tokens| == c.maxSize
    decreases |run|
  {
    hide ValidRun, After;
    if run == [] {
      EmptyCache<K, V>(c);
    } else {
      RunInit(c, Empty(), run);
      EvictsOnlyWhenFull(c, run[..|run| - 1]);
    }
  }

  /** So an eviction takes the key of the oldest push that has not been taken, and so does a delete. */
  lemma OldestIsTaken<K(!new), V(!new)>(c: Config, run: seq<Action<K, V>>)
    requires ValidRun(c, Empty(), run)
    ensures Enabled<K, V>(c, After(c, Empty(), run), Evict) ==>
      var s, n := After(c, Empty(), run), Taken(run);
      && n < |Pushed(run)| && Apply<K, V>(c, s, Evict).tokens == Pushed(run)[n + 1..]
      && Apply<K, V>(c, s, Evict).evicting == s.evicting + multiset{Pushed(run)[n]}
    ensures Enabled<K, V>(c, After(c, Empty(), run), TakeToken) ==>
      var s, n := After(c, Empty(), run), Taken(run);
      n < |Pushed(run)| && Apply<K, V>(c, s, TakeToken).tokens == Pushed(run)[n + 1..]
  {
    hide ValidRun, After, Pushed, Taken;
    TokensInOrder(c, run);
  }

  // ---------- Non-blocking mode ----------

  /** Between calls: no Set, eviction or delete is in progress. */
  ghost predicate AtRest<K, V>(s: State<K, V>) {
    s.pending == multiset{} && s.evicting == multiset{} && s.sawFull == 0 && !s.waiting
  }

  /** The actions of one uncontended non-blocking Set, in the order of the code. */
  function SetActions<K(==), V>(c: Config, s: State<K, V>, key: K, v: V): seq<Action<K, V>> {
    EvictActions(c, s) + [Push(key), Store(key, v)]
  }

  function EvictActions<K(==), V>(c: Config, s: State<K, V>): seq<Action<K, V>> {
    if |s.tokens| != c.maxSize then []
    else if s.tokens == [] then [SeeFull, Evict]
    else EvictStart(s.tokens[0]) + if s.tokens[0] in s.data then [TakeToken] else []
  }

  /** The eviction up to the point where its delete may need a token. */
  function EvictStart<K(==), V>(k: K): seq<Action<K, V>> {
    [SeeFull, Evict, EvictDelete(k)]
  }

  /** The channel holds one token, is full with it, and the token's key is still stored. */
  predicate OneFullSlot<K(==), V>(c: Config, s: State<K, V>) {
    |s.tokens| == c.maxSize == 1 && s.tokens[0] in s.data
  }

  /**
   An uncontended non-blocking Set goes through unless the cache has no room at all, or exactly
   one slot that is taken by a stored key: then its own eviction has taken the token that its
   delete waits for.
   */
  lemma SetStallsExactly<K(!new), V(!new)>(c: Config, s: State<K, V>, key: K, v: V)
    requires !c.blocking && AtRest(s) && |s.tokens| <= c.maxSize
    ensures ValidRun(c, s, SetActions(c, s, key, v)) <==> c.maxSize > 0 && !OneFullSlot(c, s)
    ensures OneFullSlot(c, s) ==>
      ValidRun<K, V>(c, s, EvictStart(s.tokens[0])) && Stalled(After<K, V>(c, s, EvictStart(s.tokens[0])))
  {
    if |s.tokens| < c.maxSize {
      assert SetActions(c, s, key, v) == [Push(key), Store(key, v)];
      PushAndStore(c, s, key, v);
    } else if s.tokens == [] {
      NoRoomAtAll(c, s, key, v);
    } else {
      EvictThenSet(c, s, key, v);
      EvictPrefix(c, s);
    }
  }

  lemma PushAndStore<K(!new), V(!new)>(c: Config, s: State<K, V>, key: K, v: V)
    requires |s.tokens| < c.maxSize && !s.waiting
    ensures ValidRun(c, s, [Push(key), Store(key, v)])
  {
    hide ValidRun, After;
    OneStep(c, s, Push(key));
    RunSnoc(c, s, [Push(key)], Store(key, v));
    assert [Push(key)] + [Store(key, v)] == [Push(key), Store(key, v)];
  }

  lemma NoRoomAtAll<K(!new), V(!new)>(c: Config, s: State<K, V>, key: K, v: V)
    requires !c.blocking && AtRest(s) && s.tokens == [] && c.maxSize == 0
    ensures !ValidRun(c, s, SetActions(c, s, key, v))
  {
    var run := SetActions(c, s, key, v);
    assert run[0] == SeeFull && run[1..][0] == Evict;
  }

  lemma EvictPrefix<K(!new), V(!new)>(c: Config, s: State<K, V>)
    requires !c.blocking && AtRest(s) && |s.tokens| == c.maxSize > 0
    ensures ValidRun<K, V>(c, s, EvictStart(s.tokens[0]))
    ensures After<K, V>(c, s, EvictStart(s.tokens[0])) ==
            Deleting(s.(tokens := s.tokens[1..], evictions := s.evictions + 1), s.tokens[0])
  {
    hide ValidRun, After;
    var k := s.tokens[0];
    var see: seq<Action<K, V>> := [SeeFull];
    var evict: seq<Action<K, V>> := [SeeFull, Evict];
    OneStep(c, s, SeeFull);
    RunSnoc(c, s, see, Evict);
    assert see + [Evict] == evict;
    assert After(c, s, evict).evicting == multiset{k};
    RunSnoc(c, s, evict, EvictDelete(k));
    assert evict + [EvictDelete(k)] == EvictStart(k);
    assert s.evicting + multiset{k} - multiset{k} == s.evicting;
  }

  lemma EvictThenSet<K(!new), V(!new)>(c: Config, s: State<K, V>, key: K, v: V)
    requires !c.blocking && AtRest(s) && |s.tokens| == c.maxSize > 0
    ensures ValidRun(c, s, SetActions(c, s, key, v)) <==> !OneFullSlot(c, s)
  {
    hide ValidRun, After;
    var head: seq<Action<K, V>> := EvictStart(s.tokens[0]);
    var finish: seq<Action<K, V>> := [Push(key), Store(key, v)];
    EvictPrefix(c, s);
    var s1 := After(c, s, head);
    if s.tokens[0] !in s.data {
      PushAndStore(c, s1, key, v);
      RunConcat(c, s, head, finish);
      assert SetActions(c, s, key, v) == head + finish;
    } else if c.maxSize > 1 {
      RunSnoc(c, s, head, TakeToken);
      var s2 := After(c, s, head + [TakeToken]);
      PushAndStore(c, s2, key, v);
      RunConcat(c, s, head + [TakeToken], finish);
      assert SetActions(c, s, key, v) == head + [TakeToken] + finish;
    } else {
      var rest: seq<Action<K, V>> := [TakeToken] + finish;
      assert SetActions(c, s, key, v) == head + rest;
      if ValidRun(c, s, head + rest) {
        RunSplit(c, s, head, rest);
        FirstEnabled(c, s1, rest);
      }
    }
  }

  /**
   An uncontended non-blocking Set into a full cache evicts the key of the oldest push that has
   not been taken: exactly that entry goes, if it is still there, and the new one comes.
   */
  lemma SetEvictsOldest<K(!new), V(!new)>(c: Config, run: seq<Action<K, V>>, key: K, v: V)
    requires !c.blocking && c.maxSize > 0 && ValidRun(c, Empty(), run)
    requires var s := After(c, Empty(), run); AtRest(s) && |s.tokens| == c.maxSize && !OneFullSlot(c, s)
    ensures var s := After(c, Empty(), run);
      && Taken(run) < |Pushed(run)| && ValidRun(c, s, SetActions(c, s, key, v))
      && After(c, s, SetActions(c, s, key, v)).data.Keys == s.data.Keys - {Pushed(run)[Taken(run)]} + {key}
  {
    hide ValidRun, After, Pushed, Taken;
    TokensInOrder(c, run);
    var s := After(c, Empty(), run);
    EvictThenSet(c, s, key, v);
    SetLeaves(c, s, key, v);
  }

  lemma SetLeaves<K(!new), V(!new)>(c: Config, s: State<K, V>, key: K, v: V)
    requires !c.blocking && AtRest(s) && |s.tokens| == c.maxSize > 0 && ValidRun(c, s, SetActions(c, s, key, v))
    ensures After(c, s, SetActions(c, s, key, v)).data.Keys == s.data.Keys - {s.tokens[0]} + {key}
  {
    hide ValidRun, After;
    var run := SetActions(c, s, key, v);
    var head: seq<Action<K, V>> := EvictStart(s.tokens[0]);
    EvictPrefix(c, s);
    var take: seq<Action<K, V>> := if s.tokens[0] in s.data then [TakeToken] else [];
    assert run == head + (take + [Push(key)] + [Store(key, v)]);
    RunSplit(c, s, head, take + [Push(key)] + [Store(key, v)]);
    var s1 := After(c, s, head);
    RunConcat(c, s, head, take + [Push(key)] + [Store(key, v)]);
    TakePushStore(c, s1, take, key, v);
  }

  lemma TakePushStore<K(!new), V(!new)>(c: Config, s: State<K, V>, take: seq<Action<K, V>>, key: K, v: V)
    requires take == [] || take == [TakeToken]
    requires ValidRun(c, s, take + [Push(key)] + [Store(key, v)])
    ensures After(c, s, take + [Push(key)] + [Store(key, v)]).data.Keys == s.data.Keys + {key}
  {
    hide ValidRun, After;
    var run := take + [Push(key)] + [Store(key, v)];
    RunInit(c, s, run);
    assert run[..|run| - 1] == take + [Push(key)];
    RunInit(c, s, take + [Push(key)]);
    assert (take + [Push(key)])[..|take|] == take;
    if take == [] {
      NoAction(c, s);
    } else {
      LastStep(c, s, TakeToken);
    }
  }

  lemma NoAction<K(!new), V(!new)>(c: Config, s: State<K, V>)
    ensures ValidRun<K, V>(c, s, []) && After<K, V>(c, s, []) == s
  {
  }

  lemma FirstEnabled<K(!new), V(!new)>(c: Config, s: State<K, V>, run: seq<Action<K, V>>)
    requires ValidRun(c, s, run) && run != []
    ensures Enabled(c, s, run[0])
  {
  }

  lemma {:induction false} RunSplit<K(!new), V(!new)>(c: Config, s: State<K, V>, r1: seq<Action<K, V>>, r2: seq<Action<K, V>>)
    requires ValidRun(c, s, r1 + r2)
    ensures ValidRun(c, s, r1) && ValidRun(c, After(c, s, r1), r2)
    decreases |r1|
  {
    if r1 == [] {
      assert r1 + r2 == r2;
    } else {
      assert (r1 + r2)[0] == r1[0] && (r1 + r2)[1..] == r1[1..] + r2;
      RunSplit(c, Apply(c, s, r1[0]), r1[1..], r2);
    }
  }

  /** A delete holds the lock and waits on the empty channel. */
  predicate Stalled<K(==), V>(s: State<K, V>) {
    s.waiting && s.tokens == []
  }

  /** A stalled delete stays stalled, and with it every call that needs the lock, until some Set pushes a token. */
  lemma {:induction false} StalledUntilPush<K(!new), V(!new)>(c: Config, s: State<K, V>, run: seq<Action<K, V>>)
    requires Stalled(s) && ValidRun(c, s, run) && forall i :: 0 <= i < |run| ==> !run[i].Push?
    ensures Stalled(After(c, s, run)) && After(c, s, run).data == s.data
    decreases |run|
  {
    if run != [] {
      StalledUntilPush(c, Apply(c, s, run[0]), run[1..]);
    }
  }

  /** One push of any key releases it. */
  lemma PushReleases<K(!new), V(!new)>(c: Config, s: State<K, V>, key: K)
    requires Stalled(s) && c.maxSize > 0
    ensures ValidRun(c, s, [Push(key), TakeToken]) && !After(c, s, [Push(key), TakeToken]).waiting
  {
    hide ValidRun, After;
    var push: seq<Action<K, V>> := [Push(key)];
    OneStep(c, s, Push(key));
    RunSnoc(c, s, push, TakeToken);
    assert push + [TakeToken] == [Push(key), TakeToken];
  }

  lemma {:induction false} RunConcat<K(!new), V(!new)>(c: Config, s: State<K, V>, r1: seq<Action<K, V>>, r2: seq<Action<K, V>>)
    requires ValidRun(c, s, r1) && ValidRun(c, After(c, s, r1), r2)
    ensures ValidRun(c, s, r1 + r2) && After(c, s, r1 + r2) == After(c, After(c, s, r1), r2)
    decreases |r1|
  {
    if r1 == [] {
      assert r1 + r2 == r2;
    } else {
      assert (r1 + r2)[0] == r1[0] && (r1 + r2)[1..] == r1[1..] + r2;
      RunConcat(c, Apply(c, s, r1[0]), r1[1..], r2);
    }
  }

  lemma RunSnoc<K(!new), V(!new)>(c: Config, s: State<K, V>, r: seq<Action<K, V>>, a: Action<K, V>)
    requires ValidRun(c, s, r) && Enabled(c, After(c, s, r), a)
    ensures ValidRun(c, s, r + [a]) && After(c, s, r + [a]) == Apply(c, After(c, s, r), a)
  {
    OneStep(c, After(c, s, r), a);
    RunConcat(c, s, r, [a]);
  }

  lemma OneStep<K(!new), V(!new)>(c: Config, s: State<K, V>, a: Action<K, V>)
    requires Enabled(c, s, a)
    ensures ValidRun(c, s, [a]) && After(c, s, [a]) == Apply(c, s, a)
  {
    hide Enabled, Apply;
    var s', one := Apply(c, s, a), [a];
    assert one[0] == a && one[1..] == [];
    assert ValidRun(c, s', []) && After(c, s', []) == s';
  }

  /** Such a state is reached by two Sets into a cache of size one. */
  lemma SecondSetStalls<K(!new), V(!new)>(a: K, v: V) returns (run: seq<Action<K, V>>)
    ensures run == [Push(a), Store(a, v), SeeFull, Evict, EvictDelete(a)]
    ensures ValidRun(Config(1, false), Empty(), run)
    ensures Stalled(After(Config(1, false), Empty(), run))
  {
    var c := Config(1, false);
    run := [];
    RunSnoc(c, Empty(), run, Push(a));
    run := run + [Push(a)];
    RunSnoc(c, Empty(), run, Store(a, v));
    run := run + [Store(a, v)];
    RunSnoc(c, Empty(), run, SeeFull);
    run := run + [SeeFull];
    RunSnoc(c, Empty(), run, Evict);
    run := run + [Evict];
    RunSnoc(c, Empty(), run, EvictDelete(a));
    run := run + [EvictDelete(a)];
  }

  /** Between calls, with a full channel and every key below `next`. */
  ghost predicate Quiet<V>(c: Config, s: State<nat, V>, next: nat) {
    && |s.tokens| == c.maxSize && s.pending == multiset{} && s.evicting == multiset{}
    && s.sawFull == 0 && !s.waiting
    && forall k :: k in s.data ==> k < next
  }

  lemma SetRoom<V(!new)>(c: Config, s0: State<nat, V>, run: seq<Action<nat, V>>, key: nat, v: V)
    returns (run': seq<Action<nat, V>>)
    requires ValidRun(c, s0, run)
    requires var s := After(c, s0, run);
      |s.tokens| < c.maxSize && s.pending == multiset{} && !s.waiting && key !in s.data
    ensures ValidRun(c, s0, run')
    ensures var s, s' := After(c, s0, run), After(c, s0, run');
      && |s'.tokens| == |s.tokens| + 1 && s'.data.Keys == s.data.Keys + {key} && s'.pending == multiset{}
      && s'.evicting == s.evicting && s'.sawFull == s.sawFull && !s'.waiting
  {
    hide ValidRun, After;
    RunSnoc(c, s0, run, Push(key));
    run' := run + [Push(key)];
    assert After(c, s0, run').pending == multiset{key};
    RunSnoc(c, s0, run', Store(key, v));
    run' := run' + [Store(key, v)];
  }

  /** The eviction of an uncontended Set: one token for the head, a second one if the head is stored. */
  lemma EvictRoom<V(!new)>(c: Config, s0: State<nat, V>, run: seq<Action<nat, V>>, next: nat)
    returns (run': seq<Action<nat, V>>)
    requires !c.blocking && c.maxSize >= 2 && ValidRun(c, s0, run) && Quiet(c, After(c, s0, run), next)
    ensures ValidRun(c, s0, run')
    ensures var s, s' := After(c, s0, run), After(c, s0, run');
      && |s'.tokens| - |s'.data| == |s.tokens| - |s.data| - 1 && |s'.data| <= |s.data| <= |s'.data| + 1
      && s'.pending == multiset{} && s'.evicting == multiset{} && s'.sawFull == 0 && !s'.waiting
      && forall k :: k in s'.data ==> k < next
  {
    hide ValidRun, After;
    var s := After(c, s0, run);
    var head := s.tokens[0];
    RunSnoc(c, s0, run, SeeFull);
    run' := run + [SeeFull];
    RunSnoc(c, s0, run', Evict);
    run' := run' + [Evict];
    assert After(c, s0, run').evicting == multiset{head};
    RunSnoc(c, s0, run', EvictDelete(head));
    run' := run' + [EvictDelete(head)];
    if head in s.data {
      RemoveOne(s.data, head);
      RunSnoc(c, s0, run', TakeToken);
      run' := run' + [TakeToken];
    }
  }

  lemma GrowOnce<V(!new)>(c: Config, s0: State<nat, V>, run: seq<Action<nat, V>>, next: nat, v: V)
    returns (run': seq<Action<nat, V>>)
    requires !c.blocking && c.maxSize >= 2 && ValidRun(c, s0, run) && Quiet(c, After(c, s0, run), next)
    ensures ValidRun(c, s0, run') && Quiet(c, After(c, s0, run'), next + 2)
    ensures |After(c, s0, run').data| == |After(c, s0, run).data| + 1
  {
    hide ValidRun, After;
    run' := EvictRoom(c, s0, run, next);
    if |After(c, s0, run').tokens| < c.maxSize - 1 {
      run' := Grow(c, s0, run', next, v);
    }
    run' := Grow(c, s0, run', next + 1, v);
  }

  lemma Grow<V(!new)>(c: Config, s0: State<nat, V>, run: seq<Action<nat, V>>, next: nat, v: V)
    returns (run': seq<Action<nat, V>>)
    requires ValidRun(c, s0, run)
    requires var s := After(c, s0, run);
      && |s.tokens| < c.maxSize && s.pending == multiset{} && s.evicting == multiset{} && s.sawFull == 0 && !s.waiting
      && forall k :: k in s.data ==> k < next
    ensures ValidRun(c, s0, run')
    ensures var s, s' := After(c, s0, run), After(c, s0, run');
      && |s'.tokens| == |s.tokens| + 1 && |s'.data| == |s.data| + 1
      && s'.pending == multiset{} && s'.evicting == multiset{} && s'.sawFull == 0 && !s'.waiting
      && forall k :: k in s'.data ==> k < next + 1
  {
    hide ValidRun, After;
    run' := SetRoom(c, s0, run, next, v);
    var s, s' := After(c, s0, run), After(c, s0, run');
    assert |s'.data.Keys| == |s.data.Keys| + 1;
    forall k | k in s'.data
      ensures k < next + 1
    {
      assert k in s'.data.Keys;
    }
  }

  lemma FillUp<V(!new)>(c: Config, v: V) returns (run: seq<Action<nat, V>>)
    ensures ValidRun(c, Empty(), run) && Quiet(c, After(c, Empty(), run), c.maxSize)
  {
    run := [];
    hide After, ValidRun;
    EmptyRun<V>(c);
    for i := 0 to c.maxSize
      invariant ValidRun(c, Empty(), run)
      invariant var s := After(c, Empty(), run);
        && |s.tokens| == i && s.pending == multiset{} && s.evicting == multiset{} && s.sawFull == 0 && !s.waiting
        && forall k :: k in s.data ==> k < i
    {
      run := Grow(c, Empty(), run, i, v);
    }
  }

  lemma EmptyRun<V(!new)>(c: Config)
    ensures ValidRun<nat, V>(c, Empty(), []) && After<nat, V>(c, Empty(), []) == Empty()
  {
  }

  /** With a single slot a second Set releases the eviction of the first and both store. */
  lemma GrowSingle<V(!new)>(c: Config, s0: State<nat, V>, run: seq<Action<nat, V>>, next: nat, v: V)
    returns (run': seq<Action<nat, V>>)
    requires !c.blocking && c.maxSize == 1 && ValidRun(c, s0, run) && Quiet(c, After(c, s0, run), next)
    ensures ValidRun(c, s0, run') && Quiet(c, After(c, s0, run'), next + 2)
    ensures |After(c, s0, run').data| == |After(c, s0, run).data| + 1
  {
    hide ValidRun, After;
    var s := After(c, s0, run);
    var head := s.tokens[0];
    EvictPrefix(c, s);
    RunConcat(c, s0, run, EvictStart(head));
    run' := run + EvictStart(head);
    if head in s.data {
      RemoveOne(s.data, head);
      run' := ReleaseAndStore(c, s0, run', next, v);
    }
    run' := Grow(c, s0, run', next + 1, v);
  }

  /** A stalled delete, a Set of `next` that pushes its token, and both go on. */
  lemma ReleaseAndStore<V(!new)>(c: Config, s0: State<nat, V>, run: seq<Action<nat, V>>, next: nat, v: V)
    returns (run': seq<Action<nat, V>>)
    requires c.maxSize == 1 && ValidRun(c, s0, run)
    requires var s := After(c, s0, run);
      && Stalled(s) && s.pending == multiset{} && s.evicting == multiset{} && s.sawFull == 0
      && forall k :: k in s.data ==> k < next
    ensures ValidRun(c, s0, run')
    ensures var s, s' := After(c, s0, run), After(c, s0, run');
      && s'.tokens == [] && |s'.data| == |s.data| + 1
      && s'.pending == multiset{} && s'.evicting == multiset{} && s'.sawFull == 0 && !s'.waiting
      && forall k :: k in s'.data ==> k < next + 1
  {
    hide ValidRun, After, Enabled, Apply;
    var s := After(c, s0, run);
    PushAndTake(c, s, next);
    OneStep(c, s, Push(next));
    RunSnoc(c, s, [Push(next)], TakeToken);
    StoreNew(c, s.(pending := multiset{next}, waiting := false), next, v);
    RunSnoc(c, s, [Push(next)] + [TakeToken], Store(next, v));
    RunConcat(c, s0, run, [Push(next)] + [TakeToken] + [Store(next, v)]);
    run' := run + ([Push(next)] + [TakeToken] + [Store(next, v)]);
  }

  lemma PushAndTake<V(!new)>(c: Config, s: State<nat, V>, next: nat)
    requires c.maxSize == 1 && Stalled(s) && s.pending == multiset{}
    ensures Enabled(c, s, Push(next)) && Enabled(c, Apply(c, s, Push(next)), TakeToken)
    ensures Apply(c, Apply(c, s, Push(next)), TakeToken) == s.(pending := multiset{next}, waiting := false)
  {
    assert s.pending + multiset{next} == multiset{next};
  }

  lemma StoreNew<V(!new)>(c: Config, s: State<nat, V>, next: nat, v: V)
    requires !s.waiting && s.pending == multiset{next} && forall k :: k in s.data ==> k < next
    ensures Enabled(c, s, Store(next, v))
    ensures var s' := Apply(c, s, Store(next, v));
      && s'.tokens == s.tokens && |s'.data| == |s.data| + 1 && s'.pending == multiset{}
      && s'.evicting == s.evicting && s'.sawFull == s.sawFull && !s'.waiting
      && forall k :: k in s'.data ==> k < next + 1
  {
    var s' := Apply(c, s, Store(next, v));
    assert s'.data.Keys == s.data.Keys + {next};
    assert |s'.data.Keys| == |s.data.Keys| + 1;
  }

  /** Non-blocking Sets of new keys make the map as large as one likes, whatever the size. */
  lemma NonBlockingUnbounded<V(!new)>(c: Config, n: nat, v: V) returns (run: seq<Action<nat, V>>)
    requires !c.blocking && c.maxSize > 0
    ensures ValidRun(c, Empty(), run) && |After(c, Empty(), run).data| >= n
  {
    hide After, ValidRun;
    run := FillUp(c, v);
    for i := 0 to n
      invariant ValidRun(c, Empty(), run)
      invariant exists next :: Quiet(c, After(c, Empty(), run), next)
      invariant |After(c, Empty(), run).data| >= i
    {
      var next :| Quiet(c, After(c, Empty(), run), next);
      if c.maxSize == 1 {
        run := GrowSingle(c, Empty(), run, next, v);
      } else {
        run := GrowOnce(c, Empty(), run, next, v);
      }
    }
  }

  /** Some run makes the map hold `n` entries or more. */
  ghost predicate CanHold<V(!new)>(c: Config, n: nat) {
    exists run: seq<Action<nat, V>> :: ValidRun(c, Empty(), run) && |After(c, Empty(), run).data| >= n
  }

  /** Nothing ever enters a cache without slots, so a Set that waits for a token to evict waits for ever. */
  lemma {:induction false} NoSlotsNoEntries<K(!new), V(!new)>(c: Config, s: State<K, V>, run: seq<Action<K, V>>)
    requires c.maxSize == 0 && ValidRun(c, s, run) && s.pending == multiset{} && s.data == map[] && s.tokens == []
    ensures After(c, s, run).data == map[] && !Enabled<K, V>(c, After(c, s, run), Evict)
    decreases |run|
  {
    if run != [] {
      var s1 := Apply(c, s, run[0]);
      assert s1.pending == multiset{} && s1.data == map[];
      NoSlotsNoEntries(c, s1, run[1..]);
    }
  }

  /** The map can outgrow every bound if and only if the cache is non-blocking and has a slot. */
  lemma UnboundedExactly<V(!new)>(c: Config, v: V)
    ensures (forall n: nat :: CanHold<V>(c, n)) <==> !c.blocking && c.maxSize > 0
  {
    hide After, ValidRun;
    if !c.blocking && c.maxSize > 0 {
      forall n: nat
        ensures CanHold<V>(c, n)
      {
        var run := NonBlockingUnbounded(c, n, v);
      }
    } else {
      forall run: seq<Action<nat, V>> | ValidRun(c, Empty(), run)
        ensures |After(c, Empty(), run).data| <= c.maxSize
      {
        if c.maxSize == 0 {
          NoSlotsNoEntries(c, Empty(), run);
        } else {
          assert Reachable(c, After(c, Empty(), run));
          BlockingBounds(c, After(c, Empty(), run));
        }
      }
      assert !CanHold<V>(c, c.maxSize + 1);
    }
  }

  // ---------- The code, against the actions ----------

  class LRWCache<K(!new, ==), V(!new)> {
    const config: Config
    var tokens: seq<K>
    var data: map<K, Entry<V>>
    var armed: map<nat, K>
    var fired: map<nat, K>
    var nextTimer: nat
    // How far the calls in progress have come, and what happened before.
    ghost var pending: multiset<K>
    ghost var sawFull: nat
    ghost var evicting: multiset<K>
    ghost var waiting: bool
    ghost var evictions: nat
    ghost var overwrites: nat

    ghost function View(): State<K, V>
      reads this
    {
      State(tokens, data, armed, fired, nextTimer, pending, sawFull, evicting, waiting, evictions, overwrites)
    }

    constructor (maxSize: nat, blocking: bool)
      ensures config == Config(maxSize, blocking) && View() == Empty()
    {
      config := Config(maxSize, blocking);
      tokens, data, armed, fired, nextTimer := [], map[], map[], map[], 0;
      pending, sawFull, evicting, waiting, evictions, overwrites := multiset{}, 0, multiset{}, false, 0, 0;
    }

    /** The first half of Set up to the eviction: is the channel full? */
    method SetCheck() returns (full: bool)
      modifies this
      ensures full <==> !config.blocking && |old(tokens)| == config.maxSize
      ensures View() == if full then Apply(config, old(View()), SeeFull) else old(View())
    {
      full := !config.blocking && |tokens| == config.maxSize;
      if full {
        sawFull := sawFull + 1;
      }
    }

    method SetEvict() returns (key: K)
      requires Enabled(config, View(), Evict)
      modifies this
      ensures key == old(tokens)[0] && View() == Apply(config, old(View()), Evict)
    {
      key := tokens[0];
      tokens := tokens[1..];
      sawFull, evicting, evictions := sawFull - 1, evicting + multiset{key}, evictions + 1;
    }

    method SetPush(key: K)
      requires Enabled(config, View(), Push(key))
      modifies this
      ensures View() == Apply(config, old(View()), Push(key))
    {
      tokens := tokens + [key];
      pending := pending + multiset{key};
    }

    /** The second half of Set, under the lock. */
    method SetStore(key: K, value: V)
      requires Enabled(config, View(), Store(key, value))
      modifies this
      ensures View() == Apply(config, old(View()), Store(key, value))
    {
      overwrites := if key in data then overwrites + 1 else overwrites;
      armed := armed[nextTimer := key];
      data := data[key := Entry(nextTimer, value)];
      nextTimer := nextTimer + 1;
      pending := pending - multiset{key};
    }

    method Get(key: K) returns (value: Option<V>)
      ensures value == if key in data then Some(data[key].value) else None
    {
      value := if key in data then Some(data[key].value) else None;
    }

    /** `delete` up to its token, under the lock. */
    method DeleteEntry(key: K)
      requires !waiting
      modifies this
      ensures View() == Deleting(old(View()), key)
    {
      if key !in data {
        return;
      }
      armed := armed - {data[key].timer};
      data := data - {key};
      waiting := true;
    }

    method DeleteToken()
      requires Enabled(config, View(), TakeToken)
      modifies this
      ensures View() == Apply(config, old(View()), TakeToken)
    {
      tokens := tokens[1..];
      waiting := false;
    }

    /**
     The lock is held throughout. In blocking mode the token is there when it is needed; otherwise
     the call may stall on the empty channel with its entry already gone.
     */
    method GetAndRemove(key: K) returns (value: Option<V>, stalled: bool)
      requires Inv(config, View()) && !waiting
      modifies this
      ensures value == if key in old(data) then Some(old(data)[key].value) else None
      ensures data == old(data) - {key} && Inv(config, View())
      ensures stalled <==> value.Some? && old(tokens) == []
      ensures stalled <==> waiting
      ensures config.blocking ==> !stalled
      ensures |tokens| == |old(tokens)| - (if value.Some? && !stalled then 1 else 0)
    {
      value := Get(key);
      ghost var s := View();
      StepKeepsTokenLaw(config, s, Remove(key));
      StepKeepsBounds(config, s, Remove(key));
      StepKeepsTimers(config, s, Remove(key));
      DeleteEntry(key);
      ghost var s1 := View();
      stalled := value.Some? && tokens == [];
      if value.Some? && !stalled {
        StepKeepsTokenLaw(config, s1, TakeToken);
        StepKeepsBounds(config, s1, TakeToken);
        StepKeepsTimers(config, s1, TakeToken);
        DeleteToken();
      }
      if value.None? {
        assert data == data - {key};
      }
    }

    /** The timer runs out; its callback still has to get the lock. */
    method TimerFires(timer: nat)
      requires Enabled(config, View(), Fire(timer))
      modifies this
      ensures View() == Apply(config, old(View()), Fire(timer))
    {
      fired := fired[timer := armed[timer]];
      armed := armed - {timer};
    }

    method TimerCallback(timer: nat)
      requires Enabled(config, View(), Callback(timer))
      modifies this
      ensures View() == Apply(config, old(View()), Callback(timer))
    {
      var key := fired[timer];
      fired := fired - {timer};
      DeleteEntry(key);
    }
  }
}
