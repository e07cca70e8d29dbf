/**
 Recovering torrents whose tracker was never tried, `Recover` in tracker/internal/svc/tracker.go.
 The database is a map from info hashes to the time of the last try. Which of its operations fail
 is the environment's choice.
 */
module Recovery {
  import opened Base

  datatype Faults = Faults(find: nat -> bool, marshal: bytes -> bool, publish: nat -> bool, update: nat -> bool)

  function NeverTried(tried: map<bytes, Option<nat>>): (r: set<bytes>) {
    set h | h in tried && tried[h].None?
  }

  function Elements(hs: seq<bytes>): set<bytes> {
    set h | h in hs
  }

  predicate Distinct(hs: seq<bytes>) {
    forall i, j :: 0 <= i < j < |hs| ==> hs[i] != hs[j]
  }

  lemma {:induction false} DistinctMultiset(hs: seq<bytes>)
    requires Distinct(hs)
    ensures multiset(hs) == multiset(Elements(hs))
    decreases |hs|
  {
    if hs == [] {
      assert Elements(hs) == {};
    } else {
      var init, last := hs[..|hs| - 1], hs[|hs| - 1];
      assert hs == init + [last];
      DistinctMultiset(init);
      assert Elements(hs) == Elements(init) + {last};
      assert last !in Elements(init);
    }
  }

  function Marked(tried: map<bytes, Option<nat>>, ids: set<bytes>, now: nat): (r: map<bytes, Option<nat>>)
    ensures r.Keys == tried.Keys
    ensures NeverTried(r) == NeverTried(tried) - ids
    ensures forall h :: h in tried && h in ids ==> r[h] == Some(now)
    ensures forall h :: h in tried && h !in ids ==> r[h] == tried[h]
  {
    map h | h in tried :: if h in ids then Some(now) else tried[h]
  }

  /** No operation fails. */
  ghost predicate Flawless(faults: Faults) {
    && (forall n :: faults.find(n) && faults.publish(n) && faults.update(n))
    && forall h :: faults.marshal(h)
  }

  /** Records that had a time of a try still have that time. */
  ghost predicate KeepsTries(before: map<bytes, Option<nat>>, after: map<bytes, Option<nat>>) {
    forall h :: h in before && before[h].Some? ==> h in after && after[h] == before[h]
  }

  lemma MarkKeepsTries(start: map<bytes, Option<nat>>, tried: map<bytes, Option<nat>>, ids: set<bytes>, now: nat)
    requires KeepsTries(start, tried) && ids <= NeverTried(tried)
    ensures KeepsTries(start, Marked(tried, ids, now))
  {
  }

  class Recoverer {
    const trackerLimit: nat
    var tried: map<bytes, Option<nat>>
    var published: seq<bytes>
    var now: nat
    // How often each operation was attempted.
    var finds: nat
    var updates: nat

    constructor (trackerLimit: nat, tried: map<bytes, Option<nat>>)
      ensures this.trackerLimit == trackerLimit && this.tried == tried && published == []
    {
      this.trackerLimit, this.tried := trackerLimit, tried;
      published, now, finds, updates := [], 0, 0, 0;
    }

    /** Some never-tried records, as many as the limit allows; a limit of 0 is no limit. */
    method Find() returns (hs: seq<bytes>)
      ensures Distinct(hs) && Elements(hs) <= NeverTried(tried)
      ensures hs == [] <==> NeverTried(tried) == {}
      ensures trackerLimit > 0 ==> |hs| <= trackerLimit
      ensures trackerLimit == 0 || |hs| < trackerLimit ==> Elements(hs) == NeverTried(tried)
    {
      hs := [];
      var rest := NeverTried(tried);
      while rest != {} && (trackerLimit == 0 || |hs| < trackerLimit)
        invariant Distinct(hs) && Elements(hs) !! rest && Elements(hs) + rest == NeverTried(tried)
        invariant trackerLimit > 0 ==> |hs| <= trackerLimit
        invariant hs == [] ==> rest == NeverTried(tried)
        decreases |rest|
      {
        var h :| h in rest;
        assert h in hs <==> h in Elements(hs);
        assert Elements(hs + [h]) == Elements(hs) + {h};
        hs, rest := hs + [h], rest - {h};
      }
      if hs != [] {
        assert hs[0] in Elements(hs);
      }
    }

    /** Publishes in order until an operation fails. */
    method PublishAll(hs: seq<bytes>, faults: Faults) returns (ok: bool, done: nat)
      modifies this`published
      ensures done <= |hs| && published == old(published) + hs[..done]
      ensures if ok then done == |hs|
              else done < |hs| && (!faults.marshal(hs[done]) || !faults.publish(|published|))
    {
      done := 0;
      while done < |hs|
        invariant done <= |hs| && published == old(published) + hs[..done]
      {
        if !faults.marshal(hs[done]) || !faults.publish(|published|) {
          return false, done;
        }
        assert hs[..done + 1] == hs[..done] + [hs[done]];
        published := published + [hs[done]];
        done := done + 1;
      }
      return true, done;
    }

    /** One round of the loop, with what it published. */
    method Round(faults: Faults) returns (r: RoundResult, ghost sent: seq<bytes>)
      modifies this
      ensures published == old(published) + sent && Distinct(sent)
      ensures Elements(sent) <= NeverTried(old(tried)) && (trackerLimit > 0 ==> |sent| <= trackerLimit)
      ensures r.Finished? ==> NeverTried(tried) == {} && sent == [] && tried == old(tried)
      ensures r.Broken? ==> tried == old(tried) && !Flawless(faults)
      ensures r.Advanced? ==> sent != [] && tried == Marked(old(tried), Elements(sent), now) && now == old(now)
    {
      hide NeverTried, Elements, Marked, Distinct;
      sent := [];
      NothingSent();
      if !faults.find(finds) {
        return Broken, sent;
      }
      finds := finds + 1;
      var torrents := Find();
      if |torrents| == 0 {
        return Finished, sent;
      }
      var ok, done := PublishAll(torrents, faults);
      sent := torrents[..done];
      SliceElements(torrents, done);
      if !ok || !faults.update(updates) {
        return Broken, sent;
      }
      updates := updates + 1;
      assert sent == torrents;
      tried := Marked(tried, Elements(torrents), now);
      return Advanced, sent;
    }

    /**
     A normal return has published every never-tried record exactly once and left none. After a
     failure every record that was marked was published exactly once (`marked`), and what else was
     published is part of one unfinished batch, each record of it once (`extra`).
     */
    method Recover(faults: Faults) returns (ok: bool, ghost marked: seq<bytes>, ghost extra: seq<bytes>)
      modifies this
      ensures published == old(published) + marked + extra && tried.Keys == old(tried).Keys
      ensures NeverTried(tried) <= NeverTried(old(tried))
      ensures multiset(marked) == multiset(NeverTried(old(tried)) - NeverTried(tried))
      ensures ok ==> NeverTried(tried) == {} && extra == []
      ensures Distinct(extra) && Elements(extra) <= NeverTried(tried)
      ensures trackerLimit > 0 ==> |extra| <= trackerLimit
      ensures KeepsTries(old(tried), tried) && (Flawless(faults) ==> ok)
    {
      hide NeverTried, Elements, Marked, Distinct, KeepsTries;
      ghost var before := NeverTried(tried);
      marked := [];
      NothingLeft(before);
      StartKeepsTries(tried);
      while true
        invariant published == old(published) + marked
        invariant tried.Keys == old(tried).Keys && NeverTried(tried) <= before
        invariant multiset(marked) == multiset(before - NeverTried(tried))
        invariant KeepsTries(old(tried), tried)
        decreases |NeverTried(tried)|
      {
        ghost var was := tried;
        var r;
        r, extra := Round(faults);
        if !r.Advanced? {
          ok := r.Finished?;
          return;
        }
        MarkShrinks(was, extra, now, before);
        MarkKeepsTries(old(tried), was, Elements(extra), now);
        marked := marked + extra;
      }
    }
  }

  datatype RoundResult = Finished | Broken | Advanced

  lemma NothingSent()
    ensures Distinct([]) && Elements([]) == {}
  {
  }

  lemma StartKeepsTries(tried: map<bytes, Option<nat>>)
    ensures KeepsTries(tried, tried)
  {
  }

  lemma NothingLeft(s: set<bytes>)
    ensures multiset(s - s) == multiset{}
  {
    assert s - s == {};
  }

  lemma SliceElements(hs: seq<bytes>, n: nat)
    requires n <= |hs| && Distinct(hs)
    ensures Distinct(hs[..n]) && Elements(hs[..n]) <= Elements(hs)
  {
  }

  /** Marking a batch takes it out of the never-tried records, and there is something to take. */
  lemma MarkShrinks(tried: map<bytes, Option<nat>>, hs: seq<bytes>, now: nat, before: set<bytes>)
    requires hs != [] && Elements(hs) <= NeverTried(tried) <= before && Distinct(hs)
    ensures var after := NeverTried(Marked(tried, Elements(hs), now));
      && |after| < |NeverTried(tried)|
      && multiset(before - after) == multiset(before - NeverTried(tried)) + multiset(hs)
  {
    var never, ids := NeverTried(tried), Elements(hs);
    var after := NeverTried(Marked(tried, ids, now));
    assert after == never - ids;
    assert hs[0] in ids;
    assert |never| == |after| + |ids|;
    assert ids != {};
    assert before - after == (before - never) + ids;
    DistinctMultiset(hs);
    assert multiset((before - never) + ids) == multiset(before - never) + multiset(ids);
  }
}
