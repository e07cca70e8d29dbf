/**
 When the decoder panics: exactly when it arrives, at any depth, at a dictionary key that
 is not a byte string. No slice it takes is ever out of range. And how far past the end of the
 buffer the offset runs: one byte for every level that is still open there.
 */
module BencodePanics {
  import opened Base
  import opened BencodeValue
  import opened BencodeEncode
  import opened BencodeDecode

  /** What a loop reads next: an item of a list, or a key or a value of a dictionary. */
  datatype Turn = Item | Key | Val {
    function Next(): Turn {
      match this
      case Item => Item
      case Key => Val
      case Val => Key
    }
  }

  /** Decoding at `pos` arrives at an item that starts at `q`, as a `turn` of some loop. */
  ghost predicate Arrives(buf: bytes, pos: nat, q: nat, turn: Turn)
    decreases |buf| - pos, 0
  {
    pos < |buf| &&
    if buf[pos] == TAG_LIST then LoopArrives(buf, pos + 1, Item, q, turn)
    else buf[pos] == TAG_DICT && LoopArrives(buf, pos + 1, Key, q, turn)
  }

  ghost predicate LoopArrives(buf: bytes, i: nat, now: Turn, q: nat, turn: Turn)
    decreases |buf| - i, 1
  {
    !AtEnd(buf, i) &&
    (|| (i == q && now == turn)
     || Arrives(buf, i, q, turn)
     || (DecodeAny(buf, i).Read? && (now.Key? ==> DecodeAny(buf, i).value.Bytes?)
         && LoopArrives(buf, DecodeAny(buf, i).end, now.Next(), q, turn)))
  }

  ghost predicate NotBytes(buf: bytes, q: nat) {
    DecodeAny(buf, q).Read? && !DecodeAny(buf, q).value.Bytes?
  }

  function TurnOf(key: Option<bytes>): Turn {
    if key.Some? then Val else Key
  }

  lemma {:induction false} ArrivalCrashes(buf: bytes, pos: nat, q: nat)
    requires Arrives(buf, pos, q, Key) && NotBytes(buf, q)
    ensures DecodeAny(buf, pos).Crash?
    decreases |buf| - pos, 0
  {
    if buf[pos] == TAG_LIST {
      ItemsArrivalCrashes(buf, pos + 1, q);
    } else {
      EntriesArrivalCrashes(buf, pos + 1, None, map[], q);
    }
  }

  lemma {:induction false} ItemsArrivalCrashes(buf: bytes, i: nat, q: nat)
    requires LoopArrives(buf, i, Item, q, Key) && NotBytes(buf, q)
    ensures DecodeItems(buf, i).Crash?
    decreases |buf| - i, 1
  {
    if Arrives(buf, i, q, Key) {
      ArrivalCrashes(buf, i, q);
    } else {
      ItemsArrivalCrashes(buf, DecodeAny(buf, i).end, q);
    }
  }

  lemma {:induction false} EntriesArrivalCrashes(buf: bytes, i: nat, key: Option<bytes>, m: map<bytes, Value>, q: nat)
    requires LoopArrives(buf, i, TurnOf(key), q, Key) && NotBytes(buf, q)
    ensures DecodeEntries(buf, i, key, m).Crash?
    decreases |buf| - i, 1
  {
    if Arrives(buf, i, q, Key) {
      ArrivalCrashes(buf, i, q);
    } else if i != q || key.Some? {
      var r := DecodeAny(buf, i);
      EntriesArrivalCrashes(buf, r.end, NextKey(key, r.value), NextMap(key, r.value, m), q);
    }
  }

  lemma {:induction false} CrashArrives(buf: bytes, pos: nat) returns (q: nat)
    requires DecodeAny(buf, pos).Crash?
    ensures Arrives(buf, pos, q, Key) && NotBytes(buf, q)
    decreases |buf| - pos, 0
  {
    if buf[pos] == TAG_LIST {
      q := ItemsCrashArrives(buf, pos + 1);
    } else {
      q := EntriesCrashArrives(buf, pos + 1, None, map[]);
    }
  }

  lemma {:induction false} ItemsCrashArrives(buf: bytes, i: nat) returns (q: nat)
    requires DecodeItems(buf, i).Crash?
    ensures LoopArrives(buf, i, Item, q, Key) && NotBytes(buf, q)
    decreases |buf| - i, 1
  {
    if DecodeAny(buf, i).Crash? {
      q := CrashArrives(buf, i);
    } else {
      q := ItemsCrashArrives(buf, DecodeAny(buf, i).end);
    }
  }

  lemma {:induction false} EntriesCrashArrives(buf: bytes, i: nat, key: Option<bytes>, m: map<bytes, Value>) returns (q: nat)
    requires DecodeEntries(buf, i, key, m).Crash?
    ensures LoopArrives(buf, i, TurnOf(key), q, Key) && NotBytes(buf, q)
    decreases |buf| - i, 1
  {
    var r := DecodeAny(buf, i);
    if r.Crash? {
      q := CrashArrives(buf, i);
    } else if key.None? && !r.value.Bytes? {
      q := i;
    } else {
      q := EntriesCrashArrives(buf, r.end, NextKey(key, r.value), NextMap(key, r.value, m));
    }
  }

  /** The decoder panics if and only if it arrives at a key that is not a byte string. */
  lemma PanicsExactlyOnKeys(buf: bytes, pos: nat)
    ensures DecodeAny(buf, pos).Crash? <==> exists q :: Arrives(buf, pos, q, Key) && NotBytes(buf, q)
  {
    if DecodeAny(buf, pos).Crash? {
      var q := CrashArrives(buf, pos);
    }
    forall q | Arrives(buf, pos, q, Key) && NotBytes(buf, q)
      ensures DecodeAny(buf, pos).Crash?
    {
      ArrivalCrashes(buf, pos, q);
    }
  }

  /** The same for a dictionary that is entered without looking at its first byte. */
  lemma DictPanicsExactlyOnKeys(buf: bytes, pos: nat)
    ensures DecodeDict(buf, pos).Crash? <==> exists q :: LoopArrives(buf, pos + 1, Key, q, Key) && NotBytes(buf, q)
  {
    if DecodeDict(buf, pos).Crash? {
      var q := EntriesCrashArrives(buf, pos + 1, None, map[]);
    }
    forall q | LoopArrives(buf, pos + 1, Key, q, Key) && NotBytes(buf, q)
      ensures DecodeDict(buf, pos).Crash?
    {
      EntriesArrivalCrashes(buf, pos + 1, None, map[], q);
    }
  }

  // ---------- Offsets past the end ----------

  /** How many levels of the item at `pos` are still open at the end of the buffer. */
  ghost function Unclosed(buf: bytes, pos: nat): nat
    decreases |buf| - pos, 0
  {
    if pos >= |buf| then 0
    else if buf[pos] == TAG_INT then if END in buf[pos + 1..] then 0 else 1
    else if buf[pos] == TAG_LIST || buf[pos] == TAG_DICT then LoopUnclosed(buf, pos + 1)
    else 0
  }

  ghost function LoopUnclosed(buf: bytes, i: nat): nat
    decreases |buf| - i, 1
  {
    if i >= |buf| then 1
    else if buf[i] == END || !DecodeAny(buf, i).Read? then 0
    else if Unclosed(buf, i) > 0 then Unclosed(buf, i) + 1
    else LoopUnclosed(buf, DecodeAny(buf, i).end)
  }

  /** Closed, it ends inside the buffer; otherwise as many bytes past its end as levels are open. */
  predicate EndsAt(buf: bytes, end: nat, open: nat) {
    if open == 0 then end <= |buf| else end == |buf| + open
  }

  lemma {:induction false} OverrunExactly(buf: bytes, pos: nat)
    requires DecodeAny(buf, pos).Read?
    ensures EndsAt(buf, DecodeAny(buf, pos).end, Unclosed(buf, pos))
    decreases |buf| - pos, 0
  {
    if buf[pos] == TAG_INT {
      var i := ScanTo(buf, pos + 1, END);
      var rest := buf[pos + 1..];
      if i < |buf| {
        assert rest[i - pos - 1] == END;
      } else {
        assert END !in rest;
      }
    } else if buf[pos] == TAG_LIST {
      ItemsOverrun(buf, pos + 1);
    } else if buf[pos] == TAG_DICT {
      EntriesOverrun(buf, pos + 1, None, map[]);
    }
  }

  lemma {:induction false} ItemsOverrun(buf: bytes, i: nat)
    requires i <= |buf| && DecodeItems(buf, i).Read?
    ensures EndsAt(buf, DecodeItems(buf, i).end, LoopUnclosed(buf, i))
    decreases |buf| - i, 1
  {
    if !AtEnd(buf, i) {
      OverrunExactly(buf, i);
      var next := DecodeAny(buf, i).end;
      if next <= |buf| {
        ItemsOverrun(buf, next);
      } else {
        assert DecodeItems(buf, next).end == next + 1;
      }
    }
  }

  lemma {:induction false} EntriesOverrun(buf: bytes, i: nat, key: Option<bytes>, m: map<bytes, Value>)
    requires i <= |buf| && DecodeEntries(buf, i, key, m).Read?
    ensures EndsAt(buf, DecodeEntries(buf, i, key, m).end, LoopUnclosed(buf, i))
    decreases |buf| - i, 1
  {
    if !AtEnd(buf, i) {
      OverrunExactly(buf, i);
      var r := DecodeAny(buf, i);
      if r.end <= |buf| {
        EntriesOverrun(buf, r.end, NextKey(key, r.value), NextMap(key, r.value, m));
      } else {
        assert DecodeEntries(buf, r.end, NextKey(key, r.value), NextMap(key, r.value, m)).end == r.end + 1;
      }
    }
  }

  /** The dictionary that `BDecodeDict` reads; of the empty buffer it reports an offset of two. */
  lemma DictOverrunExactly(buf: bytes)
    requires DecodeDict(buf, 0).Read?
    ensures buf != [] ==> EndsAt(buf, DecodeDict(buf, 0).end, LoopUnclosed(buf, 1))
    ensures buf == [] ==> DecodeDict(buf, 0).end == 2
  {
    if buf != [] {
      EntriesOverrun(buf, 1, None, map[]);
    }
  }

  /**
   The bound on offsets is tight: lists that are opened and never closed push the offset
   one byte further past the end for every level.
   */
  lemma {:induction false} OpenListsOverrun(buf: bytes, pos: nat)
    requires pos < |buf| && forall j :: 0 <= j < |buf| ==> buf[j] == TAG_LIST
    ensures DecodeAny(buf, pos).Read? && DecodeAny(buf, pos).end == 2 * |buf| - pos
    decreases |buf| - pos
  {
    if pos + 1 < |buf| {
      OpenListsOverrun(buf, pos + 1);
      assert !AtEnd(buf, pos + 1);
      var next := DecodeAny(buf, pos + 1).end;
      assert DecodeItems(buf, next) == Read([], next + 1);
      assert DecodeItems(buf, pos + 1).end == next + 1;
    } else {
      assert AtEnd(buf, pos + 1);
    }
  }
}
