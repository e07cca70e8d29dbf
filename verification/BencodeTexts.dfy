/**
 Exactly which texts the decoder accepts, and what they mean. A `Text` is the concrete syntax
 of a value: the digits as they stand, and the items of a dictionary one after the other, with a
 key that lacks its value at the end if their number is odd.
 */
module BencodeTexts {
  import opened Base
  import opened BencodeValue
  import opened Decimal
  import opened BencodeEncode
  import opened BencodeDecode
  import opened BencodeParse
  import opened BencodeLaws

  datatype Text =
    | IntText(digits: bytes)
    | BytesText(digits: bytes, b: bytes)
    | ListText(items: seq<Text>)
    | DictText(items: seq<Text>)

  // ---------- Writing and meaning ----------

  function Write(t: Text): bytes
    decreases t, 1
  {
    match t
    case IntText(digits) => Ascii("i") + digits + Ascii("e")
    case BytesText(digits, b) => digits + Ascii(":") + b
    case ListText(items) => Ascii("l") + WriteItems(items) + Ascii("e")
    case DictText(items) => Ascii("d") + WriteItems(items) + Ascii("e")
  }

  function WriteItems(items: seq<Text>): bytes
    decreases items, 0
  {
    if items == [] then [] else Write(items[0]) + WriteItems(items[1..])
  }

  /** Numbers as `strconv.Atoi` takes them, the exact length before a string, strings as keys. */
  ghost predicate WellFormed(t: Text)
    decreases t, 1
  {
    match t
    case IntText(digits) => Atoi(digits).Some?
    case BytesText(digits, b) => digits != [] && IsDigit(digits[0]) && Atoi(digits) == Some(|b|)
    case ListText(items) => AllWellFormed(items)
    case DictText(items) => AllWellFormed(items) && KeysAreBytes(items)
  }

  ghost predicate AllWellFormed(items: seq<Text>)
    decreases items, 0
  {
    forall i :: 0 <= i < |items| ==> WellFormed(items[i])
  }

  predicate KeysAreBytes(items: seq<Text>) {
    forall i :: 0 <= i < |items| && i % 2 == 0 ==> items[i].BytesText?
  }

  ghost function Meaning(t: Text): Value
    requires WellFormed(t)
    decreases t, 1
  {
    match t
    case IntText(digits) => Int(Atoi(digits).value)
    case BytesText(_, b) => Bytes(b)
    case ListText(items) => List(Meanings(items))
    case DictText(items) => Dict(Entries(items))
  }

  ghost function Meanings(items: seq<Text>): seq<Value>
    requires AllWellFormed(items)
    decreases items, 0
  {
    seq(|items|, i requires 0 <= i < |items| => Meaning(items[i]))
  }

  /** At `i` stands a key with a value, and the same key has no value further on. */
  predicate Decides(items: seq<Text>, i: nat) {
    && i % 2 == 0 && i + 1 < |items| && items[i].BytesText?
    && forall j :: i < j < |items| - 1 && j % 2 == 0 && items[j].BytesText? ==> items[j].b != items[i].b
  }

  predicate DecidesFor(items: seq<Text>, k: bytes, i: nat) {
    Decides(items, i) && items[i].b == k
  }

  ghost function DecidedKeys(items: seq<Text>): set<bytes> {
    set i | 0 <= i < |items| && Decides(items, i) :: items[i].b
  }

  ghost function Decider(items: seq<Text>, k: bytes): (i: nat)
    requires k in DecidedKeys(items)
    ensures DecidesFor(items, k, i)
  {
    var i :| 0 <= i < |items| && Decides(items, i) && items[i].b == k;
    i
  }

  /** The last value of each key. */
  ghost function Entries(items: seq<Text>): map<bytes, Value>
    requires AllWellFormed(items)
    decreases items, 0
  {
    map k | k in DecidedKeys(items) :: Meaning(items[Decider(items, k) + 1])
  }

  // ---------- Every well-formed text is accepted ----------

  lemma Literals()
    ensures Ascii("i") == [TAG_INT] && Ascii("l") == [TAG_LIST] && Ascii("d") == [TAG_DICT]
    ensures Ascii("e") == [END] && Ascii(":") == [COLON]
  {
  }

  lemma NumberHas(digits: bytes, c: byte)
    requires Atoi(digits).Some? && (c == COLON || c == END)
    ensures c !in digits
  {
    var body := if Signed(digits) then digits[1..] else digits;
    assert forall i :: 0 <= i < |digits| && digits[i] != digits[0] ==> digits[i] in body;
    forall i | 0 <= i < |digits|
      ensures digits[i] != c
    {
      if Signed(digits) {
        if i > 0 {
          assert digits[i] == body[i - 1];
        }
      } else {
        assert digits[i] == body[i];
      }
    }
  }

  lemma IntAccepted(digits: bytes, rest: bytes)
    requires Atoi(digits).Some?
    ensures Parse(Write(IntText(digits)) + rest) == Read(Int(Atoi(digits).value), |digits| + 2)
  {
    Literals();
    var s := Write(IntText(digits)) + rest;
    assert s == [TAG_INT] + digits + [END] + rest;
    NumberHas(digits, END);
    ScanFinds([TAG_INT] + digits, END, rest, 1);
    assert s[1..1 + |digits|] == digits;
  }

  lemma BytesAccepted(digits: bytes, b: bytes, rest: bytes)
    requires digits != [] && IsDigit(digits[0]) && Atoi(digits) == Some(|b|)
    ensures Parse(Write(BytesText(digits, b)) + rest) == Read(Bytes(b), |digits| + 1 + |b|)
  {
    Literals();
    var s := Write(BytesText(digits, b)) + rest;
    assert s == digits + [COLON] + (b + rest);
    NumberHas(digits, COLON);
    ScanFinds(digits, COLON, b + rest, 0);
    assert s[0] == digits[0] && s[0..|digits|] == digits;
    assert s[|digits| + 1..|digits| + |b| + 1] == b;
  }

  lemma TextStarts(t: Text, rest: bytes)
    requires WellFormed(t)
    ensures !Stops(Write(t) + rest) && Write(t) != []
  {
    Literals();
    var w := Write(t);
    assert w != [] && (w + rest)[0] == w[0];
  }

  lemma ListWraps(text: bytes, rest: bytes)
    ensures Parse(Ascii("l") + text + Ascii("e") + rest) == Shift(AsList(ParseItems(text + ([END] + rest))), 1)
  {
    hide ParseItems;
    Literals();
    var s := Ascii("l") + text + Ascii("e") + rest;
    assert s[0] == TAG_LIST && s[1..] == text + ([END] + rest);
  }

  lemma DictWraps(text: bytes, rest: bytes)
    ensures Parse(Ascii("d") + text + Ascii("e") + rest)
         == Shift(AsDict(ParseEntries(text + ([END] + rest), None, map[])), 1)
  {
    hide ParseEntries;
    Literals();
    var s := Ascii("d") + text + Ascii("e") + rest;
    assert s[0] == TAG_DICT && s[1..] == text + ([END] + rest);
  }

  lemma {:induction false} TextAccepted(t: Text, rest: bytes)
    requires WellFormed(t)
    ensures Parse(Write(t) + rest) == Read(Meaning(t), |Write(t)|)
    decreases t, 2, 0
  {
    hide Parse, ParseItems, ParseEntries, Entries, Meanings, WriteItems, Atoi, Decides, KeysAreBytes;
    match t {
      case IntText(digits) => IntAccepted(digits, rest);
      case BytesText(digits, b) => BytesAccepted(digits, b, rest);
      case ListText(items) =>
        ItemsAccepted(items, rest);
        ListWraps(WriteItems(items), rest);
      case DictText(items) =>
        assert items[..0] == [] && items[0..] == items;
        NoEntries();
        EntriesAccepted(items, 0, rest);
        DictWraps(WriteItems(items), rest);
    }
  }

  lemma NoEntries()
    ensures AllWellFormed([]) && Entries([]) == map[]
  {
  }

  lemma {:induction false} ItemsAccepted(items: seq<Text>, rest: bytes)
    requires AllWellFormed(items)
    ensures ParseItems(WriteItems(items) + ([END] + rest)) == Read(Meanings(items), |WriteItems(items)| + 1)
    decreases items, 1, 0
  {
    hide Parse, Write;
    var s := WriteItems(items) + ([END] + rest);
    if items == [] {
      assert s[0] == END;
    } else {
      var head, tail := Write(items[0]), WriteItems(items[1..]) + ([END] + rest);
      assert s == head + tail;
      TextStarts(items[0], tail);
      TextAccepted(items[0], tail);
      assert Rest(s, |head|) == tail;
      ItemsAccepted(items[1..], rest);
      assert Meanings(items) == [Meaning(items[0])] + Meanings(items[1..]);
    }
  }

  /** The key that waits for its value after `n` items. */
  function Waiting(items: seq<Text>, n: nat): Option<bytes>
    requires n <= |items| && KeysAreBytes(items)
  {
    if n % 2 == 1 then Some(items[n - 1].b) else None
  }

  lemma Prefixes(items: seq<Text>, n: nat)
    requires n <= |items| && AllWellFormed(items) && KeysAreBytes(items)
    ensures AllWellFormed(items[..n]) && KeysAreBytes(items[..n])
  {
  }

  lemma KeyDecidesNothing(a: seq<Text>, t: Text, i: nat)
    requires |a| % 2 == 0
    ensures Decides(a + [t], i) <==> Decides(a, i)
  {
    var b := a + [t];
    assert forall j :: 0 <= j < |a| ==> b[j] == a[j];
  }

  lemma ValueDecides(a: seq<Text>, t: Text, i: nat)
    requires |a| % 2 == 1 && KeysAreBytes(a)
    ensures Decides(a + [t], i) <==> i == |a| - 1 || (Decides(a, i) && a[i].b != a[|a| - 1].b)
  {
    var b := a + [t];
    assert forall j :: 0 <= j < |a| ==> b[j] == a[j];
    if i < |a| - 1 && Decides(b, i) {
      assert b[|a| - 1].b != b[i].b;
    }
  }

  lemma AfterKey(a: seq<Text>, t: Text)
    requires |a| % 2 == 0 && AllWellFormed(a) && AllWellFormed(a + [t])
    ensures Entries(a + [t]) == Entries(a)
  {
    hide WellFormed, Meaning, Entries, AllWellFormed;
    forall k
      ensures var m, m' := Entries(a), Entries(a + [t]);
        (k in m' <==> k in m) && (k in m' ==> m'[k] == m[k])
    {
      AfterKeyAt(a, t, k);
    }
  }

  lemma AfterKeyAt(a: seq<Text>, t: Text, k: bytes)
    requires |a| % 2 == 0 && AllWellFormed(a) && AllWellFormed(a + [t])
    ensures var m, m' := Entries(a), Entries(a + [t]);
      (k in m' <==> k in m) && (k in m' ==> m'[k] == m[k])
  {
    hide WellFormed, Meaning, Decides, Entries, AllWellFormed;
    var b := a + [t];
    if k in Entries(a) {
      var i := EntrySource(a, k);
      KeyDecidesNothing(a, t, i);
      EntryAt(a, i);
      assert b[i] == a[i] && b[i + 1] == a[i + 1];
      EntryAt(b, i);
    } else if k in Entries(b) {
      var i := EntrySource(b, k);
      KeyDecidesNothing(a, t, i);
      EntryAt(a, i);
    }
  }

  lemma DecidesBefore(a: seq<Text>, i: nat)
    requires Decides(a, i)
    ensures i + 1 < |a|
  {
  }

  lemma EntryAt(items: seq<Text>, i: nat)
    requires AllWellFormed(items) && Decides(items, i)
    ensures i + 1 < |items| && items[i].BytesText? && WellFormed(items[i + 1])
    ensures items[i].b in Entries(items) && Entries(items)[items[i].b] == Meaning(items[i + 1])
  {
    hide WellFormed, Meaning;
    OneDecides(items, i, Decider(items, items[i].b));
  }

  lemma OneDecides(items: seq<Text>, i: nat, j: nat)
    requires Decides(items, i) && Decides(items, j) && items[i].b == items[j].b
    ensures i == j
  {
  }

  lemma EntrySource(items: seq<Text>, k: bytes) returns (i: nat)
    requires AllWellFormed(items) && k in Entries(items)
    ensures i + 1 < |items| && Decides(items, i) && items[i].BytesText? && items[i].b == k
  {
    hide WellFormed, Meaning;
    i := Decider(items, k);
  }

  lemma LastIsWellFormed(a: seq<Text>, t: Text)
    requires AllWellFormed(a + [t])
    ensures AllWellFormed(a) && WellFormed(t)
  {
    hide WellFormed;
    var b := a + [t];
    assert b[|a|] == t && forall j :: 0 <= j < |a| ==> b[j] == a[j];
  }

  lemma AfterValueAt(a: seq<Text>, t: Text, k: bytes)
    requires |a| % 2 == 1 && AllWellFormed(a) && KeysAreBytes(a) && AllWellFormed(a + [t]) && WellFormed(t)
    ensures var m, m' := Entries(a), Entries(a + [t]);
      && (k in m' <==> k in m || k == a[|a| - 1].b)
      && (k in m' ==> m'[k] == if k == a[|a| - 1].b then Meaning(t) else m[k])
  {
    hide WellFormed, Meaning, Decides, Entries, AllWellFormed;
    var b, last := a + [t], |a| - 1;
    assert b[last] == a[last] && b[last + 1] == t;
    if k == a[last].b {
      ValueDecides(a, t, last);
      EntryAt(b, last);
    } else if k in Entries(a) {
      var i := EntrySource(a, k);
      ValueDecides(a, t, i);
      EntryAt(a, i);
      EntryAt(b, i);
    } else if k in Entries(b) {
      var i := EntrySource(b, k);
      ValueDecides(a, t, i);
      DecidesBefore(b, i);
      if i != last {
        EntryAt(a, i);
      }
    }
  }

  lemma AfterValue(a: seq<Text>, t: Text)
    requires |a| % 2 == 1 && AllWellFormed(a) && KeysAreBytes(a) && AllWellFormed(a + [t])
    ensures WellFormed(t) && Entries(a + [t]) == Entries(a)[a[|a| - 1].b := Meaning(t)]
  {
    hide WellFormed, Meaning, Decides, Entries, AllWellFormed;
    LastIsWellFormed(a, t);
    forall k
      ensures var m, m' := Entries(a), Entries(a + [t]);
        && (k in m' <==> k in m || k == a[|a| - 1].b)
        && (k in m' ==> m'[k] == if k == a[|a| - 1].b then Meaning(t) else m[k])
    {
      AfterValueAt(a, t, k);
    }
  }

  /** A further key changes nothing, a further value decides its key. */
  lemma OneMoreItem(items: seq<Text>, n: nat)
    requires n < |items| && AllWellFormed(items) && KeysAreBytes(items)
    ensures AllWellFormed(items[..n]) && AllWellFormed(items[..n + 1])
    ensures n % 2 == 0 ==> Entries(items[..n + 1]) == Entries(items[..n])
    ensures n % 2 == 1 ==> Entries(items[..n + 1]) == Entries(items[..n])[items[n - 1].b := Meaning(items[n])]
  {
    hide WellFormed, Meaning, Entries;
    Prefixes(items, n);
    Prefixes(items, n + 1);
    assert items[..n + 1] == items[..n] + [items[n]];
    if n % 2 == 0 {
      AfterKey(items[..n], items[n]);
    } else {
      AfterValue(items[..n], items[n]);
    }
  }

  lemma EntriesStep(head: bytes, tail: bytes, item: Value, key: Option<bytes>, m: map<bytes, Value>)
    requires !Stops(head + tail) && Parse(head + tail) == Read(item, |head|) && (key.None? ==> item.Bytes?)
    ensures ParseEntries(head + tail, key, m)
         == Shift(ParseEntries(tail, NextKey(key, item), NextMap(key, item, m)), |head|)
  {
    hide Parse;
    assert Rest(head + tail, |head|) == tail;
  }

  lemma EntriesEnd(rest: bytes, key: Option<bytes>, m: map<bytes, Value>)
    ensures ParseEntries([END] + rest, key, m) == Read(m, 1)
  {
  }

  lemma {:induction false} EntriesAccepted(items: seq<Text>, n: nat, rest: bytes)
    requires AllWellFormed(items) && KeysAreBytes(items) && n <= |items| && AllWellFormed(items[..n])
    ensures ParseEntries(WriteItems(items[n..]) + ([END] + rest), Waiting(items, n), Entries(items[..n]))
         == Read(Entries(items), |WriteItems(items[n..])| + 1)
    decreases items, 1, |items| - n
  {
    hide Parse, Write, Entries, Meaning, ParseEntries, WellFormed;
    if n == |items| {
      EntriesEnd(rest, Waiting(items, n), Entries(items));
      assert items[..n] == items && WriteItems(items[n..]) + ([END] + rest) == [END] + rest;
    } else {
      var t := items[n];
      assert items[n..][0] == t && items[n..][1..] == items[n + 1..];
      var head, tail := Write(t), WriteItems(items[n + 1..]) + ([END] + rest);
      assert WriteItems(items[n..]) + ([END] + rest) == head + tail;
      TextStarts(t, tail);
      TextAccepted(t, tail);
      OneMoreItem(items, n);
      MeaningIsBytes(t);
      EntriesStep(head, tail, Meaning(t), Waiting(items, n), Entries(items[..n]));
      EntriesAccepted(items, n + 1, rest);
    }
  }

  /** Every well-formed text is accepted, whatever follows it, with its meaning and its length. */
  lemma AcceptsText(t: Text, rest: bytes)
    requires WellFormed(t)
    ensures DecodeAny(Write(t) + rest, 0) == Read(Meaning(t), |Write(t)|)
  {
    hide Write, Meaning, Parse, DecodeAny;
    var s := Write(t) + rest;
    TextAccepted(t, rest);
    DecodeIsParse(s, 0);
    assert Rest(s, 0) == s;
  }

  // ---------- Nothing else is ----------

  lemma ParsedInt(s: bytes) returns (t: Text)
    requires s != [] && s[0] == TAG_INT && Parse(s).Read? && Parse(s).end <= |s|
    ensures WellFormed(t) && Write(t) == s[..Parse(s).end] && Meaning(t) == Parse(s).value
  {
    Literals();
    var i := ScanTo(s, 1, END);
    t := IntText(s[1..i]);
    assert s[..Parse(s).end] == [s[0]] + s[1..i] + [s[i]];
  }

  lemma ParsedBytes(s: bytes) returns (t: Text)
    requires s != [] && IsDigit(s[0]) && Parse(s).Read?
    ensures WellFormed(t) && Write(t) == s[..Parse(s).end] && Meaning(t) == Parse(s).value
  {
    Literals();
    var i, end := ScanTo(s, 0, COLON), Parse(s).end;
    t := BytesText(s[0..i], s[i + 1..end]);
    assert s[..end] == s[0..i] + [s[i]] + s[i + 1..end];
    assert s[0..i][0] == s[0];
  }

  lemma Wrapped(tag: bytes, items: bytes, s: bytes, end: nat)
    requires 0 < end <= |s| && items + [END] == s[1..][..end - 1] && tag == [s[0]]
    ensures tag + items + Ascii("e") == s[..end]
  {
    Literals();
    assert s[..end] == [s[0]] + s[1..][..end - 1];
  }

  lemma {:induction false} ParsedIsText(s: bytes) returns (t: Text)
    requires Parse(s).Read? && Parse(s).end <= |s|
    ensures WellFormed(t) && Write(t) == s[..Parse(s).end] && Meaning(t) == Parse(s).value
    decreases |s|, 0
  {
    hide ParseItems, ParseEntries, Entries, Meanings, WriteItems, Atoi, Decides;
    Literals();
    if s[0] == TAG_INT {
      t := ParsedInt(s);
    } else if IsDigit(s[0]) {
      t := ParsedBytes(s);
    } else if s[0] == TAG_LIST {
      var items := ParsedItems(s[1..]);
      t := ListText(items);
      Wrapped(Ascii("l"), WriteItems(items), s, Parse(s).end);
    } else {
      NoEntries();
      var items := ParsedEntries(s[1..], []);
      t := DictText(items);
      assert items[0..] == items;
      Wrapped(Ascii("d"), WriteItems(items), s, Parse(s).end);
    }
  }

  lemma ItemsMore(s: bytes)
    requires !Stops(s) && ParseItems(s).Read? && ParseItems(s).end <= |s|
    ensures Parse(s).Read?
    ensures var used := Parse(s).end;
      && used < |s| && ParseItems(s[used..]).Read? && ParseItems(s).end == used + ParseItems(s[used..]).end
      && ParseItems(s).value == [Parse(s).value] + ParseItems(s[used..]).value
  {
    hide Parse;
  }

  lemma WriteCons(t: Text, later: seq<Text>)
    ensures WriteItems([t] + later) == Write(t) + WriteItems(later)
    ensures WellFormed(t) && AllWellFormed(later) ==>
      AllWellFormed([t] + later) && Meanings([t] + later) == [Meaning(t)] + Meanings(later)
  {
    hide Write, WellFormed, Meaning;
    assert ([t] + later)[1..] == later;
  }

  lemma Continued(head: bytes, later: bytes, s: bytes, used: nat, end: nat)
    requires used <= end <= |s| && head == s[..used] && later + [END] == s[used..][..end - used]
    ensures head + later + [END] == s[..end]
  {
    assert s[..end] == s[..used] + s[used..][..end - used];
    assert head + later + [END] == head + (later + [END]);
  }

  lemma ItemsStop(s: bytes)
    requires Stops(s) && ParseItems(s).end <= |s|
    ensures AllWellFormed([]) && WriteItems([]) + [END] == s[..ParseItems(s).end] && Meanings([]) == ParseItems(s).value
  {
    assert s[..1] == [END];
  }

  lemma {:induction false} ParsedItems(s: bytes) returns (items: seq<Text>)
    requires ParseItems(s).Read? && ParseItems(s).end <= |s|
    ensures AllWellFormed(items) && WriteItems(items) + [END] == s[..ParseItems(s).end]
    ensures Meanings(items) == ParseItems(s).value
    decreases |s|, 1
  {
    hide Parse, Write, Meaning, ParseItems, WellFormed, AllWellFormed, WriteItems, Meanings;
    if Stops(s) {
      ItemsStop(s);
      items := [];
    } else {
      ItemsMore(s);
      var used := Parse(s).end;
      var t := ParsedIsText(s);
      var later := ParsedItems(s[used..]);
      items := [t] + later;
      WriteCons(t, later);
      Continued(Write(t), WriteItems(later), s, used, ParseItems(s).end);
    }
  }

  lemma EntriesMore(s: bytes, key: Option<bytes>, m: map<bytes, Value>)
    requires !Stops(s) && ParseEntries(s, key, m).Read? && ParseEntries(s, key, m).end <= |s|
    ensures Parse(s).Read? && (key.None? ==> Parse(s).value.Bytes?)
    ensures var item, used := Parse(s).value, Parse(s).end;
      && used < |s|
      && ParseEntries(s, key, m) == Shift(ParseEntries(s[used..], NextKey(key, item), NextMap(key, item, m)), used)
  {
    hide Parse;
  }

  lemma EntriesStop(s: bytes, key: Option<bytes>, m: map<bytes, Value>)
    requires Stops(s) && ParseEntries(s, key, m).end <= |s|
    ensures ParseEntries(s, key, m) == Read(m, 1) && WriteItems([]) + [END] == s[..1]
  {
    assert s[..1] == [END];
  }

  lemma OneMoreText(before: seq<Text>, t: Text)
    requires AllWellFormed(before) && KeysAreBytes(before) && WellFormed(t) && (|before| % 2 == 0 ==> t.BytesText?)
    ensures var more, key := before + [t], Waiting(before, |before|);
      && AllWellFormed(more) && KeysAreBytes(more)
      && Waiting(more, |more|) == NextKey(key, Meaning(t))
      && Entries(more) == NextMap(key, Meaning(t), Entries(before))
  {
    hide WellFormed, Meaning, Entries, AllWellFormed, KeysAreBytes;
    var more := before + [t];
    Appended(before, t);
    MeaningIsBytes(t);
    assert more[|before|] == t;
    if |before| % 2 == 0 {
      AfterKey(before, t);
    } else {
      AfterValue(before, t);
    }
  }

  lemma Appended(before: seq<Text>, t: Text)
    requires AllWellFormed(before) && KeysAreBytes(before) && WellFormed(t) && (|before| % 2 == 0 ==> t.BytesText?)
    ensures AllWellFormed(before + [t]) && KeysAreBytes(before + [t])
  {
    hide WellFormed;
  }

  /** The items of a dictionary, after those in `before`. */
  lemma {:induction false} ParsedEntries(s: bytes, before: seq<Text>) returns (items: seq<Text>)
    requires AllWellFormed(before) && KeysAreBytes(before)
    requires ParseEntries(s, Waiting(before, |before|), Entries(before)).Read?
    requires ParseEntries(s, Waiting(before, |before|), Entries(before)).end <= |s|
    ensures var r := ParseEntries(s, Waiting(before, |before|), Entries(before));
      && before <= items && AllWellFormed(items) && KeysAreBytes(items)
      && WriteItems(items[|before|..]) + [END] == s[..r.end] && Entries(items) == r.value
    decreases |s|, 1
  {
    hide Parse, Write, Meaning, WellFormed, AllWellFormed, KeysAreBytes, ParseEntries, Entries, WriteItems, NextKey, NextMap;
    var n, key, m := |before|, Waiting(before, |before|), Entries(before);
    if Stops(s) {
      EntriesStop(s, key, m);
      items := before;
      assert items[n..] == [];
    } else {
      EntriesMore(s, key, m);
      var used := Parse(s).end;
      var t := ParsedIsText(s);
      MeaningIsBytes(t);
      OneMoreText(before, t);
      items := ParsedEntries(s[used..], before + [t]);
      assert items[n..] == [t] + items[n + 1..];
      WriteCons(t, items[n + 1..]);
      Continued(Write(t), WriteItems(items[n + 1..]), s, used, ParseEntries(s, key, m).end);
    }
  }

  lemma MeaningIsBytes(t: Text)
    requires WellFormed(t)
    ensures Meaning(t).Bytes? <==> t.BytesText?
    ensures t.BytesText? ==> Meaning(t) == Bytes(t.b)
  {
  }

  /**
   Decoding gives `v` and ends at `end` inside the buffer if and only if what stands there is a
   well-formed text that means `v`.
   */
  lemma AcceptsExactly(buf: bytes, v: Value, end: nat)
    requires end <= |buf|
    ensures DecodeAny(buf, 0) == Read(v, end) <==>
      exists t :: WellFormed(t) && Write(t) == buf[..end] && Meaning(t) == v
  {
    hide Write, Meaning, Parse, DecodeAny, WellFormed;
    DecodeIsParse(buf, 0);
    assert Rest(buf, 0) == buf;
    if DecodeAny(buf, 0) == Read(v, end) {
      var t := ParsedIsText(buf);
    }
    forall t | WellFormed(t) && Write(t) == buf[..end] && Meaning(t) == v
      ensures DecodeAny(buf, 0) == Read(v, end)
    {
      AcceptsText(t, buf[end..]);
      assert Write(t) + buf[end..] == buf;
    }
  }

  // ---------- Texts that run into the end of the buffer ----------

  function Ends(n: nat): (r: bytes)
    ensures |r| == n && forall i :: 0 <= i < n ==> r[i] == END
  {
    seq(n, _ => END)
  }

  lemma OneMoreEnd(n: nat)
    ensures Ends(n + 1) == Ends(n) + [END] && Ends(n + 1) == [END] + Ends(n)
  {
  }

  lemma IntCloses(s: bytes)
    requires s != [] && s[0] == TAG_INT && Parse(s).Read? && Parse(s).end > |s|
    ensures Parse(s).end == |s| + 1 && Parse(s + Ends(1)) == Parse(s)
  {
    assert ScanTo(s, 1, END) == |s|;
    assert Ends(1) == [END];
    assert s + [END] == s + [END] + [];
    assert END !in s;
    ScanFinds(s, END, [], 1);
    assert (s + [END])[1..|s|] == s[1..];
    assert s[1..|s|] == s[1..];
  }

  lemma {:induction false} ParseCloses(s: bytes)
    requires Parse(s).Read? && Parse(s).end > |s|
    ensures Parse(s + Ends(Parse(s).end - |s|)) == Parse(s)
    decreases |s|, 0
  {
    hide ParseItems, ParseEntries, DecodeInt, Ends;
    var n := Parse(s).end - |s|;
    var s' := s + Ends(n);
    assert s'[0] == s[0];
    if s[0] == TAG_INT {
      IntCloses(s);
    } else if s[0] == TAG_LIST {
      ItemsClose(s[1..]);
      assert s'[1..] == s[1..] + Ends(n);
    } else {
      EntriesClose(s[1..], None, map[]);
      assert s'[1..] == s[1..] + Ends(n);
    }
  }

  /** The first item of an open loop, closed inside the text or not, is read the same with the ends behind it. */
  lemma {:induction false} FirstCloses(s: bytes, n: nat)
    requires Parse(s).Read? && n > 0 && (Parse(s).end > |s| ==> n == Parse(s).end - |s| + 1)
    ensures Parse(s + Ends(n)) == Parse(s)
    ensures Rest(s + Ends(n), Parse(s).end) == if Parse(s).end > |s| then [END] else s[Parse(s).end..] + Ends(n)
    decreases |s|, 1
  {
    var used := Parse(s).end;
    if used <= |s| {
      hide Parse, Ends;
      ParseLocal(s, s[used..] + Ends(n));
      assert s + Ends(n) == s[..used] + (s[used..] + Ends(n));
    } else {
      ParseCloses(s);
      hide Parse, Ends;
      var whole := s + Ends(n - 1);
      OneMoreEnd(n - 1);
      assert s + Ends(n) == whole + [END];
      assert whole[..used] == whole;
      ParseLocal(whole, [END]);
      assert (whole + [END])[used..] == [END];
    }
  }

  lemma {:induction false} ItemsClose(s: bytes)
    requires ParseItems(s).Read? && ParseItems(s).end > |s|
    ensures ParseItems(s + Ends(ParseItems(s).end - |s|)) == ParseItems(s)
    decreases |s|, 2
  {
    hide Parse;
    var n := ParseItems(s).end - |s|;
    if Stops(s) {
      assert s == [] && s + Ends(1) == [END];
    } else {
      var used := Parse(s).end;
      FirstCloses(s, n);
      assert (s + Ends(n))[0] == s[0];
      if used <= |s| {
        ItemsClose(s[used..]);
      } else {
        assert ParseItems([END]) == Read([], 1) && ParseItems([]) == Read([], 1);
      }
    }
  }

  lemma {:induction false} EntriesClose(s: bytes, key: Option<bytes>, m: map<bytes, Value>)
    requires ParseEntries(s, key, m).Read? && ParseEntries(s, key, m).end > |s|
    ensures ParseEntries(s + Ends(ParseEntries(s, key, m).end - |s|), key, m) == ParseEntries(s, key, m)
    decreases |s|, 2
  {
    hide Parse;
    var n := ParseEntries(s, key, m).end - |s|;
    if Stops(s) {
      assert s == [] && s + Ends(1) == [END];
    } else {
      var item, used := Parse(s).value, Parse(s).end;
      FirstCloses(s, n);
      assert (s + Ends(n))[0] == s[0];
      if used <= |s| {
        EntriesClose(s[used..], NextKey(key, item), NextMap(key, item, m));
      } else {
        var key', m' := NextKey(key, item), NextMap(key, item, m);
        assert ParseEntries([END], key', m') == Read(m', 1) && ParseEntries([], key', m') == Read(m', 1);
      }
    }
  }

  /** Whatever the decoder accepts, it reads as if everything that is open at the end of the buffer were closed there. */
  lemma ReadAsClosed(buf: bytes, v: Value, end: nat)
    requires DecodeAny(buf, 0) == Read(v, end) && end > |buf|
    ensures DecodeAny(buf + Ends(end - |buf|), 0) == Read(v, end)
    ensures exists t :: WellFormed(t) && Write(t) == buf + Ends(end - |buf|) && Meaning(t) == v
  {
    hide Write, Meaning, Parse, DecodeAny, WellFormed, Ends;
    var whole := buf + Ends(end - |buf|);
    DecodeIsParse(buf, 0);
    DecodeIsParse(whole, 0);
    assert Rest(buf, 0) == buf && Rest(whole, 0) == whole && whole[..end] == whole;
    ParseCloses(buf);
    AcceptsExactly(whole, v, end);
  }

  /** `BDecodeDict` reads a dictionary whatever stands in place of its tag. */
  lemma AnyTagWillDo(buf: bytes)
    requires buf != []
    ensures AsDict(DecodeDict(buf, 0)) == DecodeAny(Ascii("d") + buf[1..], 0)
  {
    hide DecodeEntries;
    Literals();
    var tagged := Ascii("d") + buf[1..];
    EntriesIsParse(buf, 1, None, map[]);
    EntriesIsParse(tagged, 1, None, map[]);
    assert Rest(buf, 1) == buf[1..] == Rest(tagged, 1);
  }
}
