/**
 A reference parser that sees only the text that is left. `DecodeIsParse` shows that the
 index-based decoder computes the same thing, so the laws of the codec can be stated and
 proved on texts without positions.
 */
module BencodeParse {
  import opened Base
  import opened BencodeValue
  import opened Decimal
  import opened BencodeEncode
  import opened BencodeDecode

  function Rest(s: bytes, n: nat): bytes {
    if n <= |s| then s[n..] else []
  }

  function Parse(s: bytes): (r: Decoded<Value>)
    ensures r.Read? ==> 0 < r.end
    decreases |s|, 0
  {
    if s == [] then Bad
    else if s[0] == TAG_INT then DecodeInt(s, 0)
    else if IsDigit(s[0]) then DecodeBytes(s, 0)
    else if s[0] == TAG_LIST then Shift(AsList(ParseItems(s[1..])), 1)
    else if s[0] == TAG_DICT then Shift(AsDict(ParseEntries(s[1..], None, map[])), 1)
    else Bad
  }

  predicate Stops(s: bytes) {
    s == [] || s[0] == END
  }

  function ParseItems(s: bytes): (r: Decoded<seq<Value>>)
    ensures r.Read? ==> 0 < r.end
    decreases |s|, 1
  {
    if Stops(s) then Read([], 1)
    else
      match Parse(s)
      case Read(item, used) => Shift(Prepend([item], ParseItems(Rest(s, used))), used)
      case Bad => Bad
      case Crash => Crash
  }

  function ParseEntries(s: bytes, key: Option<bytes>, m: map<bytes, Value>)
    : (r: Decoded<map<bytes, Value>>)
    ensures r.Read? ==> 0 < r.end
    decreases |s|, 1
  {
    if Stops(s) then Read(m, 1)
    else
      match Parse(s)
      case Read(item, used) =>
        if key.None? && !item.Bytes? then Crash
        else Shift(ParseEntries(Rest(s, used), NextKey(key, item), NextMap(key, item, m)), used)
      case Bad => Bad
      case Crash => Crash
  }

  lemma {:induction false} ScanShift(buf: bytes, pos: nat, i: nat, c: byte)
    requires pos <= i <= |buf|
    ensures ScanTo(buf, i, c) == pos + ScanTo(buf[pos..], i - pos, c)
    decreases |buf| - i
  {
    if i < |buf| && buf[i] != c {
      ScanShift(buf, pos, i + 1, c);
    }
  }

  lemma IntShift(buf: bytes, pos: nat)
    requires pos < |buf|
    ensures DecodeInt(buf, pos) == Shift(DecodeInt(buf[pos..], 0), pos)
  {
    hide Atoi, ScanTo;
    ScanShift(buf, pos, pos + 1, END);
    var i := ScanTo(buf, pos + 1, END);
    assert buf[pos..][1..i - pos] == buf[pos + 1..i];
  }

  /** The test against the whole length adds nothing to the test against the end. */
  lemma BytesShift(buf: bytes, pos: nat)
    requires pos < |buf| && IsDigit(buf[pos])
    ensures DecodeBytes(buf, pos) == Shift(DecodeBytes(buf[pos..], 0), pos)
  {
    hide Atoi, ScanTo;
    ScanShift(buf, pos, pos, COLON);
    var i := ScanTo(buf, pos, COLON);
    assert buf[pos..][0..i - pos] == buf[pos..i];
    var length := Atoi(buf[pos..i]);
    assert length.Some? ==> buf[pos..i][0] == buf[pos];
    if length.Some? && i + length.value + 1 <= |buf| {
      var l := length.value;
      assert buf[pos..][i - pos + 1..i - pos + l + 1] == buf[i + 1..i + l + 1];
    }
  }

  lemma RestIsTail(buf: bytes, pos: nat, n: nat)
    requires pos <= |buf|
    ensures Rest(buf[pos..], n) == Rest(buf, pos + n)
  {
  }

  /** The index-based decoder at `pos` is the reference parser on what is left there. */
  lemma {:induction false} DecodeIsParse(buf: bytes, pos: nat)
    ensures DecodeAny(buf, pos) == Shift(Parse(Rest(buf, pos)), pos)
    decreases |buf| - pos, 0
  {
    hide DecodeInt, DecodeBytes, DecodeItems, DecodeEntries, ParseItems, ParseEntries;
    if pos < |buf| {
      var s := buf[pos..];
      if s[0] == TAG_INT {
        IntShift(buf, pos);
      } else if IsDigit(s[0]) {
        BytesShift(buf, pos);
      } else if s[0] == TAG_LIST {
        RestIsTail(buf, pos, 1);
        ItemsIsParse(buf, pos + 1);
      } else if s[0] == TAG_DICT {
        RestIsTail(buf, pos, 1);
        EntriesIsParse(buf, pos + 1, None, map[]);
      }
    }
  }

  lemma ShiftTwice<T>(r: Decoded<T>, a: nat, b: nat)
    ensures Shift(Shift(r, a), b) == Shift(r, b + a)
  {
  }

  lemma PrependShift(item: Value, r: Decoded<seq<Value>>, a: nat, b: nat)
    ensures Shift(Shift(Prepend([item], r), a), b) == Prepend([item], Shift(r, b + a))
  {
  }

  lemma ItemsUnfold(s: bytes, item: Value, used: nat)
    requires !Stops(s) && Parse(s) == Read(item, used)
    ensures ParseItems(s) == Shift(Prepend([item], ParseItems(Rest(s, used))), used)
  {
    hide Parse;
  }

  lemma EntriesUnfold(s: bytes, key: Option<bytes>, m: map<bytes, Value>, item: Value, used: nat)
    requires !Stops(s) && Parse(s) == Read(item, used) && (key.Some? || item.Bytes?)
    ensures ParseEntries(s, key, m)
         == Shift(ParseEntries(Rest(s, used), NextKey(key, item), NextMap(key, item, m)), used)
  {
    hide Parse;
  }

  lemma {:induction false} ItemsIsParse(buf: bytes, i: nat)
    ensures DecodeItems(buf, i) == Shift(ParseItems(Rest(buf, i)), i)
    decreases |buf| - i, 1
  {
    hide DecodeAny, Parse;
    if !AtEnd(buf, i) {
      DecodeIsParse(buf, i);
      var s, r := buf[i..], DecodeAny(buf, i);
      if r.Read? {
        var item, used := r.value, r.end - i;
        ItemsIsParse(buf, r.end);
        RestIsTail(buf, i, used);
        ItemsUnfold(s, item, used);
        PrependShift(item, ParseItems(Rest(s, used)), used, i);
      }
    }
  }

  lemma DecodeEntriesUnfold(buf: bytes, i: nat, key: Option<bytes>, m: map<bytes, Value>, item: Value, next: nat)
    requires !AtEnd(buf, i) && DecodeAny(buf, i) == Read(item, next) && (key.Some? || item.Bytes?)
    ensures DecodeEntries(buf, i, key, m) == DecodeEntries(buf, next, NextKey(key, item), NextMap(key, item, m))
  {
    hide DecodeAny;
  }

  lemma DecodeEntriesStuck(buf: bytes, i: nat, key: Option<bytes>, m: map<bytes, Value>)
    requires !AtEnd(buf, i)
    requires DecodeAny(buf, i).Read? ==> key.None? && !DecodeAny(buf, i).value.Bytes?
    ensures DecodeEntries(buf, i, key, m) == if DecodeAny(buf, i).Bad? then Bad else Crash
  {
    hide DecodeAny;
  }

  lemma EntriesStuck(s: bytes, key: Option<bytes>, m: map<bytes, Value>)
    requires !Stops(s) && (Parse(s).Read? ==> key.None? && !Parse(s).value.Bytes?)
    ensures ParseEntries(s, key, m) == if Parse(s).Bad? then Bad else Crash
  {
    hide Parse;
  }

  lemma EntriesAtEnd(buf: bytes, i: nat, key: Option<bytes>, m: map<bytes, Value>)
    requires AtEnd(buf, i)
    ensures DecodeEntries(buf, i, key, m) == Shift(ParseEntries(Rest(buf, i), key, m), i)
  {
  }

  lemma {:induction false} EntriesIsParse(buf: bytes, i: nat, key: Option<bytes>, m: map<bytes, Value>)
    ensures DecodeEntries(buf, i, key, m) == Shift(ParseEntries(Rest(buf, i), key, m), i)
    decreases |buf| - i, 1
  {
    hide DecodeAny, Parse, DecodeEntries, ParseEntries;
    if AtEnd(buf, i) {
      EntriesAtEnd(buf, i, key, m);
    } else {
      var s, r := buf[i..], DecodeAny(buf, i);
      DecodeIsParse(buf, i);
      if r.Read? && (key.Some? || r.value.Bytes?) {
        var item, used := r.value, r.end - i;
        var key', m' := NextKey(key, item), NextMap(key, item, m);
        EntriesIsParse(buf, r.end, key', m');
        RestIsTail(buf, i, used);
        DecodeEntriesUnfold(buf, i, key, m, item, r.end);
        EntriesUnfold(s, key, m, item, used);
        ShiftTwice(ParseEntries(Rest(s, used), key', m'), used, i);
      } else {
        DecodeEntriesStuck(buf, i, key, m);
        EntriesStuck(s, key, m);
      }
    }
  }
}
