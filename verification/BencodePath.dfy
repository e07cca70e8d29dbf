/**
 Dotted-path lookup in decoded dictionaries, common/bencode/util.go.
 */
module BencodePath {
  import opened Base
  import opened BencodeValue

  const DOT: byte := 46

  /** `strings.Split(path, ".")`. */
  function Split(path: bytes): (parts: seq<bytes>)
    ensures |parts| >= 1
  {
    if path == [] then [[]]
    else
      var rest := Split(path[1..]);
      if path[0] == DOT then [[]] + rest else [[path[0]] + rest[0]] + rest[1..]
  }

  lemma {:induction false} SplitPlain(path: bytes)
    requires DOT !in path
    ensures Split(path) == [path]
  {
    if path != [] {
      SplitPlain(path[1..]);
      assert path == [path[0]] + path[1..];
    }
  }

  lemma {:induction false} SplitDotted(a: bytes, b: bytes)
    requires DOT !in a && DOT !in b
    ensures Split(a + [DOT] + b) == [a, b]
  {
    var path := a + [DOT] + b;
    if a == [] {
      assert path[1..] == b;
      SplitPlain(b);
    } else {
      assert path[1..] == a[1..] + [DOT] + b;
      SplitDotted(a[1..], b);
      assert path[0] == a[0] && a == [a[0]] + a[1..];
    }
  }

  /** The parts with dots between them. */
  function Join(parts: seq<bytes>): bytes
    requires parts != []
  {
    if |parts| == 1 then parts[0] else parts[0] + [46] + Join(parts[1..])
  }

  lemma JoinDot(rest: seq<bytes>)
    requires rest != []
    ensures Join([[]] + rest) == [46] + Join(rest)
  {
    assert ([[]] + rest)[1..] == rest;
  }

  lemma JoinByte(c: byte, rest: seq<bytes>)
    requires rest != []
    ensures Join([[c] + rest[0]] + rest[1..]) == [c] + Join(rest)
  {
    var parts := [[c] + rest[0]] + rest[1..];
    assert parts[1..] == rest[1..];
    if |rest| > 1 {
      var later := Join(rest[1..]);
      assert [c] + rest[0] + [46] + later == [c] + (rest[0] + [46] + later);
    }
  }

  /** Splitting is the inverse of joining: the only parts without a dot that give the path. */
  lemma {:induction false} SplitExactly(path: bytes)
    ensures Join(Split(path)) == path
    ensures forall i :: 0 <= i < |Split(path)| ==> 46 !in Split(path)[i]
  {
    hide Join;
    if path == [] {
      JoinNothing();
    } else {
      SplitExactly(path[1..]);
      var rest := Split(path[1..]);
      assert path == [path[0]] + path[1..];
      if path[0] == DOT {
        JoinDot(rest);
      } else {
        JoinByte(path[0], rest);
      }
    }
  }

  lemma JoinNothing()
    ensures Join([[]]) == []
  {
  }

  lemma {:induction false} JoinSplits(parts: seq<bytes>)
    requires parts != [] && forall i :: 0 <= i < |parts| ==> 46 !in parts[i]
    ensures Split(Join(parts)) == parts
    decreases |parts|
  {
    if |parts| == 1 {
      SplitPlain(parts[0]);
    } else {
      JoinSplits(parts[1..]);
      SplitFirst(parts[0], Join(parts[1..]));
      assert parts == [parts[0]] + parts[1..];
    }
  }

  lemma {:induction false} SplitFirst(a: bytes, rest: bytes)
    requires DOT !in a
    ensures Split(a + [46] + rest) == [a] + Split(rest)
    decreases |a|
  {
    var path := a + [46] + rest;
    if a == [] {
      assert path[1..] == rest;
    } else {
      assert path[1..] == a[1..] + [46] + rest;
      SplitFirst(a[1..], rest);
      assert path[0] == a[0] && a == [a[0]] + a[1..];
    }
  }

  /** What the walk along `parts` ends on, starting from `m`. */
  function Walk(m: Value, parts: seq<bytes>): Option<Value>
    decreases |parts|
  {
    if parts == [] then Some(m)
    else if m.Dict? then
      if parts[0] in m.entries then Walk(m.entries[parts[0]], parts[1..]) else None
    else if |parts| != 1 then None
    else Some(m)
  }

  method GetByPath(dict: map<bytes, Value>, path: bytes) returns (r: Option<Value>)
    ensures r == Walk(Dict(dict), Split(path))
  {
    var parts := Split(path);
    var m := Dict(dict);
    for i := 0 to |parts|
      invariant Walk(Dict(dict), parts) == Walk(m, parts[i..])
    {
      assert parts[i..][1..] == parts[i + 1..];
      if m.Dict? {
        if parts[i] !in m.entries {
          return None;
        }
        m := m.entries[parts[i]];
      } else if i != |parts| - 1 {
        return None;
      }
    }
    return Some(m);
  }

  method CheckMapPath(dict: map<bytes, Value>, path: bytes) returns (r: bool)
    ensures r <==> Walk(Dict(dict), Split(path)).Some?
  {
    var found := GetByPath(dict, path);
    return found.Some?;
  }

  function IntAt(dict: map<bytes, Value>, path: bytes): Option<int64> {
    match Walk(Dict(dict), Split(path))
    case Some(Int(n)) => Some(n)
    case _ => None
  }

  method GetInt(dict: map<bytes, Value>, path: bytes) returns (n: int64, ok: bool)
    ensures if ok then IntAt(dict, path) == Some(n) else IntAt(dict, path) == None && n == 0
  {
    var found := GetByPath(dict, path);
    if found.Some? && found.value.Int? {
      return found.value.n, true;
    }
    return 0, false;
  }

  /** Nested lookup: every part has to name an entry of a dictionary. */
  function Lookup(m: Value, parts: seq<bytes>): Option<Value>
    decreases |parts|
  {
    if parts == [] then Some(m)
    else if m.Dict? && parts[0] in m.entries then Lookup(m.entries[parts[0]], parts[1..])
    else None
  }

  /** The path without its last part already ends on a value that is not a dictionary. */
  predicate Overshoots(m: Value, parts: seq<bytes>) {
    parts != [] &&
    var leaf := Lookup(m, parts[..|parts| - 1]);
    leaf.Some? && !leaf.value.Dict?
  }

  /**
   The walk is nested lookup exactly when the path does not overshoot by one part; when it
   does, nested lookup finds nothing and the walk still answers with the leaf before.
   */
  lemma {:induction false} WalkIsLookupUnlessOvershot(m: Value, parts: seq<bytes>)
    ensures Walk(m, parts) == Lookup(m, parts) <==> !Overshoots(m, parts)
    ensures Overshoots(m, parts) ==> Walk(m, parts) == Lookup(m, parts[..|parts| - 1]) && Lookup(m, parts).None?
    decreases |parts|
  {
    if parts != [] && m.Dict? && parts[0] in m.entries {
      WalkIsLookupUnlessOvershot(m.entries[parts[0]], parts[1..]);
      if |parts| > 1 {
        assert parts[..|parts| - 1][0] == parts[0];
        assert parts[..|parts| - 1][1..] == parts[1..][..|parts| - 2];
      } else {
        assert parts[..0] == [];
      }
    } else if |parts| == 1 {
      assert parts[..0] == [];
    } else if |parts| > 1 {
      assert parts[..|parts| - 1][0] == parts[0];
    }
  }

  lemma PlainEntry(dict: map<bytes, Value>, key: bytes)
    requires DOT !in key
    ensures Walk(Dict(dict), Split(key)) == if key in dict then Some(dict[key]) else None
  {
    SplitPlain(key);
    assert [key][1..] == [];
  }

  lemma DottedEntry(dict: map<bytes, Value>, a: bytes, b: bytes)
    requires DOT !in a && DOT !in b
    requires a in dict && dict[a].Dict? && b in dict[a].entries
    ensures Walk(Dict(dict), Split(a + [DOT] + b)) == Some(dict[a].entries[b])
  {
    SplitDotted(a, b);
    assert [a, b][1..] == [b] && [b][1..] == [];
    assert Walk(dict[a], [b]) == Walk(dict[a].entries[b], []);
  }
}
