/**
 The byte-wise order of Go strings, and the sorted listing of a set of keys.
 */
module ByteOrder {
  import opened Base

  predicate Leq(a: bytes, b: bytes) {
    if a == [] then true
    else if b == [] then false
    else a[0] < b[0] || (a[0] == b[0] && Leq(a[1..], b[1..]))
  }

  predicate Less(a: bytes, b: bytes) {
    Leq(a, b) && a != b
  }

  lemma {:induction false} LeqTotal(a: bytes, b: bytes)
    ensures Leq(a, b) || Leq(b, a)
  {
    if a != [] && b != [] {
      LeqTotal(a[1..], b[1..]);
    }
  }

  lemma {:induction false} LeqAntisymmetric(a: bytes, b: bytes)
    requires Leq(a, b) && Leq(b, a)
    ensures a == b
  {
    if a != [] {
      LeqAntisymmetric(a[1..], b[1..]);
      assert a == [a[0]] + a[1..] && b == [b[0]] + b[1..];
    }
  }

  lemma {:induction false} LeqTransitive(a: bytes, b: bytes, c: bytes)
    requires Leq(a, b) && Leq(b, c)
    ensures Leq(a, c)
  {
    if a != [] && a[0] == b[0] == c[0] {
      LeqTransitive(a[1..], b[1..], c[1..]);
    }
  }

  /** The byte-wise order: a proper prefix, or the smaller byte where the two first differ. */
  ghost predicate Before(a: bytes, b: bytes) {
    (|a| < |b| && a == b[..|a|]) || exists k :: DiffersAt(a, b, k) && a[k] < b[k]
  }

  predicate DiffersAt(a: bytes, b: bytes, k: int) {
    0 <= k < |a| && k < |b| && a[..k] == b[..k] && a[k] != b[k]
  }

  lemma {:induction false} LessExactly(a: bytes, b: bytes)
    ensures Less(a, b) <==> Before(a, b)
    decreases |a|
  {
    if a != [] && b != [] {
      var a', b' := a[1..], b[1..];
      assert a == [a[0]] + a' && b == [b[0]] + b';
      if a[0] == b[0] {
        LessExactly(a', b');
        SameHead(a[0], a', b');
      } else {
        assert DiffersAt(a, b, 0);
        forall k | DiffersAt(a, b, k)
          ensures k == 0
        {
          AgreeBefore(a, b, k);
        }
      }
    }
  }

  lemma AgreeBefore(a: bytes, b: bytes, k: int)
    requires DiffersAt(a, b, k)
    ensures k > 0 ==> a[0] == b[0]
  {
    if k > 0 {
      assert a[..k][0] == a[0] && b[..k][0] == b[0];
    }
  }

  lemma SameHead(x: byte, a: bytes, b: bytes)
    ensures Before([x] + a, [x] + b) <==> Before(a, b)
  {
    var xa, xb := [x] + a, [x] + b;
    forall k | DiffersAt(a, b, k)
      ensures DiffersAt(xa, xb, k + 1) && xa[k + 1] == a[k] && xb[k + 1] == b[k]
    {
      assert xa[..k + 1] == [x] + a[..k] && xb[..k + 1] == [x] + b[..k];
    }
    forall k | DiffersAt(xa, xb, k)
      ensures k > 0 && DiffersAt(a, b, k - 1) && xa[k] == a[k - 1] && xb[k] == b[k - 1]
    {
      assert k > 0;
      assert xa[..k][1..] == a[..k - 1] && xb[..k][1..] == b[..k - 1];
    }
    if |a| < |b| {
      assert xb[..|xa|] == [x] + b[..|a|];
      assert xa[1..] == a && ([x] + b[..|a|])[1..] == b[..|a|];
    }
    if exists k :: DiffersAt(a, b, k) && a[k] < b[k] {
      var k :| DiffersAt(a, b, k) && a[k] < b[k];
      assert DiffersAt(xa, xb, k + 1);
    }
    if exists k :: DiffersAt(xa, xb, k) && xa[k] < xb[k] {
      var k :| DiffersAt(xa, xb, k) && xa[k] < xb[k];
      assert DiffersAt(a, b, k - 1);
    }
  }

  lemma LessTransitive(a: bytes, b: bytes, c: bytes)
    requires Less(a, b) && Less(b, c)
    ensures Less(a, c)
  {
    LeqTransitive(a, b, c);
    if a == c {
      LeqAntisymmetric(a, b);
    }
  }

  ghost predicate Ascending(keys: seq<bytes>) {
    forall i, j :: 0 <= i < j < |keys| ==> Less(keys[i], keys[j])
  }

  function Elements(keys: seq<bytes>): set<bytes> {
    set k | k in keys
  }

  function Insert(k: bytes, keys: seq<bytes>): (r: seq<bytes>)
    ensures |r| == |keys| + 1
  {
    if keys == [] || Leq(k, keys[0]) then [k] + keys
    else [keys[0]] + Insert(k, keys[1..])
  }

  lemma {:induction false} InsertElements(k: bytes, keys: seq<bytes>)
    ensures Elements(Insert(k, keys)) == Elements(keys) + {k}
  {
    if keys != [] && !Leq(k, keys[0]) {
      InsertElements(k, keys[1..]);
      assert keys == [keys[0]] + keys[1..];
      assert Elements(keys) == {keys[0]} + Elements(keys[1..]);
      var r := Insert(k, keys[1..]);
      assert Elements([keys[0]] + r) == {keys[0]} + Elements(r);
    }
  }

  lemma {:induction false} InsertAscending(k: bytes, keys: seq<bytes>)
    requires Ascending(keys) && k !in keys
    ensures Ascending(Insert(k, keys))
  {
    if keys == [] {
    } else if Leq(k, keys[0]) {
      forall j | 0 <= j < |keys|
        ensures Less(k, keys[j])
      {
        if j > 0 {
          LessTransitive(k, keys[0], keys[j]);
        }
      }
    } else {
      LeqTotal(k, keys[0]);
      InsertAscending(k, keys[1..]);
      InsertElements(k, keys[1..]);
      var r := Insert(k, keys[1..]);
      forall j | 0 <= j < |r|
        ensures Less(keys[0], r[j])
      {
        assert r[j] in Elements(r);
        if r[j] != k {
          assert r[j] in keys[1..];
        }
      }
    }
  }

  /** A set has at most one ascending listing. */
  lemma {:induction false} AscendingUnique(a: seq<bytes>, b: seq<bytes>)
    requires Ascending(a) && Ascending(b)
    requires Elements(a) == Elements(b)
    ensures a == b
  {
    if a == [] {
      assert forall i :: 0 <= i < |b| ==> b[i] in Elements(b);
    } else {
      assert a[0] in Elements(a);
      assert b != [] && b[0] in Elements(b);
      HeadsAgree(a, b);
      TailElements(a);
      TailElements(b);
      AscendingUnique(a[1..], b[1..]);
      assert a == [a[0]] + a[1..] && b == [b[0]] + b[1..];
    }
  }

  lemma HeadsAgree(a: seq<bytes>, b: seq<bytes>)
    requires Ascending(a) && Ascending(b) && a != [] && b != []
    requires Elements(a) == Elements(b)
    ensures a[0] == b[0]
  {
    assert a[0] in Elements(b) && b[0] in Elements(a) by {
      assert a[0] in Elements(a) && b[0] in Elements(b);
    }
    var i :| 0 <= i < |a| && a[i] == b[0];
    var j :| 0 <= j < |b| && b[j] == a[0];
    if i > 0 && j > 0 {
      LeqAntisymmetric(a[0], b[0]);
    }
  }

  lemma TailElements(a: seq<bytes>)
    requires Ascending(a) && a != []
    ensures Ascending(a[1..])
    ensures Elements(a[1..]) == Elements(a) - {a[0]}
  {
    assert a == [a[0]] + a[1..];
  }

  /** The ascending listing of a set of keys. */
  ghost function SortedKeys(s: set<bytes>): (r: seq<bytes>)
    ensures Ascending(r) && Elements(r) == s
  {
    if s == {} then []
    else
      var k :| k in s;
      var rest := SortedKeys(s - {k});
      assert k in rest <==> k in Elements(rest);
      InsertAscending(k, rest);
      InsertElements(k, rest);
      Insert(k, rest)
  }

  lemma AscendingMeansBefore(keys: seq<bytes>)
    requires Ascending(keys)
    ensures forall i, j :: 0 <= i < j < |keys| ==> Before(keys[i], keys[j])
  {
    forall i, j | 0 <= i < j < |keys|
      ensures Before(keys[i], keys[j])
    {
      LessExactly(keys[i], keys[j]);
    }
  }

  /** `sort.Strings` on a listing without repetitions, whatever order it comes in. */
  method SortStrings(keys: seq<bytes>) returns (sorted: seq<bytes>)
    requires forall i, j :: 0 <= i < j < |keys| ==> keys[i] != keys[j]
    ensures sorted == SortedKeys(Elements(keys)) && Elements(sorted) == Elements(keys)
    ensures forall i, j :: 0 <= i < j < |sorted| ==> Before(sorted[i], sorted[j])
  {
    sorted := [];
    for i := 0 to |keys|
      invariant Ascending(sorted)
      invariant Elements(sorted) == Elements(keys[..i])
    {
      assert keys[i] in sorted <==> keys[i] in Elements(sorted);
      InsertAscending(keys[i], sorted);
      InsertElements(keys[i], sorted);
      assert keys[..i + 1] == keys[..i] + [keys[i]];
      sorted := Insert(keys[i], sorted);
    }
    assert keys[..|keys|] == keys;
    AscendingUnique(sorted, SortedKeys(Elements(keys)));
    AscendingMeansBefore(sorted);
  }
}
