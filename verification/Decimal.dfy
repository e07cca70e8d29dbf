/**
 Decimal text of integers: `strconv.Itoa` and `strconv.Atoi` as the codec uses them.
 */
module Decimal {
  import opened Base

  const ZERO: byte := 48
  const PLUS: byte := 43
  const MINUS: byte := 45

  predicate IsDigit(c: byte) {
    48 <= c <= 57
  }

  predicate AllDigits(s: bytes) {
    forall i :: 0 <= i < |s| ==> IsDigit(s[i])
  }

  function NatText(n: nat): (r: bytes)
    ensures |r| > 0 && AllDigits(r)
  {
    if n < 10 then [ZERO + n] else NatText(n / 10) + [ZERO + n % 10]
  }

  function Itoa(n: int): (r: bytes)
    ensures |r| > 0
    ensures forall i :: 0 <= i < |r| ==> IsDigit(r[i]) || (i == 0 && r[i] == MINUS)
    ensures n >= 0 ==> AllDigits(r)
  {
    if n < 0 then [MINUS] + NatText(-n) else NatText(n)
  }

  function DigitsValue(s: bytes): nat
    requires AllDigits(s)
  {
    if s == [] then 0 else DigitsValue(s[..|s| - 1]) * 10 + (s[|s| - 1] - ZERO)
  }

  predicate Signed(s: bytes) {
    s != [] && (s[0] == PLUS || s[0] == MINUS)
  }

  /**
   `strconv.Atoi`: an optional sign and at least one digit, in the range of `int`.
   Leading zeros and a leading plus are accepted.
   */
  function Atoi(s: bytes): (r: Option<int64>)
    ensures r.Some? ==> |s| > 0 && (r.value < 0 ==> s[0] == MINUS)
  {
    var body := if Signed(s) then s[1..] else s;
    if body == [] || !AllDigits(body) then None
    else
      var magnitude: int := DigitsValue(body);
      var n: int := if s[0] == MINUS then -magnitude else magnitude;
      if MIN_INT <= n <= MAX_INT then Some(n) else None
  }

  lemma {:induction false} NatTextValue(n: nat)
    ensures DigitsValue(NatText(n)) == n
  {
    var r := NatText(n);
    if n >= 10 {
      assert r[..|r| - 1] == NatText(n / 10);
      NatTextValue(n / 10);
    } else {
      assert r[..0] == [];
    }
  }

  /** Every `int` survives Itoa then Atoi. */
  lemma AtoiItoa(n: int)
    requires MIN_INT <= n <= MAX_INT
    ensures Atoi(Itoa(n)) == Some(n)
  {
    if n < 0 {
      assert Itoa(n)[1..] == NatText(-n);
      NatTextValue(-n);
    } else {
      NatTextValue(n);
    }
  }

  function Pow10(d: nat): (r: nat)
    ensures r > 0
  {
    if d == 0 then 1 else 10 * Pow10(d - 1)
  }

  /** The first digit is the most significant one. */
  lemma {:induction false} LeadingDigit(s: bytes)
    requires s != [] && AllDigits(s)
    ensures AllDigits(s[1..]) && DigitsValue(s) == (s[0] - 48) * Pow10(|s| - 1) + DigitsValue(s[1..])
    decreases |s|
  {
    var last := |s| - 1;
    if last > 0 {
      LeadingDigit(s[..last]);
      assert s[..last][1..] == s[1..][..last - 1] && s[1..][last - 1] == s[last];
      Distributes(s[0] - 48, Pow10(last - 1), DigitsValue(s[1..][..last - 1]));
    } else {
      assert s[..0] == [] && s[1..] == [];
    }
  }

  lemma Distributes(a: int, p: nat, x: nat)
    ensures (a * p + x) * 10 == a * (10 * p) + x * 10
  {
  }

  function Nulls(n: nat): bytes {
    if n == 0 then [] else [48] + Nulls(n - 1)
  }

  /** Digits are the shortest text of their value, behind some zeros. */
  lemma {:induction false} DigitsAreText(s: bytes) returns (z: nat)
    requires s != [] && AllDigits(s)
    ensures s == Nulls(z) + NatText(DigitsValue(s))
    decreases |s|
  {
    var last := |s| - 1;
    var init, d := s[..last], s[last];
    assert s == init + [d];
    if init == [] {
      z := 0;
      assert s == [d];
    } else {
      z := DigitsAreText(init);
      var n := DigitsValue(init);
      if n == 0 {
        NullsSnoc(z);
        z := z + 1;
        assert NatText(0) == [48];
      } else {
        assert NatText(10 * n + (d - ZERO)) == NatText(n) + [d];
        assert s == Nulls(z) + (NatText(n) + [d]);
      }
    }
  }

  lemma {:induction false} NullsSnoc(n: nat)
    ensures Nulls(n + 1) == Nulls(n) + [48]
  {
    if n > 0 {
      NullsSnoc(n - 1);
    }
  }

  lemma NullLeads(s: bytes)
    requires AllDigits(s)
    ensures AllDigits([48] + s) && DigitsValue([48] + s) == DigitsValue(s)
  {
    hide DigitsValue;
    var t := [48] + s;
    assert t[1..] == s;
    LeadingDigit(t);
    assert (t[0] - 48) * Pow10(|t| - 1) == 0;
  }

  lemma {:induction false} NullsAddNothing(z: nat, text: bytes)
    requires AllDigits(text)
    ensures AllDigits(Nulls(z) + text) && DigitsValue(Nulls(z) + text) == DigitsValue(text)
  {
    hide DigitsValue, AllDigits;
    if z == 0 {
      assert Nulls(z) + text == text;
    } else {
      NullsAddNothing(z - 1, text);
      NullLeads(Nulls(z - 1) + text);
      assert Nulls(z) + text == [48] + (Nulls(z - 1) + text);
    }
  }

  /** A sign that the number may have. */
  predicate SignOf(sign: bytes, n: int) {
    (sign == Ascii("-") && n <= 0) || ((sign == [] || sign == Ascii("+")) && n >= 0)
  }

  function Magnitude(n: int): nat {
    if n < 0 then -n else n
  }

  predicate Spells(s: bytes, sign: bytes, z: nat, n: int) {
    SignOf(sign, n) && s == sign + Nulls(z) + NatText(Magnitude(n))
  }

  lemma PlainRead(body: bytes)
    requires body != [] && AllDigits(body) && DigitsValue(body) <= MAX_INT
    ensures Atoi(body) == Some(DigitsValue(body))
  {
    hide DigitsValue;
    assert IsDigit(body[0]);
  }

  lemma SignedRead(sign: byte, body: bytes, n: int)
    requires (sign == PLUS && n >= 0) || (sign == MINUS && n <= 0)
    requires body != [] && AllDigits(body) && DigitsValue(body) == Magnitude(n) && MIN_INT <= n <= MAX_INT
    ensures Atoi([sign] + body) == Some(n)
  {
    hide DigitsValue;
    assert ([sign] + body)[1..] == body;
  }

  lemma Signs()
    ensures Ascii("-") == [MINUS] && Ascii("+") == [PLUS]
  {
  }

  lemma SpelledIsRead(s: bytes, sign: bytes, z: nat, n: int)
    requires Spells(s, sign, z, n) && MIN_INT <= n <= MAX_INT
    ensures Atoi(s) == Some(n)
  {
    hide DigitsValue, NatText, Nulls, Atoi, AllDigits, Ascii;
    var text := Nulls(z) + NatText(Magnitude(n));
    NatTextValue(Magnitude(n));
    NullsAddNothing(z, NatText(Magnitude(n)));
    Signs();
    assert s == sign + text;
    if sign == [] {
      assert s == text;
      PlainRead(text);
    } else {
      SignedRead(sign[0], text, n);
    }
  }

  lemma Unsigned(s: bytes) returns (sign: bytes, body: bytes)
    requires Atoi(s).Some?
    ensures s == sign + body && body != [] && AllDigits(body)
    ensures SignOf(sign, Atoi(s).value) && Magnitude(Atoi(s).value) == DigitsValue(body)
  {
    hide DigitsValue;
    Signs();
    body := if Signed(s) then s[1..] else s;
    sign := if Signed(s) then [s[0]] else [];
  }

  lemma ReadIsSpelled(s: bytes) returns (sign: bytes, z: nat)
    requires Atoi(s).Some?
    ensures Spells(s, sign, z, Atoi(s).value)
  {
    hide DigitsValue, NatText, Nulls, Atoi, AllDigits, SignOf;
    var body;
    sign, body := Unsigned(s);
    z := DigitsAreText(body);
    assert sign + (Nulls(z) + NatText(DigitsValue(body))) == sign + Nulls(z) + NatText(DigitsValue(body));
  }

  /** A text is read as `n` if and only if it is a sign that suits it, some zeros and its digits. */
  lemma AtoiExactly(s: bytes, n: int)
    ensures Atoi(s) == Some(n) <==> MIN_INT <= n <= MAX_INT && exists sign, z: nat :: Spells(s, sign, z, n)
  {
    hide Spells;
    if Atoi(s) == Some(n) {
      var sign, z := ReadIsSpelled(s);
    }
    forall sign, z: nat | Spells(s, sign, z, n) && MIN_INT <= n <= MAX_INT
      ensures Atoi(s) == Some(n)
    {
      SpelledIsRead(s, sign, z, n);
    }
  }
}
