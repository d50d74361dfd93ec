/** Integers as text: printing as std::to_string does, and reading as
    std::from_chars does. */
module Decimal {
  import opened Metrics
  import opened Bytes

  const INT64_MIN := -0x8000_0000_0000_0000
  const INT64_MAX := 0x7fff_ffff_ffff_ffff
  const INT32_MIN := -0x8000_0000
  const INT32_MAX := 0x7fff_ffff

  predicate IsDigit(c: Byte) { '0' <= c <= '9' }

  function Digit(v: nat): Byte
    requires v < 10
  {
    ('0' as int + v) as char
  }

  function Digits(n: nat): Text {
    if n < 10 then [Digit(n)] else Digits(n / 10) + [Digit(n % 10)]
  }

  function ToString(v: int): Text {
    if v < 0 then ['-'] + Digits(-v) else Digits(v)
  }

  /** The value of a run of digits. */
  function ValueOf(ds: Text): (v: int)
    requires forall i :: 0 <= i < |ds| ==> IsDigit(ds[i])
    ensures v >= 0
  {
    if ds == [] then 0
    else
      var last := ds[|ds| - 1];
      assert IsDigit(last);
      ValueOf(ds[..|ds| - 1]) * 10 + (last as int - '0' as int)
  }

  /** Length of the leading run of digits. */
  function DigitRun(s: Text): (n: nat)
    ensures n <= |s|
    ensures forall i :: 0 <= i < n ==> IsDigit(s[i])
    ensures n < |s| ==> !IsDigit(s[n])
  {
    if s == [] || !IsDigit(s[0]) then 0 else 1 + DigitRun(s[1..])
  }

  datatype Scan = NoMatch | OutOfRange | Match(value: int, used: nat)

  /** Reads the longest leading integer; a minus sign is allowed, a plus is not. */
  function FromChars(s: Text, lo: int, hi: int): Scan {
    var sign := if s != [] && s[0] == '-' then 1 else 0;
    var body := s[sign..];
    var n := DigitRun(body);
    if n == 0 then NoMatch
    else
      var magnitude := ValueOf(body[..n]);
      var value := if sign == 1 then -magnitude else magnitude;
      if lo <= value <= hi then Match(value, n + sign) else OutOfRange
  }

  /** The whole text must be one 64-bit integer. */
  function ParseInt(s: Text): Option<int> {
    match FromChars(s, INT64_MIN, INT64_MAX)
    case Match(value, used) => if used == |s| then Some(value) else None
    case _ => None
  }

  /** Conversion of a 64-bit to a 32-bit integer keeps the low 32 bits. */
  function Wrap32(v: int): (w: int)
    ensures INT32_MIN <= w <= INT32_MAX
    ensures INT32_MIN <= v <= INT32_MAX ==> w == v
    ensures (v - w) % 0x1_0000_0000 == 0
  {
    (v + 0x8000_0000) % 0x1_0000_0000 - 0x8000_0000
  }

  lemma {:induction false} DigitsRead(n: nat)
    ensures |Digits(n)| > 0 && forall i :: 0 <= i < |Digits(n)| ==> IsDigit(Digits(n)[i])
    ensures ValueOf(Digits(n)) == n
  {
    if n < 10 {
      assert [Digit(n)][..0] == [];
      assert ValueOf([Digit(n)]) == ValueOf([]) * 10 + n;
    } else {
      DigitsRead(n / 10);
      var ds := Digits(n);
      assert ds[..|ds| - 1] == Digits(n / 10);
    }
  }

  lemma AllDigits(s: Text)
    requires forall i :: 0 <= i < |s| ==> IsDigit(s[i])
    ensures DigitRun(s) == |s|
  {}

  /** Printing and reading back is the identity on 64-bit integers. */
  lemma IntRoundTrip(v: int)
    requires INT64_MIN <= v <= INT64_MAX
    ensures ParseInt(ToString(v)) == Some(v)
  {
    var ds := Digits(if v < 0 then -v else v);
    DigitsRead(if v < 0 then -v else v);
    AllDigits(ds);
    assert ds[..|ds|] == ds;
    if v < 0 {
      assert ToString(v)[1..] == ds;
    } else {
      assert ToString(v)[0..] == ds;
    }
  }

  /** Printed integers consist of digits and the minus sign. */
  lemma IntAlphabet(v: int)
    ensures |ToString(v)| > 0 && forall i :: 0 <= i < |ToString(v)| ==> IsDigit(ToString(v)[i]) || ToString(v)[i] == '-'
  {
    DigitsRead(if v < 0 then -v else v);
  }

  ghost predicate AllDigitsIn(s: Text) { s != [] && forall i :: 0 <= i < |s| ==> IsDigit(s[i]) }

  lemma RunIsWhole(s: Text)
    ensures DigitRun(s) == |s| > 0 <==> AllDigitsIn(s)
    ensures s[..|s|] == s
  {
    if AllDigitsIn(s) { AllDigits(s); }
  }

  lemma ParseUnsignedIff(s: Text, v: int)
    requires s == [] || s[0] != '-'
    ensures ParseInt(s) == Some(v) <==> AllDigitsIn(s) && v == ValueOf(s) && v <= INT64_MAX
  {
    assert s[0..] == s;
    RunIsWhole(s);
  }

  lemma ParseSignedIff(s: Text, v: int)
    requires s != [] && s[0] == '-'
    ensures ParseInt(s) == Some(v) <==> AllDigitsIn(s[1..]) && v == -ValueOf(s[1..]) && v >= INT64_MIN
  {
    RunIsWhole(s[1..]);
  }

  /** Exactly the texts of digits, with at most one leading minus sign and in the
      64-bit range, are read; anything before, after or between is refused. */
  lemma ParseIntIff(s: Text, v: int)
    ensures ParseInt(s) == Some(v) <==>
            if s != [] && s[0] == '-' then AllDigitsIn(s[1..]) && v == -ValueOf(s[1..]) && v >= -0x8000_0000_0000_0000
            else AllDigitsIn(s) && v == ValueOf(s) && v <= 0x7fff_ffff_ffff_ffff
  {
    if s != [] && s[0] == '-' { ParseSignedIff(s, v); } else { ParseUnsignedIff(s, v); }
  }

  // -------------------------------------------------------- place values --

  function Pow10(n: nat): nat { if n == 0 then 1 else 10 * Pow10(n - 1) }

  /** A digit is worth its place among the ten digits. */
  lemma DigitValue(v: nat)
    requires v < 10
    ensures IsDigit("0123456789"[v]) && ValueOf(["0123456789"[v]]) == v
  {
    assert ["0123456789"[v]][..0] == [];
  }

  /** Digits to the left count for a power of ten more per digit to their right. */
  lemma {:induction false} PlaceValue(a: Text, b: Text)
    requires forall i :: 0 <= i < |a| ==> IsDigit(a[i])
    requires forall i :: 0 <= i < |b| ==> IsDigit(b[i])
    ensures ValueOf(a + b) == ValueOf(a) * Pow10(|b|) + ValueOf(b)
    decreases |b|
  {
    if b == [] {
      assert a + b == a;
    } else {
      var n := |b| - 1;
      assert (a + b)[..|a + b| - 1] == a + b[..n] && (a + b)[|a + b| - 1] == b[n];
      PlaceValue(a, b[..n]);
      TenTimes(ValueOf(a), Pow10(n), ValueOf(b[..n]));
    }
  }

  lemma TenTimes(x: int, p: int, y: int)
    ensures (x * p + y) * 10 == x * (10 * p) + y * 10
  {}

  /** What a leading unsigned number of a text is read as. */
  lemma FromCharsIff(s: Text, lo: int, hi: int, v: int, used: nat)
    requires s == [] || s[0] != '-'
    ensures FromChars(s, lo, hi) == Match(v, used) <==>
            && 0 < used <= |s| && (forall i :: 0 <= i < used ==> IsDigit(s[i]))
            && (used == |s| || !IsDigit(s[used])) && v == ValueOf(s[..used]) && lo <= v <= hi
  {
    assert s[0..] == s;
  }
}
