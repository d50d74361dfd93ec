/** Percent-encoding (sections 2.1 and 2.3 of RFC 3986) and the decoder for query
    strings, which also reads '+' as a space (section 5 of the WHATWG URL
    Standard). */
module UrlCodec {
  import opened Bytes

  predicate IsUnreserved(c: Byte) {
    'A' <= c <= 'Z' || 'a' <= c <= 'z' || '0' <= c <= '9' || c == '-' || c == '_' || c == '.' || c == '~'
  }

  function HexDigit(v: nat): Byte
    requires v < 16
  {
    if v < 10 then ('0' as int + v) as char else ('A' as int + v - 10) as char
  }

  /** The value of a hexadecimal digit of either case, or -1. */
  function HexValue(c: Byte): (v: int)
    ensures -1 <= v < 16
  {
    if '0' <= c <= '9' then c as int - '0' as int
    else if 'a' <= c <= 'f' then c as int - 'a' as int + 10
    else if 'A' <= c <= 'F' then c as int - 'A' as int + 10
    else -1
  }

  function EncodeByte(c: Byte): Text {
    if IsUnreserved(c) then [c]
    else ['%', HexDigit(c as int / 16 % 16), HexDigit(c as int % 16)]
  }

  function Encoded(s: Text): Text {
    if s == [] then [] else EncodeByte(s[0]) + Encoded(s[1..])
  }

  /** Does the text start with a complete escape? */
  predicate StartsWithEscape(s: Text) {
    |s| > 2 && s[0] == '%' && HexValue(s[1]) >= 0 && HexValue(s[2]) >= 0
  }

  function Decoded(s: Text): Text {
    if s == [] then []
    else if s[0] == '+' then [' '] + Decoded(s[1..])
    else if StartsWithEscape(s) then
      [(HexValue(s[1]) * 16 + HexValue(s[2])) as char] + Decoded(s[3..])
    else [s[0]] + Decoded(s[1..])
  }

  method UrlEncode(input: Text) returns (out: Text)
    ensures out == Encoded(input)
  {
    out := [];
    for i := 0 to |input|
      invariant out + Encoded(input[i..]) == Encoded(input)
    {
      var c := input[i];
      ghost var before := out;
      assert input[i..][1..] == input[i + 1..];
      if IsUnreserved(c) {
        out := out + [c];
      } else {
        out := out + ['%'];
        out := out + [HexDigit(c as int / 16 % 16)];
        out := out + [HexDigit(c as int % 16)];
      }
      assert out == before + EncodeByte(c);
      Assoc(before, EncodeByte(c), Encoded(input[i + 1..]));
    }
  }

  method UrlDecode(input: Text) returns (out: Text)
    ensures out == Decoded(input)
  {
    out := [];
    var i := 0;
    while i < |input|
      invariant 0 <= i <= |input|
      invariant out + Decoded(input[i..]) == Decoded(input)
    {
      ghost var rest, before := input[i..], out;
      assert rest[1..] == input[i + 1..];
      if input[i] == '+' {
        out := out + [' '];
      } else if input[i] == '%' && i + 2 < |input| {
        var hi, lo := HexValue(input[i + 1]), HexValue(input[i + 2]);
        if hi >= 0 && lo >= 0 {
          assert rest[3..] == input[i + 3..];
          out := out + [(hi * 16 + lo) as char];
          i := i + 2;
        } else {
          out := out + [input[i]];
        }
      } else {
        out := out + [input[i]];
      }
      i := i + 1;
      Assoc(before, out[|before|..], Decoded(input[i..]));
    }
  }

  lemma HexRoundTrip(v: nat)
    requires v < 16
    ensures HexValue(HexDigit(v)) == v
  {}

  lemma DecodeByte(c: Byte, rest: Text)
    requires c as int < 256
    ensures Decoded(EncodeByte(c) + rest) == [c] + Decoded(rest)
  {
    var s := EncodeByte(c) + rest;
    if IsUnreserved(c) {
      assert s[1..] == rest;
    } else {
      HexRoundTrip(c as int / 16 % 16);
      HexRoundTrip(c as int % 16);
      assert s[0] == '%' && s[3..] == rest;
      assert StartsWithEscape(s);
    }
  }

  /** Decoding undoes encoding, for every byte string and whatever follows it. */
  lemma {:induction false} DecodeAfterEncode(s: Text, rest: Text)
    requires IsBytes(s)
    ensures Decoded(Encoded(s) + rest) == s + Decoded(rest)
  {
    if s == [] {
      assert Encoded(s) + rest == rest;
    } else {
      Assoc(EncodeByte(s[0]), Encoded(s[1..]), rest);
      DecodeByte(s[0], Encoded(s[1..]) + rest);
      DecodeAfterEncode(s[1..], rest);
      Assoc([s[0]], s[1..], Decoded(rest));
      assert [s[0]] + s[1..] == s;
    }
  }

  lemma {:induction false} RoundTrip(s: Text)
    requires IsBytes(s)
    ensures Decoded(Encoded(s)) == s
  {
    DecodeAfterEncode(s, []);
    assert Encoded(s) + [] == Encoded(s);
  }

  /** The output alphabet is the unreserved characters and '%'. */
  lemma {:induction false} EncodedAlphabet(s: Text)
    ensures forall i :: 0 <= i < |Encoded(s)| ==> IsUnreserved(Encoded(s)[i]) || Encoded(s)[i] == '%'
  {
    if s != [] {
      EncodedAlphabet(s[1..]);
    }
  }

  /** Unreserved text is left alone. */
  lemma {:induction false} UnreservedIsFixed(s: Text)
    requires forall i :: 0 <= i < |s| ==> IsUnreserved(s[i])
    ensures Encoded(s) == s
  {
    if s != [] {
      UnreservedIsFixed(s[1..]);
    }
  }

  /** And only unreserved text is. */
  lemma {:induction false} FixedIsUnreserved(s: Text)
    requires Encoded(s) == s
    ensures forall i :: 0 <= i < |s| ==> IsUnreserved(s[i])
  {
    if s != [] {
      EncodedLength(s[1..]);
      FixedIsUnreserved(s[1..]);
    }
  }

  lemma {:induction false} EncodedLength(s: Text)
    ensures |Encoded(s)| >= |s|
  {
    if s != [] {
      EncodedLength(s[1..]);
    }
  }

  lemma {:induction false} DecodedLength(s: Text)
    ensures |Decoded(s)| <= |s|
    decreases |s|
  {
    if s != [] {
      DecodedLength(s[1..]);
      if StartsWithEscape(s) { DecodedLength(s[3..]); }
    }
  }

  /** Nothing in the text asks to be decoded. */
  ghost predicate Inert(s: Text) {
    forall i :: 0 <= i < |s| ==> s[i] != '+' && !StartsWithEscape(s[i..])
  }

  /** Decoding leaves a text alone if and only if it has no plus sign and no complete
      escape; broken escapes stay as they are. */
  lemma {:induction false} DecodedIsIdentityIff(s: Text)
    ensures Decoded(s) == s <==> Inert(s)
    decreases |s|
  {
    if s != [] {
      assert s[0..] == s;
      if StartsWithEscape(s) && s[0] != '+' {
        DecodedLength(s[3..]);
      } else {
        DecodedIsIdentityIff(s[1..]);
        InertTail(s);
        assert s == [s[0]] + s[1..];
        if s[0] != '+' && Decoded(s) == s { assert Decoded(s[1..]) == Decoded(s)[1..]; }
      }
    }
  }

  lemma InertTail(s: Text)
    requires s != []
    ensures Inert(s) <==> s[0] != '+' && !StartsWithEscape(s) && Inert(s[1..])
  {
    assert s[0..] == s;
    if Inert(s[1..]) && s[0] != '+' && !StartsWithEscape(s) {
      forall i | 0 <= i < |s| ensures s[i] != '+' && !StartsWithEscape(s[i..]) {
        if i > 0 {
          assert s[1..][i - 1] == s[i] && s[1..][i - 1..] == s[i..];
        }
      }
    }
    if Inert(s) {
      forall i | 0 <= i < |s[1..]| ensures s[1..][i] != '+' && !StartsWithEscape(s[1..][i..]) {
        assert s[1..][i] == s[i + 1] && s[1..][i..] == s[i + 1..];
      }
    }
  }

  // ------------------------------------------------- what other writers send --

  const LOWER_HEX := "0123456789abcdef"
  const UPPER_HEX := "0123456789ABCDEF"

  /** The value of a digit is its place among the digits of its case. */
  lemma HexValueAt(c: Byte, v: nat)
    requires v < 16 && (c == LOWER_HEX[v] || c == UPPER_HEX[v])
    ensures HexValue(c) == v
  {}

  predicate IsHex(c: Byte) { c in LOWER_HEX || c in UPPER_HEX }

  lemma HexValueIff(c: Byte)
    ensures HexValue(c) >= 0 <==> IsHex(c)
  {
    if '0' <= c <= '9' {
      assert LOWER_HEX[c as int - '0' as int] == c;
    } else if 'a' <= c <= 'f' {
      assert LOWER_HEX[c as int - 'a' as int + 10] == c;
    } else if 'A' <= c <= 'F' {
      assert UPPER_HEX[c as int - 'A' as int + 10] == c;
    }
  }

  /** How a writer may put a byte into a query: as it is, as a plus sign, or as an
      escape with digits of either case. */
  datatype Spelling = AsIs | Plus | Escape(lowerHigh: bool, lowerLow: bool)

  /** Plus and percent signs must be escaped; only a space may become a plus. */
  predicate MayWrite(c: Byte, how: Spelling) {
    match how
    case AsIs => c != '+' && c != '%'
    case Plus => c == ' '
    case Escape(_, _) => c as int < 256
  }

  function HexOf(v: nat, lower: bool): Byte
    requires v < 16
  {
    if lower then LOWER_HEX[v] else UPPER_HEX[v]
  }

  function Spelled(c: Byte, how: Spelling): Text
    requires MayWrite(c, how)
  {
    match how
    case AsIs => [c]
    case Plus => "+"
    case Escape(high, low) => ['%', HexOf(c as int / 16, high), HexOf(c as int % 16, low)]
  }

  ghost predicate MayWriteAll(s: Text, hows: seq<Spelling>) {
    |hows| == |s| && forall i :: 0 <= i < |s| ==> MayWrite(s[i], hows[i])
  }

  function SpelledOut(s: Text, hows: seq<Spelling>): Text
    requires MayWriteAll(s, hows)
  {
    if s == [] then [] else Spelled(s[0], hows[0]) + SpelledOut(s[1..], hows[1..])
  }

  lemma SpellingDecodes(c: Byte, how: Spelling, rest: Text)
    requires MayWrite(c, how)
    ensures Decoded(Spelled(c, how) + rest) == [c] + Decoded(rest)
  {
    var s := Spelled(c, how) + rest;
    if how.Escape? {
      HexValueAt(s[1], c as int / 16);
      HexValueAt(s[2], c as int % 16);
      assert s[0] == '%' && s[3..] == rest && StartsWithEscape(s);
      assert c as int / 16 * 16 + c as int % 16 == c as int;
    } else {
      assert s[1..] == rest;
    }
  }

  /** However each byte of a text was written, the decoder reads the text back. */
  lemma {:induction false} AnySpellingDecodes(s: Text, hows: seq<Spelling>)
    requires MayWriteAll(s, hows)
    ensures Decoded(SpelledOut(s, hows)) == s
  {
    if s != [] {
      SpellingDecodes(s[0], hows[0], SpelledOut(s[1..], hows[1..]));
      AnySpellingDecodes(s[1..], hows[1..]);
    }
  }

  /** A percent sign without two hexadecimal digits after it stands for itself. */
  lemma BrokenEscapeStays(s: Text)
    requires s != [] && s[0] == '%'
    requires |s| < 3 || !IsHex(s[1]) || !IsHex(s[2])
    ensures Decoded(s) == ['%'] + Decoded(s[1..])
  {
    if |s| >= 3 {
      HexValueIff(s[1]);
      HexValueIff(s[2]);
    }
  }

  /** The encoder's own choice: as it is where that is unreserved, and otherwise an
      escape in upper case. */
  lemma {:induction false} EncodedIsUpper(s: Text, hows: seq<Spelling>)
    requires MayWriteAll(s, hows)
    requires forall i :: 0 <= i < |s| ==> hows[i] == if IsUnreserved(s[i]) then AsIs else Escape(false, false)
    ensures Encoded(s) == SpelledOut(s, hows)
  {
    if s != [] {
      EncodedIsUpper(s[1..], hows[1..]);
      ByteIsUpper(s[0], hows[0]);
    }
  }

  lemma ByteIsUpper(c: Byte, how: Spelling)
    requires how == (if IsUnreserved(c) then AsIs else Escape(false, false)) && MayWrite(c, how)
    ensures EncodeByte(c) == Spelled(c, how)
  {
    if !IsUnreserved(c) {
      HexDigitAt(c as int / 16);
      HexDigitAt(c as int % 16);
    }
  }

  lemma HexDigitAt(v: nat)
    requires v < 16
    ensures HexDigit(v) == UPPER_HEX[v]
  {}

  /** A run of consecutive characters. */
  lemma RunOf(run: Text, first: Byte, c: Byte)
    requires forall i :: 0 <= i < |run| ==> run[i] as int == first as int + i
    ensures c in run <==> first as int <= c as int < first as int + |run|
  {
    if first as int <= c as int < first as int + |run| {
      assert run[c as int - first as int] == c;
    }
  }

  const UPPER := "ABCDEFGHIJKLMNOPQRSTUVWXYZ"
  const LOWER := "abcdefghijklmnopqrstuvwxyz"
  const DIGITS := "0123456789"

  lemma UpperAt(i: nat)
    requires i < 26
    ensures UPPER[i] as int == 'A' as int + i
  {}

  lemma LowerAt(i: nat)
    requires i < 26
    ensures LOWER[i] as int == 'a' as int + i
  {}

  /** The unreserved characters are the letters, the digits and four marks. */
  lemma UnreservedIff(c: Byte)
    ensures IsUnreserved(c) <==> c in UPPER || c in LOWER || c in DIGITS || c in "-_.~"
  {
    forall i: nat | i < 26 ensures UPPER[i] as int == 'A' as int + i { UpperAt(i); }
    forall i: nat | i < 26 ensures LOWER[i] as int == 'a' as int + i { LowerAt(i); }
    forall i: nat | i < 10 ensures DIGITS[i] as int == '0' as int + i {}
    RunOf(UPPER, 'A', c);
    RunOf(LOWER, 'a', c);
    RunOf(DIGITS, '0', c);
  }
}
