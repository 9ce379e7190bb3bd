/** Hexadecimal text and the conversions of go-ethereum's `common` package that use it. */
module Hex {
  import opened Types

  const DIGITS := "0123456789abcdef"

  function Digit(v: int): char
    requires 0 <= v < 16
  {
    DIGITS[v]
  }

  /** The value of a hexadecimal digit of either case, -1 for any other character. */
  function DigitValue(c: char): (v: int)
    ensures -1 <= v < 16
  {
    if '0' <= c <= '9' then c as int - '0' as int
    else if 'a' <= c <= 'f' then c as int - 'a' as int + 10
    else if 'A' <= c <= 'F' then c as int - 'A' as int + 10
    else -1
  }

  lemma DigitRoundTrip(v: int)
    requires 0 <= v < 16
    ensures DigitValue(Digit(v)) == v
  {
    assert DIGITS[0] == '0' && DIGITS[1] == '1' && DIGITS[2] == '2' && DIGITS[3] == '3';
    assert DIGITS[4] == '4' && DIGITS[5] == '5' && DIGITS[6] == '6' && DIGITS[7] == '7';
    assert DIGITS[8] == '8' && DIGITS[9] == '9' && DIGITS[10] == 'a' && DIGITS[11] == 'b';
    assert DIGITS[12] == 'c' && DIGITS[13] == 'd' && DIGITS[14] == 'e' && DIGITS[15] == 'f';
  }

  /** `hex.EncodeToString` */
  function Encode(b: Bytes): (s: string)
    ensures |s| == 2 * |b|
  {
    if b == [] then "" else [Digit(b[0] / 16), Digit(b[0] % 16)] + Encode(b[1..])
  }

  /** The bytes `hex.DecodeString` has produced when it stops, at the end or at the first fault. */
  function DecodePrefix(s: string): Bytes {
    if |s| < 2 || DigitValue(s[0]) < 0 || DigitValue(s[1]) < 0 then []
    else [16 * DigitValue(s[0]) + DigitValue(s[1])] + DecodePrefix(s[2..])
  }

  predicate IsHex(s: string) {
    |s| % 2 == 0 && forall i :: 0 <= i < |s| ==> DigitValue(s[i]) >= 0
  }

  /** `hex.DecodeString`, with its error as `None` */
  function Decode(s: string): Option<Bytes> {
    if IsHex(s) then Some(DecodePrefix(s)) else None
  }

  lemma IsHexExtend(c: char, d: char, s: string)
    requires IsHex(s) && DigitValue(c) >= 0 && DigitValue(d) >= 0
    ensures IsHex([c, d] + s)
  {
    var t := [c, d] + s;
    forall i | 0 <= i < |t| ensures DigitValue(t[i]) >= 0 {
      assert t[i] == if i == 0 then c else if i == 1 then d else s[i - 2];
    }
  }

  lemma OneByte(c: char, d: char, s: string)
    requires DigitValue(c) >= 0 && DigitValue(d) >= 0
    ensures DecodePrefix([c, d] + s) == [16 * DigitValue(c) + DigitValue(d)] + DecodePrefix(s)
  {
    assert ([c, d] + s)[2..] == s;
  }

  lemma FirstByte(x: byte, s: string)
    ensures DecodePrefix([Digit(x / 16), Digit(x % 16)] + s) == [x] + DecodePrefix(s)
  {
    DigitRoundTrip(x / 16);
    DigitRoundTrip(x % 16);
    OneByte(Digit(x / 16), Digit(x % 16), s);
  }

  lemma FirstDigits(x: byte, s: string)
    requires IsHex(s)
    ensures IsHex([Digit(x / 16), Digit(x % 16)] + s)
  {
    DigitRoundTrip(x / 16);
    DigitRoundTrip(x % 16);
    IsHexExtend(Digit(x / 16), Digit(x % 16), s);
  }

  /** Decoding undoes encoding, for every byte string. */
  lemma {:induction false} DecodeEncode(b: Bytes)
    ensures IsHex(Encode(b))
    ensures DecodePrefix(Encode(b)) == b
    ensures Decode(Encode(b)) == Some(b)
  {
    if b != [] {
      DecodeEncode(b[1..]);
      FirstDigits(b[0], Encode(b[1..]));
      FirstByte(b[0], Encode(b[1..]));
      assert b == [b[0]] + b[1..];
    }
  }

  lemma EncodeInjective(a: Bytes, b: Bytes)
    requires Encode(a) == Encode(b)
    ensures a == b
  {
    DecodeEncode(a);
    DecodeEncode(b);
  }

  predicate Has0xPrefix(s: string) {
    |s| >= 2 && s[0] == '0' && (s[1] == 'x' || s[1] == 'X')
  }

  /** `common.FromHex`: an optional 0x, a zero in front of an odd number of digits, no error. */
  function FromHex(s: string): Bytes {
    var body := if Has0xPrefix(s) then s[2..] else s;
    DecodePrefix(if |body| % 2 == 1 then "0" + body else body)
  }

  /** Keep the last `n` bytes, or put zeros in front: `SetBytes` of a hash or an address. */
  function Fit(b: Bytes, n: nat): (r: Bytes)
    ensures |r| == n
    ensures |b| == n ==> r == b
    ensures forall i :: 0 <= i < n ==> r[i] == if i + |b| < n then 0 else b[i + |b| - n]
  {
    if |b| >= n then b[|b| - n..] else seq(n - |b|, _ => 0) + b
  }

  function BytesToHash(b: Bytes): (h: Hash)
    ensures |b| == 32 ==> h == b
  {
    Fit(b, 32)
  }

  function HexToHash(s: string): Hash {
    BytesToHash(FromHex(s))
  }

  function HexToAddress(s: string): Bytes {
    Fit(FromHex(s), 20)
  }

  /** `strings.TrimPrefix` */
  function TrimPrefix(s: string, prefix: string): string {
    if prefix <= s then s[|prefix|..] else s
  }

  /** Encoded bytes never start with 0x, so nothing that strips that prefix changes them. */
  lemma EncodedHasNoPrefix(b: Bytes)
    ensures !Has0xPrefix(Encode(b))
    ensures TrimPrefix(Encode(b), "0x") == Encode(b)
    ensures FromHex(Encode(b)) == b
  {
    DecodeEncode(b);
    if |b| > 0 {
      assert DigitValue(Encode(b)[1]) >= 0;
    }
  }

  /** A hash written as hexadecimal text, with or without 0x, parses back to itself. */
  lemma HashRoundTrip(h: Hash)
    ensures HexToHash(Encode(h)) == h
    ensures HexToHash("0x" + Encode(h)) == h
  {
    EncodedHasNoPrefix(h);
    DecodeEncode(h);
    assert ("0x" + Encode(h))[2..] == Encode(h);
  }

  // ---------------------------------------------------------------- character by character

  /** The digits are written in lower case. */
  lemma DigitIs(v: int)
    requires 0 <= v < 16
    ensures Digit(v) as int == if v < 10 then '0' as int + v else 'a' as int + v - 10
  {
    DigitRoundTrip(v);
    assert DIGITS[0] == '0' && DIGITS[1] == '1' && DIGITS[2] == '2' && DIGITS[3] == '3';
    assert DIGITS[4] == '4' && DIGITS[5] == '5' && DIGITS[6] == '6' && DIGITS[7] == '7';
    assert DIGITS[8] == '8' && DIGITS[9] == '9' && DIGITS[10] == 'a' && DIGITS[11] == 'b';
    assert DIGITS[12] == 'c' && DIGITS[13] == 'd' && DIGITS[14] == 'e' && DIGITS[15] == 'f';
  }

  /** They are read in either case, and nothing else is a digit. */
  lemma DigitReads(c: char, v: int)
    requires 0 <= v < 16
    ensures DigitValue(c) == v <==>
            || (v < 10 && c as int == '0' as int + v)
            || (v >= 10 && c as int == 'a' as int + v - 10)
            || (v >= 10 && c as int == 'A' as int + v - 10)
  {
  }

  /** Byte `k` becomes the two digits at `2 * k`, the high half first. */
  lemma {:induction false} EncodeAt(b: Bytes, k: nat)
    requires k < |b|
    ensures Encode(b)[2 * k] == Digit(b[k] / 16) && Encode(b)[2 * k + 1] == Digit(b[k] % 16)
  {
    if k > 0 {
      EncodeAt(b[1..], k - 1);
    }
  }

  lemma {:induction false} DecodePrefixAt(s: string, k: nat)
    requires IsHex(s) && 2 * k < |s|
    ensures |DecodePrefix(s)| == |s| / 2
    ensures DecodePrefix(s)[k] == 16 * DigitValue(s[2 * k]) + DigitValue(s[2 * k + 1])
    decreases |s|
  {
    if |s| > 2 {
      DecodePrefixAt(s[2..], if k > 0 then k - 1 else 0);
    }
  }

  /** Decoding wants an even number of digits, and reads each two as one byte. */
  lemma DecodeAt(s: string, k: nat)
    requires 2 * k + 1 < |s| && Decode(s).Some?
    ensures |Decode(s).value| == |s| / 2
    ensures Decode(s).value[k] == 16 * DigitValue(s[2 * k]) + DigitValue(s[2 * k + 1])
  {
    DecodePrefixAt(s, k);
  }

  lemma DecodeFailsIff(s: string)
    ensures Decode(s).None? <==> |s| % 2 == 1 || exists i :: 0 <= i < |s| && DigitValue(s[i]) < 0
  {
  }

  lemma EncodeStep(b: Bytes, rest: string)
    requires b != []
    ensures Encode(b) + rest == [Digit(b[0] / 16), Digit(b[0] % 16)] + (Encode(b[1..]) + rest)
  {
  }

  /** No byte can be read off the text. */
  predicate IsFault(rest: string) {
    |rest| < 2 || DigitValue(rest[0]) < 0 || DigitValue(rest[1]) < 0
  }

  lemma FaultAtOnce(rest: string)
    requires IsFault(rest)
    ensures DecodePrefix(rest) == []
  {
  }

  /** `FromHex` stops without an error at the first fault. */
  lemma {:induction false} StopsAtFault(b: Bytes, rest: string)
    requires IsFault(rest)
    ensures DecodePrefix(Encode(b) + rest) == b
  {
    if b == [] {
      FaultAtOnce(rest);
      assert Encode(b) + rest == rest;
    } else {
      EncodeStep(b, rest);
      FirstByte(b[0], Encode(b[1..]) + rest);
      StopsAtFault(b[1..], rest);
      assert b == [b[0]] + b[1..];
    }
  }

  lemma OddIsPadded(s: string)
    requires !Has0xPrefix(s) && |s| % 2 == 1
    ensures FromHex(s) == DecodePrefix("0" + s)
  {
  }

  /** An odd number of digits is read with a zero in front. */
  lemma FromHexOdd(c: char, b: Bytes)
    requires DigitValue(c) >= 0
    ensures FromHex([c] + Encode(b)) == [DigitValue(c)] + b
  {
    NoPrefixAfter(c, b);
    OddIsPadded([c] + Encode(b));
    PaddedByte(c, b);
  }

  lemma PaddedByte(c: char, b: Bytes)
    requires DigitValue(c) >= 0
    ensures DecodePrefix("0" + ([c] + Encode(b))) == [DigitValue(c)] + b
  {
    assert "0" + ([c] + Encode(b)) == ['0', c] + Encode(b);
    OneByte('0', c, Encode(b));
    DecodeEncode(b);
  }

  lemma NoPrefixAfter(c: char, b: Bytes)
    ensures !Has0xPrefix([c] + Encode(b))
  {
    DecodeEncode(b);
    if b != [] {
      assert DigitValue(Encode(b)[0]) >= 0;
    }
  }

  /** A leading 0x or 0X is left out. */
  lemma FromHexPrefixed(b: Bytes)
    ensures FromHex("0x" + Encode(b)) == b && FromHex("0X" + Encode(b)) == b
  {
    DecodeEncode(b);
    assert ("0x" + Encode(b))[2..] == Encode(b) && ("0X" + Encode(b))[2..] == Encode(b);
  }

  lemma TrimPrefixIs(s: string, prefix: string)
    ensures TrimPrefix(prefix + s, prefix) == s
    ensures !(prefix <= s) ==> TrimPrefix(s, prefix) == s
  {
    assert prefix <= prefix + s;
  }
}
