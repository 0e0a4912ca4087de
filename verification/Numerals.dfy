/** Decimal and lower-case hexadecimal numerals as strings: printers, parsers, and their round trips. */
module Numerals {
  type Byte = b: nat | b < 256

  predicate IsDigit(c: char) {
    '0' <= c <= '9'
  }

  function DigitChar(d: nat): char
    requires d < 10
  {
    ('0' as int + d) as char
  }

  function DigitValue(c: char): nat
    requires IsDigit(c)
  {
    c as int - '0' as int
  }

  predicate AllDigits(s: string) {
    forall c <- s :: IsDigit(c)
  }

  /** A natural number as JavaScript prints it. */
  function Decimal(n: nat): string {
    if n < 10 then [DigitChar(n)] else Decimal(n / 10) + [DigitChar(n % 10)]
  }

  /** The number a run of digits denotes; leading zeros are allowed. */
  function ParseDecimal(s: string): nat
    requires AllDigits(s)
  {
    if s == "" then 0 else ParseDecimal(s[..|s| - 1]) * 10 + DigitValue(s[|s| - 1])
  }

  predicate Canonical(s: string) {
    s != "" && AllDigits(s) && (s[0] == '0' ==> |s| == 1)
  }

  lemma {:induction false} DecimalRoundTrip(n: nat)
    ensures Canonical(Decimal(n)) && ParseDecimal(Decimal(n)) == n
  {
    if n >= 10 {
      DecimalRoundTrip(n / 10);
      assert Decimal(n)[..|Decimal(n)| - 1] == Decimal(n / 10);
    }
  }

  lemma {:induction false} CanonicalIsPrinted(s: string)
    requires Canonical(s)
    ensures Decimal(ParseDecimal(s)) == s
    decreases |s|
  {
    var front, last := s[..|s| - 1], s[|s| - 1];
    assert s == front + [last];
    assert IsDigit(last);
    if front == "" {
      PrintedDigit(last);
    } else {
      FrontCanonical(s);
      CanonicalIsPrinted(front);
      PositiveValue(front);
      PrintedStep(ParseDecimal(front), last);
    }
  }

  lemma {:induction false} LeadingZero(s: string)
    requires AllDigits(s)
    ensures AllDigits("0" + s) && ParseDecimal("0" + s) == ParseDecimal(s)
    decreases |s|
  {
    if s != "" {
      var front, last := s[..|s| - 1], s[|s| - 1];
      assert forall c <- front :: c in s;
      LeadingZero(front);
      assert ("0" + s)[..|s|] == "0" + front && ("0" + s)[|s|] == last;
      assert IsDigit(last);
    }
  }

  lemma FrontCanonical(s: string)
    requires Canonical(s) && |s| > 1
    ensures Canonical(s[..|s| - 1]) && s[0] != '0'
  {
    assert forall i :: 0 <= i < |s| ==> s[i] in s;
  }

  lemma PrintedDigit(c: char)
    requires IsDigit(c)
    ensures Decimal(DigitValue(c)) == [c]
  {
  }

  lemma PrintedStep(v: nat, c: char)
    requires v > 0 && IsDigit(c)
    ensures Decimal(v * 10 + DigitValue(c)) == Decimal(v) + [c]
  {
    var n := v * 10 + DigitValue(c);
    assert n / 10 == v && n % 10 == DigitValue(c);
  }

  lemma {:induction false} PositiveValue(s: string)
    requires s != "" && AllDigits(s) && s[0] != '0'
    ensures ParseDecimal(s) > 0
    decreases |s|
  {
    if |s| > 1 {
      assert forall c <- s[..|s| - 1] :: c in s;
      PositiveValue(s[..|s| - 1]);
    }
  }

  // ---------------------------------------------------------------- hexadecimal

  predicate IsHex(c: char) {
    '0' <= c <= '9' || 'a' <= c <= 'f'
  }

  function HexChar(d: nat): char
    requires d < 16
  {
    if d < 10 then ('0' as int + d) as char else ('a' as int + (d - 10)) as char
  }

  function HexValue(c: char): (d: nat)
    requires IsHex(c)
    ensures d < 16 && HexChar(d) == c
  {
    if c <= '9' then c as int - '0' as int else c as int - 'a' as int + 10
  }

  predicate AllHex(s: string) {
    forall c <- s :: IsHex(c)
  }

  function HexOf(bytes: seq<Byte>): string {
    if bytes == [] then "" else [HexChar(bytes[0] / 16), HexChar(bytes[0] % 16)] + HexOf(bytes[1..])
  }

  /** `Buffer.from(hex, 'hex')` on hex digits: pairs become bytes, an odd last digit is dropped. */
  function BytesOf(hex: string): seq<Byte>
    requires AllHex(hex)
  {
    if |hex| < 2 then [] else [HexValue(hex[0]) * 16 + HexValue(hex[1])] + BytesOf(hex[2..])
  }

  lemma {:induction false} HexRoundTrip(bytes: seq<Byte>)
    ensures AllHex(HexOf(bytes)) && |HexOf(bytes)| == 2 * |bytes| && BytesOf(HexOf(bytes)) == bytes
    decreases |bytes|
  {
    if bytes != [] {
      HexRoundTrip(bytes[1..]);
      HexDigits(bytes[0]);
      FirstPair(HexChar(bytes[0] / 16), HexChar(bytes[0] % 16), HexOf(bytes[1..]));
    }
  }

  lemma HexDigits(b: Byte)
    ensures var high, low := HexChar(b / 16), HexChar(b % 16);
            IsHex(high) && IsHex(low) && HexValue(high) * 16 + HexValue(low) == b
  {
  }

  lemma FirstPair(high: char, low: char, rest: string)
    requires IsHex(high) && IsHex(low) && AllHex(rest)
    ensures AllHex([high, low] + rest)
    ensures BytesOf([high, low] + rest) == [HexValue(high) * 16 + HexValue(low)] + BytesOf(rest)
  {
    assert ([high, low] + rest)[2..] == rest;
  }

  /** Decoding loses exactly an odd last digit. */
  lemma {:induction false} HexDecoded(hex: string)
    requires AllHex(hex)
    ensures |BytesOf(hex)| == |hex| / 2
    ensures HexOf(BytesOf(hex)) == hex[..2 * (|hex| / 2)]
    decreases |hex|
  {
    if |hex| >= 2 {
      HexDecoded(hex[2..]);
      assert HexOf(BytesOf(hex)) == [hex[0], hex[1]] + HexOf(BytesOf(hex[2..]));
    }
  }
}
