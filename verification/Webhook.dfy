/**
 `WebhookHmacService`: the signature header as printed by `sign` and read back by `verify`.
 HMAC-SHA256 under the configured secret is an arbitrary function from payloads to 32 bytes; the
 conversion of a digit string to a JavaScript number is an arbitrary function that is exact up to 2^53.
 */
module Webhook {
  import opened Wrappers
  import opened Numerals

  const TIMESTAMP_TOLERANCE_S := 300
  const DIGEST_BYTES := 32
  const EXACT_LIMIT := 0x20_0000_0000_0000

  type Digest = d: seq<Byte> | |d| == DIGEST_BYTES witness seq(DIGEST_BYTES, _ => 0)

  datatype Service = Service(mac: string -> Digest, toNumber: nat -> nat) {

    /** Doubles hold every natural number up to 2^53, and no larger one rounds below it. */
    ghost predicate RoundsLikeDoubles() {
      && (forall v: nat :: v <= EXACT_LIMIT ==> toNumber(v) == v)
      && (forall v: nat :: v > EXACT_LIMIT ==> toNumber(v) >= EXACT_LIMIT)
    }
  }

  function Payload(timestamp: nat, body: string): string {
    Decimal(timestamp) + "." + body
  }

  datatype Headers = Headers(timestamp: string, signature: string)

  function Sign(s: Service, body: string, nowSeconds: nat): Headers {
    Headers(Decimal(nowSeconds), "t=" + Decimal(nowSeconds) + ",v1=" + HexOf(s.mac(Payload(nowSeconds, body))))
  }

  // ---------------------------------------------------------------- the header grammar

  /** The length of the longest run of digits s starts with. */
  function DigitRun(s: string): (n: nat)
    ensures n <= |s| && AllDigits(s[..n]) && (n < |s| ==> !IsDigit(s[n]))
  {
    if s == "" || !IsDigit(s[0]) then 0
    else
      var n := DigitRun(s[1..]);
      assert s[..n + 1] == [s[0]] + s[1..][..n];
      n + 1
  }

  datatype Parts = Parts(digits: string, hex: string)

  /** The regular expression `^t=(\d+),v1=([0-9a-f]+)$` with its two groups. */
  function MatchHeader(header: string): Option<Parts> {
    if !("t=" <= header) then None
    else
      var rest := header[2..];
      var n := DigitRun(rest);
      if n == 0 || !(",v1=" <= rest[n..]) then None
      else
        var hex := rest[n + 4..];
        if hex == "" || !AllHex(hex) then None else Some(Parts(rest[..n], hex))
  }

  /** header is the two groups put into the expression. */
  ghost predicate Spells(header: string, p: Parts) {
    && header == "t=" + p.digits + ",v1=" + p.hex
    && p.digits != "" && AllDigits(p.digits) && p.hex != "" && AllHex(p.hex)
  }

  /** A header has at most one reading, and the matcher finds it. */
  lemma MatchExactly(header: string, p: Parts)
    ensures MatchHeader(header) == Some(p) <==> Spells(header, p)
  {
    if MatchHeader(header) == Some(p) {
      MatchSpells(header);
    }
    if Spells(header, p) {
      SpelledIsMatched(p);
    }
  }

  lemma MatchSpells(header: string)
    requires MatchHeader(header).Some?
    ensures Spells(header, MatchHeader(header).value)
  {
    CutTwice(header, "t=", DigitRun(header[2..]), ",v1=");
  }

  /** s starts with a, and with b again n further characters on. */
  lemma CutTwice(s: string, a: string, n: nat, b: string)
    requires a <= s && n <= |s| - |a| && b <= s[|a|..][n..]
    ensures s == a + s[|a|..][..n] + b + s[|a|..][n + |b|..]
  {
    var rest := s[|a|..];
    assert rest[n..] == b + rest[n + |b|..];
    assert rest == rest[..n] + rest[n..];
    assert s == a + rest;
  }

  lemma SpelledIsMatched(p: Parts)
    requires p.digits != "" && AllDigits(p.digits) && p.hex != "" && AllHex(p.hex)
    ensures MatchHeader("t=" + p.digits + ",v1=" + p.hex) == Some(p)
  {
    var header := "t=" + p.digits + ",v1=" + p.hex;
    var tail := ",v1=" + p.hex;
    var rest := header[2..];
    assert rest == p.digits + tail;
    DigitRunStops(p.digits, tail);
    assert rest[|p.digits|..] == tail;
    assert rest[|p.digits| + 4..] == tail[4..] == p.hex;
  }

  lemma DigitRunStops(digits: string, tail: string)
    requires AllDigits(digits) && tail != "" && !IsDigit(tail[0])
    ensures DigitRun(digits + tail) == |digits| && (digits + tail)[..|digits|] == digits
  {
    var s := digits + tail;
    assert s[|digits|] == tail[0];
    assert forall i :: 0 <= i < |digits| ==> s[i] == digits[i] && digits[i] in digits;
    var n := DigitRun(s);
    assert forall i :: 0 <= i < n ==> s[i] == s[..n][i] && s[..n][i] in s[..n];
  }

  // ---------------------------------------------------------------- verification

  function Distance(a: int, b: int): nat {
    if a >= b then a - b else b - a
  }

  predicate Verify(s: Service, body: string, header: string, nowSeconds: nat) {
    match MatchHeader(header)
    case None => false
    case Some(p) =>
      MatchExactly(header, p);
      var ts := s.toNumber(ParseDecimal(p.digits));
      if Distance(nowSeconds, ts) >= TIMESTAMP_TOLERANCE_S then false
      else
        var expected := BytesOf(HexOfDigest(s.mac(Payload(ts, body))));
        var received := BytesOf(p.hex);
        |expected| == |received| && expected == received
  }

  function HexOfDigest(d: Digest): (hex: string)
    ensures AllHex(hex) && |hex| == 2 * DIGEST_BYTES && BytesOf(hex) == d && hex == HexOf(d)
  {
    HexRoundTrip(d);
    HexOf(d)
  }

  /**
   What is accepted, exactly: a header of the grammar whose timestamp is less than 300 s away and whose
   digest is the 64 hex digits of the recomputed one, with at most one stray hex digit behind it.
   */
  lemma VerifyExactly(s: Service, body: string, header: string, nowSeconds: nat)
    ensures Verify(s, body, header, nowSeconds) <==>
            exists p: Parts :: Spells(header, p) && Accepts(s, body, p, nowSeconds)
  {
    if Verify(s, body, header, nowSeconds) {
      var p := MatchHeader(header).value;
      MatchExactly(header, p);
      var ts := s.toNumber(ParseDecimal(p.digits));
      HexDecoded(p.hex);
      assert p.hex[..64] == HexOf(s.mac(Payload(ts, body)));
      assert Accepts(s, body, p, nowSeconds);
    }
    if p: Parts :| Spells(header, p) && Accepts(s, body, p, nowSeconds) {
      MatchExactly(header, p);
      HexDecoded(p.hex);
      var d := s.mac(Payload(s.toNumber(ParseDecimal(p.digits)), body));
      assert 2 * (|p.hex| / 2) == 64;
      assert HexOf(BytesOf(p.hex)) == HexOf(d);
      HexRoundTrip(d);
      HexRoundTrip(BytesOf(p.hex));
    }
  }

  /** The timestamp is within the tolerance, and the digest is that of timestamp, dot and body. */
  ghost predicate Accepts(s: Service, body: string, p: Parts, nowSeconds: nat)
    requires AllDigits(p.digits)
  {
    var ts := s.toNumber(ParseDecimal(p.digits));
    && -300 < nowSeconds - ts < 300
    && |p.hex| in {64, 65}
    && p.hex[..64] == HexOf(s.mac(Decimal(ts) + "." + body))
  }

  /** A signature verifies for its own body exactly within the tolerance. */
  lemma SignatureRoundTrip(s: Service, body: string, t: nat, nowSeconds: nat)
    requires s.RoundsLikeDoubles() && t < 9007199254740992
    ensures Verify(s, body, Sign(s, body, t).signature, nowSeconds)
            <==> -300 < nowSeconds - t < 300
  {
    var p := SignedParts(s, body, t);
    MatchExactly(Sign(s, body, t).signature, p);
    DecimalRoundTrip(t);
    HexRoundTrip(s.mac(Payload(t, body)));
  }

  /** The one reading of a signed header. */
  lemma SignedParts(s: Service, body: string, t: nat) returns (p: Parts)
    ensures p == Parts(Decimal(t), HexOf(s.mac(Payload(t, body))))
    ensures Spells(Sign(s, body, t).signature, p)
  {
    p := Parts(Decimal(t), HexOf(s.mac(Payload(t, body))));
    DecimalRoundTrip(t);
    HexRoundTrip(s.mac(Payload(t, body)));
    assert |p.hex| == 64;
  }

  /**
   The header `sign` prints is the only one with these parts: the timestamp without leading zeros, and just
   the hex digits of the digest of timestamp, dot and body; and the timestamp header repeats the timestamp.
   */
  lemma SignedExactly(s: Service, body: string, t: nat, header: string)
    ensures (exists p: Parts ::
               && Spells(header, p) && Canonical(p.digits) && ParseDecimal(p.digits) == t
               && |p.hex| == 64 && BytesOf(p.hex) == s.mac(Decimal(t) + "." + body))
            <==> header == Sign(s, body, t).signature
    ensures AllDigits(Sign(s, body, t).timestamp) && ParseDecimal(Sign(s, body, t).timestamp) == t
    ensures Canonical(Sign(s, body, t).timestamp)
  {
    var q := SignedParts(s, body, t);
    DecimalRoundTrip(t);
    HexRoundTrip(s.mac(Payload(t, body)));
    if p: Parts :|
      && Spells(header, p) && Canonical(p.digits) && ParseDecimal(p.digits) == t
      && |p.hex| == 64 && BytesOf(p.hex) == s.mac(Decimal(t) + "." + body)
    {
      CanonicalIsPrinted(p.digits);
      HexDecoded(p.hex);
      assert p.hex == HexOf(BytesOf(p.hex));
      assert p == q;
    }
  }

  /** What a spelled header verifies. */
  lemma VerifyParts(s: Service, body: string, p: Parts, header: string, nowSeconds: nat)
    requires Spells(header, p)
    ensures var ts := s.toNumber(ParseDecimal(p.digits));
            Verify(s, body, header, nowSeconds)
            <==> -300 < nowSeconds - ts < 300 && BytesOf(p.hex) == s.mac(Payload(ts, body))
  {
    MatchExactly(header, p);
  }

  /** A signed header with any hex digit behind it verifies like the signed one. */
  lemma StrayDigitVerifies(s: Service, body: string, t: nat, c: char, nowSeconds: nat)
    requires s.RoundsLikeDoubles() && t < 9007199254740992 && IsHex(c)
    ensures Verify(s, body, Sign(s, body, t).signature + [c], nowSeconds) <==> -300 < nowSeconds - t < 300
  {
    var p := SignedParts(s, body, t);
    DecimalRoundTrip(t);
    StrayDigit(s.mac(Payload(t, body)), c);
    var stray := Parts(p.digits, p.hex + [c]);
    assert Sign(s, body, t).signature + [c] == "t=" + stray.digits + ",v1=" + stray.hex;
    VerifyParts(s, body, stray, Sign(s, body, t).signature + [c], nowSeconds);
  }

  /** So does one with a zero before its timestamp. */
  lemma LeadingZeroVerifies(s: Service, body: string, t: nat, nowSeconds: nat)
    requires s.RoundsLikeDoubles() && t < 9007199254740992
    ensures Verify(s, body, "t=" + ("0" + Decimal(t)) + ",v1=" + HexOf(s.mac(Payload(t, body))), nowSeconds)
            <==> -300 < nowSeconds - t < 300
  {
    var d := s.mac(Payload(t, body));
    DecimalRoundTrip(t);
    LeadingZero(Decimal(t));
    HexRoundTrip(d);
    assert |HexOf(d)| == 64;
    var padded := Parts("0" + Decimal(t), HexOf(d));
    VerifyParts(s, body, padded, "t=" + padded.digits + ",v1=" + padded.hex, nowSeconds);
  }

  lemma StrayDigit(d: Digest, c: char)
    requires IsHex(c)
    ensures AllHex(HexOf(d) + [c]) && BytesOf(HexOf(d) + [c]) == d
  {
    HexRoundTrip(d);
    var hex := HexOf(d) + [c];
    assert AllHex(hex);
    HexDecoded(hex);
    assert HexOf(BytesOf(hex)) == HexOf(d);
    HexRoundTrip(BytesOf(hex));
  }

  lemma PayloadInjective(t: nat, body: string, t': nat, body': string)
    requires Payload(t, body) == Payload(t', body')
    ensures t == t' && body == body'
  {
    PayloadParts(t, body);
    PayloadParts(t', body');
    DecimalRoundTrip(t);
    DecimalRoundTrip(t');
  }

  /** The timestamp and the body can be read off a payload. */
  lemma PayloadParts(t: nat, body: string)
    ensures var p := Payload(t, body);
            var n := DigitRun(p);
            n < |p| && p[..n] == Decimal(t) && p[n + 1..] == body
  {
    DecimalRoundTrip(t);
    DigitRunStops(Decimal(t), "." + body);
    assert Payload(t, body) == Decimal(t) + ("." + body);
  }

  /** Two different payloads with one digest. */
  ghost predicate Collide(mac: string -> Digest, p: string, p': string) {
    p != p' && mac(p) == mac(p')
  }

  /**
   An accepted header whose digest is the one made when signing (t, body) was accepted for that body at
   that timestamp, or else the two payloads, the signed one and the accepted one, are a collision.
   */
  lemma PayloadBinding(s: Service, t: nat, body: string, header: string, p: Parts, body': string, nowSeconds: nat)
    requires Spells(header, p) && BytesOf(p.hex) == s.mac(Payload(t, body))
    requires Verify(s, body', header, nowSeconds)
    ensures var ts := s.toNumber(ParseDecimal(p.digits));
            (body' == body && ts == t) != Collide(s.mac, Payload(t, body), Payload(ts, body'))
  {
    MatchExactly(header, p);
    var ts := s.toNumber(ParseDecimal(p.digits));
    if Payload(t, body) == Payload(ts, body') {
      PayloadInjective(t, body, ts, body');
    }
  }

  /**
   The signature of one body is accepted for another exactly when its timestamp, as `verify` reads it, is
   within the tolerance and the two payloads collide.
   */
  lemma OtherBodyNeedsCollision(s: Service, t: nat, body: string, body': string, nowSeconds: nat)
    requires body' != body
    ensures var ts := s.toNumber(t);
            Verify(s, body', Sign(s, body, t).signature, nowSeconds)
            <==> -300 < nowSeconds - ts < 300 && Collide(s.mac, Payload(t, body), Payload(ts, body'))
  {
    var p := SignedParts(s, body, t);
    MatchExactly(Sign(s, body, t).signature, p);
    DecimalRoundTrip(t);
    HexRoundTrip(s.mac(Payload(t, body)));
    if Payload(t, body) == Payload(s.toNumber(t), body') {
      PayloadInjective(t, body, s.toNumber(t), body');
    }
  }
}
