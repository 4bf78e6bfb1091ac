/** src/cli.rs: invitation tickets. A ticket is the base-62 form of a version byte, the
    issuer, the secret and the comma-joined endpoints. */
module Ticket {
  import opened Wrappers
  import opened Bytes
  import opened Paths
  import opened Entries
  import opened Base62

  const TICKET_VERSION: byte := 2
  const TICKET_MIN_BYTES := 1 + 32 + 32
  const MAX_TICKET_ENDPOINT_BYTES := 384
  const TICKET_MAX_BYTES := TICKET_MIN_BYTES + MAX_TICKET_ENDPOINT_BYTES
  const TICKET_MAX_CHARS := TICKET_MAX_BYTES * 8 / 5
  const COMMA: byte := 44

  /** `issuer` is a node id and `secret` its hex form. */
  datatype JoinTicket = JoinTicket(issuer: Digest, secret: Text, endpoints: seq<Text>)

  // ---------- UTF-8 ----------

  predicate Tail(s: Text, i: nat) {
    i < |s| && 0x80 <= s[i] <= 0xBF
  }

  /** The length of the first character, or zero if there is no well-formed one
      (table 3-7 of the Unicode Standard). */
  function FirstChar(s: Text): (n: nat)
    ensures n <= |s|
  {
    if s == [] then 0
    else if s[0] <= 0x7F then 1
    else if 0xC2 <= s[0] <= 0xDF && Tail(s, 1) then 2
    else if 0xE0 <= s[0] <= 0xEF && Tail(s, 1) && Tail(s, 2)
            && (s[0] == 0xE0 ==> s[1] >= 0xA0) && (s[0] == 0xED ==> s[1] <= 0x9F) then 3
    else if 0xF0 <= s[0] <= 0xF4 && Tail(s, 1) && Tail(s, 2) && Tail(s, 3)
            && (s[0] == 0xF0 ==> s[1] >= 0x90) && (s[0] == 0xF4 ==> s[1] <= 0x8F) then 4
    else 0
  }

  /** What every Rust string is, and what `from_utf8` checks. */
  predicate Utf8(s: Text) {
    s == [] || (FirstChar(s) > 0 && Utf8(s[FirstChar(s)..]))
  }

  predicate Scalar(c: nat) {
    c < 0xD800 || 0xE000 <= c <= 0x10FFFF
  }

  function Continuation(c: nat): byte {
    (0x80 + c % 64) as byte
  }

  /** The encoding of one character (section 3 of RFC 3629). */
  function Utf8Char(c: nat): (s: Text)
    requires Scalar(c)
  {
    if c < 0x80 then [c as byte]
    else if c < 0x800 then [(0xC0 + c / 64) as byte, Continuation(c)]
    else if c < 0x1_0000 then [(0xE0 + c / 4096) as byte, Continuation(c / 64), Continuation(c)]
    else [(0xF0 + c / 262144) as byte, Continuation(c / 4096), Continuation(c / 64), Continuation(c)]
  }

  ghost function Utf8Chars(cs: seq<nat>): Text
    requires forall c :: c in cs ==> Scalar(c)
  {
    if cs == [] then [] else Utf8Char(cs[0]) + Utf8Chars(cs[1..])
  }

  lemma CharRead(c: nat, rest: Text)
    requires Scalar(c)
    ensures FirstChar(Utf8Char(c) + rest) == |Utf8Char(c)| > 0
  {
  }

  lemma Push64(c: nat, d: nat)
    requires d < 64
    ensures (c * 64 + d) / 64 == c && (c * 64 + d) % 64 == d
  {
  }

  lemma CharFound3(x: byte, y: byte, z: byte) returns (c: nat)
    requires FirstChar([x, y, z]) == 3
    ensures Scalar(c) && Utf8Char(c) == [x, y, z]
  {
    c := (x as nat - 0xE0) * 64 + (y as nat - 0x80);
    Push64(x as nat - 0xE0, y as nat - 0x80);
    Push64(c, z as nat - 0x80);
    c := c * 64 + (z as nat - 0x80);
  }

  lemma CharFound4(x: byte, y: byte, z: byte, w: byte) returns (c: nat)
    requires FirstChar([x, y, z, w]) == 4
    ensures Scalar(c) && Utf8Char(c) == [x, y, z, w]
  {
    var c2 := (x as nat - 0xF0) * 64 + (y as nat - 0x80);
    Push64(x as nat - 0xF0, y as nat - 0x80);
    var c3 := c2 * 64 + (z as nat - 0x80);
    Push64(c2, z as nat - 0x80);
    c := c3 * 64 + (w as nat - 0x80);
    Push64(c3, w as nat - 0x80);
    assert c / 64 == c3 && c / 4096 == c2 && c / 262144 == x as nat - 0xF0;
  }

  lemma CharFound(s: Text) returns (c: nat)
    requires FirstChar(s) > 0
    ensures Scalar(c) && s[..FirstChar(s)] == Utf8Char(c)
  {
    match FirstChar(s) {
      case 1 => c := s[0] as nat;
      case 2 => c := (s[0] as nat - 0xC0) * 64 + (s[1] as nat - 0x80);
      case 3 =>
        assert s[..3] == [s[0], s[1], s[2]];
        c := CharFound3(s[0], s[1], s[2]);
      case _ =>
        assert s[..4] == [s[0], s[1], s[2], s[3]];
        c := CharFound4(s[0], s[1], s[2], s[3]);
    }
  }

  ghost predicate Spells(cs: seq<nat>, s: Text) {
    (forall c :: c in cs ==> Scalar(c)) && Utf8Chars(cs) == s
  }

  /** The check accepts the encodings of Unicode characters and nothing else. */
  lemma {:induction false} Utf8Exactly(s: Text)
    ensures Utf8(s) <==> exists cs :: Spells(cs, s)
    decreases |s|
  {
    if s == [] {
      assert Spells([], s);
    } else {
      if Utf8(s) {
        var c := CharFound(s);
        Utf8Exactly(s[FirstChar(s)..]);
        var cs :| Spells(cs, s[FirstChar(s)..]);
        assert ([c] + cs)[1..] == cs;
        assert Spells([c] + cs, s);
      }
      if cs :| Spells(cs, s) {
        CharRead(cs[0], Utf8Chars(cs[1..]));
        assert s[|Utf8Char(cs[0])|..] == Utf8Chars(cs[1..]);
        assert Spells(cs[1..], s[FirstChar(s)..]);
        Utf8Exactly(s[FirstChar(s)..]);
      }
    }
  }

  lemma {:induction false} Utf8Append(a: Text, b: Text)
    requires Utf8(a) && Utf8(b)
    ensures Utf8(a + b)
    decreases |a|
  {
    if a == [] {
      assert a + b == b;
    } else {
      var n := FirstChar(a);
      assert FirstChar(a + b) == n;
      assert (a + b)[n..] == a[n..] + b;
      Utf8Append(a[n..], b);
    }
  }

  ghost predicate AllUtf8(es: seq<Text>) {
    forall e :: e in es ==> Utf8(e)
  }

  lemma {:induction false} Utf8Joined(es: seq<Text>)
    requires AllUtf8(es)
    ensures Utf8(JoinWith(es, COMMA))
  {
    if |es| > 1 {
      Utf8Joined(es[1..]);
      assert Utf8([COMMA]) by { assert [COMMA][1..] == []; }
      Utf8Append(es[0], [COMMA]);
      Utf8Append(es[0] + [COMMA], JoinWith(es[1..], COMMA));
    } else if |es| == 1 {
      assert es[0] in es;
    }
  }

  // ---------- hex ----------

  function HexChar(d: nat): (c: byte)
    requires d < 16
  {
    if d < 10 then (48 + d) as byte else (87 + d) as byte
  }

  /** The characters are the ASCII digits and the letters a to f, in ascending order. */
  lemma HexAlphabet(c: byte)
    ensures (exists d: nat :: d < 16 && HexChar(d) == c) <==>
      '0' as nat <= c as nat <= '9' as nat || 'a' as nat <= c as nat <= 'f' as nat
    ensures forall d, e :: 0 <= d < e < 16 ==> HexChar(d) < HexChar(e)
  {
    if 48 <= c <= 57 { assert HexChar(c as nat - 48) == c; }
    if 97 <= c <= 102 { assert HexChar(c as nat - 87) == c; }
  }

  /** `hex`: two lower-case characters for each byte. */
  function Hex(bs: Text): (s: Text)
    ensures |s| == 2 * |bs|
    ensures forall i :: 0 <= i < |bs| ==>
      s[2 * i] == HexChar(bs[i] as nat / 16) && s[2 * i + 1] == HexChar(bs[i] as nat % 16)
  {
    seq(2 * |bs|, i requires 0 <= i < 2 * |bs| =>
      if i % 2 == 0 then HexChar(bs[i / 2] as nat / 16) else HexChar(bs[i / 2] as nat % 16))
  }

  /** The secret can be read back from its hex form. */
  lemma HexInjective(a: Text, b: Text)
    ensures Hex(a) == Hex(b) ==> a == b
  {
    if Hex(a) == Hex(b) {
      assert |a| == |b|;
      forall i | 0 <= i < |a| ensures a[i] == b[i] {
        HexPair(a[i], b[i]);
        assert Hex(a)[2 * i] == Hex(b)[2 * i] && Hex(a)[2 * i + 1] == Hex(b)[2 * i + 1];
      }
    }
  }

  lemma HexPair(x: byte, y: byte)
    ensures HexChar(x as nat / 16) == HexChar(y as nat / 16) && HexChar(x as nat % 16) == HexChar(y as nat % 16) ==>
      x == y
  {
    assert x as nat == x as nat / 16 * 16 + x as nat % 16 && y as nat == y as nat / 16 * 16 + y as nat % 16;
  }

  // ---------- the layout of a ticket ----------

  function TicketBytes(issuer: Digest, secret: Digest, endpoints: seq<Text>): Text {
    [TICKET_VERSION] + issuer + secret + JoinWith(endpoints, COMMA)
  }

  function NonEmpty(es: seq<Text>): (r: seq<Text>)
    ensures forall e :: e in r <==> e in es && e != []
  {
    if es == [] then [] else if es[0] == [] then NonEmpty(es[1..]) else [es[0]] + NonEmpty(es[1..])
  }

  /** What decoded ticket bytes say. */
  function Contents(bytes: Text): Result<JoinTicket> {
    if |bytes| < TICKET_MIN_BYTES || bytes[0] != TICKET_VERSION || !Utf8(bytes[65..]) then Err(InvalidTicket)
    else Ok(JoinTicket(bytes[1..33], Hex(bytes[33..65]), NonEmpty(Split(bytes[65..], COMMA))))
  }

  lemma {:induction false} NonEmptyAppend(a: seq<Text>, b: seq<Text>)
    ensures NonEmpty(a + b) == NonEmpty(a) + NonEmpty(b)
    decreases |a|
  {
    if a == [] {
      assert a + b == b;
    } else {
      assert (a + b)[1..] == a[1..] + b;
      NonEmptyAppend(a[1..], b);
    }
  }

  /** A ticket is read as two 32-byte fields behind a version byte 2, and UTF-8 text behind
      them. */
  lemma ContentsExactly(bytes: Text, t: JoinTicket)
    ensures Contents(bytes) == Ok(t) <==>
      exists issuer: Digest, secret: Digest, rest: Text :: LaidOut(bytes, t, issuer, secret, rest)
    ensures Contents(bytes).Err? ==> Contents(bytes).error == InvalidTicket
  {
    if |bytes| >= 65 {
      assert bytes == [bytes[0]] + bytes[1..33] + bytes[33..65] + bytes[65..];
      if Contents(bytes) == Ok(t) { assert LaidOut(bytes, t, bytes[1..33], bytes[33..65], bytes[65..]); }
    }
    if issuer: Digest, secret: Digest, rest: Text :| LaidOut(bytes, t, issuer, secret, rest) {
      assert bytes[1..33] == issuer && bytes[33..65] == secret && bytes[65..] == rest;
    }
  }

  ghost predicate LaidOut(bytes: Text, t: JoinTicket, issuer: Digest, secret: Digest, rest: Text) {
    && bytes == [2] + issuer + secret + rest && Utf8(rest)
    && t == JoinTicket(issuer, Hex(secret), NonEmpty(Split(rest, COMMA)))
  }

  // ---------- the two operations ----------

  /** `encode_ticket`. */
  method EncodeTicket(issuer: Digest, secret: Digest, endpoints: seq<Text>) returns (r: Result<Text>)
    ensures |JoinWith(endpoints, COMMA)| > MAX_TICKET_ENDPOINT_BYTES ==> r == Err(InvalidInput)
    ensures |JoinWith(endpoints, COMMA)| <= MAX_TICKET_ENDPOINT_BYTES ==>
      r == Ok(Encoded(TicketBytes(issuer, secret, endpoints)))
  {
    var joined := JoinWith(endpoints, COMMA);
    if |joined| > MAX_TICKET_ENDPOINT_BYTES { return Err(InvalidInput); }
    var combined := [TICKET_VERSION];
    combined := combined + issuer;
    combined := combined + secret;
    combined := combined + joined;
    var s := Encode(combined);
    return Ok(s);
  }

  /** `ticket_base62_decode`. */
  method DecodeBase62(s: Text) returns (r: Result<Text>)
    ensures r.Ok? <==> 0 < |s| <= TICKET_MAX_CHARS && Legible(s)
    ensures r.Ok? ==> IsDecoded(s, r.value)
    ensures r.Err? ==> r.error == InvalidTicket
  {
    if s == [] || |s| > TICKET_MAX_CHARS { return Err(InvalidTicket); }
    r := DecodeDigits(s);
  }

  /** `parse_join_ticket`. */
  method ParseJoinTicket(value: Text) returns (r: Result<JoinTicket>)
    ensures 0 < |value| <= TICKET_MAX_CHARS && Legible(value) ==>
      exists bytes :: IsDecoded(value, bytes) && r == Contents(bytes)
    ensures !(0 < |value| <= TICKET_MAX_CHARS && Legible(value)) ==> r == Err(InvalidTicket)
  {
    var bytes :- DecodeBase62(value);
    if |bytes| < TICKET_MIN_BYTES { return Err(InvalidTicket); }
    if bytes[0] != TICKET_VERSION { return Err(InvalidTicket); }
    var endpoints := bytes[65..];
    if !Utf8(endpoints) { return Err(InvalidTicket); }
    return Ok(JoinTicket(bytes[1..33], Hex(bytes[33..65]), NonEmpty(Split(endpoints, COMMA))));
  }

  // ---------- the round trip ----------

  lemma LayoutRead(issuer: Digest, secret: Digest, endpoints: seq<Text>)
    requires AllUtf8(endpoints)
    ensures Contents(TicketBytes(issuer, secret, endpoints)) ==
      Ok(JoinTicket(issuer, Hex(secret), NonEmpty(Split(JoinWith(endpoints, COMMA), COMMA))))
  {
    var bytes, joined := TicketBytes(issuer, secret, endpoints), JoinWith(endpoints, COMMA);
    Utf8Joined(endpoints);
    assert bytes[1..33] == issuer && bytes[33..65] == secret && bytes[65..] == joined;
  }

  lemma {:induction false} AllNonEmpty(es: seq<Text>)
    requires forall e :: e in es ==> e != []
    ensures NonEmpty(es) == es
    decreases |es|
  {
    if es != [] {
      assert es[0] in es;
      forall e | e in es[1..] ensures e != [] { assert e in es; }
      AllNonEmpty(es[1..]);
      assert es == [es[0]] + es[1..];
    }
  }

  ghost predicate PlainEndpoints(es: seq<Text>) {
    forall e :: e in es ==> e != [] && COMMA !in e
  }

  /** The endpoints survive exactly if none is empty or contains a comma. */
  lemma EndpointsSurvive(es: seq<Text>)
    ensures NonEmpty(Split(JoinWith(es, COMMA), COMMA)) == es <==> PlainEndpoints(es)
  {
    var parts := Split(JoinWith(es, COMMA), COMMA);
    if PlainEndpoints(es) {
      if es == [] {
        assert parts == [[]];
        assert NonEmpty([[]]) == NonEmpty([[]][1..]) == [];
      } else {
        SplitJoined(es, COMMA);
        AllNonEmpty(es);
      }
    }
  }

  /** An encoded ticket passes the length check of the decoder. */
  lemma TicketFits(issuer: Digest, secret: Digest, endpoints: seq<Text>)
    requires |JoinWith(endpoints, COMMA)| <= MAX_TICKET_ENDPOINT_BYTES
    ensures 0 < |Encoded(TicketBytes(issuer, secret, endpoints))| <= TICKET_MAX_CHARS
  {
    EncodedLength(TicketBytes(issuer, secret, endpoints));
    EncodedLegible(TicketBytes(issuer, secret, endpoints));
  }

  /** Any result `ParseJoinTicket` may give for the ticket: the issuer and the secret always
      come back, and the endpoints exactly if they are plain. */
  lemma TicketRoundTrip(issuer: Digest, secret: Digest, endpoints: seq<Text>, bytes: Text)
    requires AllUtf8(endpoints) && |JoinWith(endpoints, COMMA)| <= MAX_TICKET_ENDPOINT_BYTES
    requires IsDecoded(Encoded(TicketBytes(issuer, secret, endpoints)), bytes)
    ensures Contents(bytes).Ok?
    ensures Contents(bytes).value.issuer == issuer && Contents(bytes).value.secret == Hex(secret)
    ensures Contents(bytes).value.endpoints == endpoints <==> PlainEndpoints(endpoints)
  {
    DecodeEncoded(TicketBytes(issuer, secret, endpoints), bytes);
    assert bytes[0] == TICKET_VERSION;
    LayoutRead(issuer, secret, endpoints);
    EndpointsSurvive(endpoints);
  }

  /** Encoding a ticket and parsing it again. */
  method RoundTrip(issuer: Digest, secret: Digest, endpoints: seq<Text>) returns (r: Result<JoinTicket>)
    requires AllUtf8(endpoints)
    ensures r.Ok? <==> |JoinWith(endpoints, COMMA)| <= MAX_TICKET_ENDPOINT_BYTES
    ensures r.Ok? ==> r.value.issuer == issuer && r.value.secret == Hex(secret)
    ensures r.Ok? ==> (r.value.endpoints == endpoints <==> PlainEndpoints(endpoints))
  {
    var ticket :- EncodeTicket(issuer, secret, endpoints);
    TicketFits(issuer, secret, endpoints);
    EncodedLegible(TicketBytes(issuer, secret, endpoints));
    r := ParseJoinTicket(ticket);
    ghost var bytes :| IsDecoded(ticket, bytes) && r == Contents(bytes);
    TicketRoundTrip(issuer, secret, endpoints, bytes);
  }
}
