/**
 Capability tokens (packages/adapters/src/policy-token.ts): a version, a base64url
 body and a base64url nonce. JSON and date parsing are parameters.
 */
module PolicyToken {
  import opened Prelude

  type Byte = x: int | 0 <= x < 256

  type Sextet = x: int | 0 <= x < 64

  // ---------------------------------------------------------------- base64url (RFC 4648, section 5)

  function CharOf(v: Sextet): char {
    if v < 26 then 'A' + v as char
    else if v < 52 then 'a' + (v - 26) as char
    else if v < 62 then '0' + (v - 52) as char
    else if v == 62 then '-' else '_'
  }

  predicate InAlphabet(c: char) {
    'A' <= c <= 'Z' || 'a' <= c <= 'z' || '0' <= c <= '9' || c == '-' || c == '_'
  }

  function ValueOf(c: char): Sextet
    requires InAlphabet(c)
  {
    if 'A' <= c <= 'Z' then c as int - 'A' as int
    else if 'a' <= c <= 'z' then c as int - 'a' as int + 26
    else if '0' <= c <= '9' then c as int - '0' as int + 52
    else if c == '-' then 62 else 63
  }

  lemma CharAndValue(v: Sextet, c: char)
    ensures InAlphabet(CharOf(v)) && ValueOf(CharOf(v)) == v
    ensures InAlphabet(c) ==> CharOf(ValueOf(c)) == c
  {
  }

  predicate Encodable(s: string) { forall i :: 0 <= i < |s| ==> InAlphabet(s[i]) }

  function Chars(vs: seq<Sextet>): (s: string)
    ensures |s| == |vs|
  {
    seq(|vs|, i requires 0 <= i < |vs| => CharOf(vs[i]))
  }

  function Values(s: string): (vs: seq<Sextet>)
    requires Encodable(s)
    ensures |vs| == |s|
  {
    seq(|s|, i requires 0 <= i < |s| => ValueOf(s[i]))
  }

  lemma CharsAndValues(vs: seq<Sextet>, s: string)
    ensures Encodable(Chars(vs)) && Values(Chars(vs)) == vs
    ensures Encodable(s) ==> Chars(Values(s)) == s
  {
    forall i | 0 <= i < |vs|
      ensures InAlphabet(Chars(vs)[i]) && ValueOf(Chars(vs)[i]) == vs[i]
    {
      CharAndValue(vs[i], 'A');
    }
    if Encodable(s) {
      forall i | 0 <= i < |s|
        ensures CharOf(ValueOf(s[i])) == s[i]
      {
        CharAndValue(0, s[i]);
      }
    }
  }

  /** The encoding of some bytes (RFC 4648, sections 5 and 10, without padding). */
  lemma EncodingVectors()
    ensures Encode([102]) == "Zg" && Encode([102, 111]) == "Zm8" && Encode([102, 111, 111]) == "Zm9v"
    ensures Encode([251, 239, 255]) == "--__"
  {
    assert Pack([102]) == [25, 32] && Pack([102, 111]) == [25, 38, 60] && Pack([]) == [];
    assert Pack([102, 111, 111]) == [25, 38, 61, 47] + Pack([]);
    assert Pack([251, 239, 255]) == [62, 62, 63, 63] + Pack([]);
  }

  // Three bytes a, b, c in four groups of six bits, and back.
  function First(a: Byte): Sextet { a / 4 }
  function Second(a: Byte, b: Byte): Sextet { a % 4 * 16 + b / 16 }
  function Third(b: Byte, c: Byte): Sextet { b % 16 * 4 + c / 64 }
  function Fourth(c: Byte): Sextet { c % 64 }
  function ByteA(v: Sextet, w: Sextet): Byte { v * 4 + w / 16 }
  function ByteB(v: Sextet, w: Sextet): Byte { v % 16 * 16 + w / 4 }
  function ByteC(v: Sextet, w: Sextet): Byte { v % 4 * 64 + w }

  function Pack(bytes: seq<Byte>): (vs: seq<Sextet>)
    ensures vs == [] <==> bytes == []
  {
    if bytes == [] then []
    else if |bytes| == 1 then [First(bytes[0]), Second(bytes[0], 0)]
    else if |bytes| == 2 then [First(bytes[0]), Second(bytes[0], bytes[1]), Third(bytes[1], 0)]
    else
      [First(bytes[0]), Second(bytes[0], bytes[1]), Third(bytes[1], bytes[2]), Fourth(bytes[2])] + Pack(bytes[3..])
  }

  function Unpack(vs: seq<Sextet>): seq<Byte> {
    if |vs| < 2 then []
    else if |vs| == 2 then [ByteA(vs[0], vs[1])]
    else if |vs| == 3 then [ByteA(vs[0], vs[1]), ByteB(vs[1], vs[2])]
    else [ByteA(vs[0], vs[1]), ByteB(vs[1], vs[2]), ByteC(vs[2], vs[3])] + Unpack(vs[4..])
  }

  function Encode(bytes: seq<Byte>): string { Chars(Pack(bytes)) }

  /** Node's decoder, which drops left-over bits without looking at them. */
  function Decode(s: string): seq<Byte>
    requires Encodable(s)
  {
    Unpack(Values(s))
  }

  /** No group is left over and the bits after the last byte are zero. */
  predicate CleanEnd(vs: seq<Sextet>) {
    && |vs| % 4 != 1
    && (|vs| % 4 == 2 ==> vs[|vs| - 1] % 16 == 0)
    && (|vs| % 4 == 3 ==> vs[|vs| - 1] % 4 == 0)
  }

  predicate Canonical(s: string)
    requires Encodable(s)
  {
    CleanEnd(Values(s))
  }

  lemma GroupRoundTrip(a: Byte, b: Byte, c: Byte)
    ensures ByteA(First(a), Second(a, b)) == a
    ensures ByteB(Second(a, b), Third(b, c)) == b
    ensures ByteC(Third(b, c), Fourth(c)) == c
  {
  }

  lemma SextetsRoundTrip(v0: Sextet, v1: Sextet, v2: Sextet, v3: Sextet)
    ensures First(ByteA(v0, v1)) == v0
    ensures Second(ByteA(v0, v1), ByteB(v1, v2)) == v1
    ensures Third(ByteB(v1, v2), ByteC(v2, v3)) == v2
    ensures Fourth(ByteC(v2, v3)) == v3
    ensures v1 % 16 == 0 ==> Second(ByteA(v0, v1), 0) == v1
    ensures v2 % 4 == 0 ==> Third(ByteB(v1, v2), 0) == v2
  {
  }

  lemma {:induction false} PackShape(bytes: seq<Byte>)
    ensures CleanEnd(Pack(bytes))
  {
    if |bytes| > 2 {
      PackShape(bytes[3..]);
      var rest := Pack(bytes[3..]);
      assert rest != [] ==> Pack(bytes)[|Pack(bytes)| - 1] == rest[|rest| - 1];
    }
  }

  lemma {:induction false} UnpackGroup(v0: Sextet, v1: Sextet, v2: Sextet, v3: Sextet, rest: seq<Sextet>)
    ensures Unpack([v0, v1, v2, v3] + rest) == [ByteA(v0, v1), ByteB(v1, v2), ByteC(v2, v3)] + Unpack(rest)
  {
    assert ([v0, v1, v2, v3] + rest)[4..] == rest;
  }

  lemma UnpackOne(a: Byte)
    ensures Unpack([First(a), Second(a, 0)]) == [a]
  {
    GroupRoundTrip(a, 0, 0);
  }

  lemma UnpackTwo(a: Byte, b: Byte)
    ensures Unpack([First(a), Second(a, b), Third(b, 0)]) == [a, b]
  {
    GroupRoundTrip(a, b, 0);
  }

  lemma {:induction false} UnpackOfPack(bytes: seq<Byte>)
    ensures Unpack(Pack(bytes)) == bytes
  {
    if |bytes| == 1 {
      UnpackOne(bytes[0]);
    } else if |bytes| == 2 {
      UnpackTwo(bytes[0], bytes[1]);
    } else if |bytes| > 2 {
      var a, b, c, rest := bytes[0], bytes[1], bytes[2], bytes[3..];
      UnpackOfPack(rest);
      UnpackGroup(First(a), Second(a, b), Third(b, c), Fourth(c), Pack(rest));
      GroupRoundTrip(a, b, c);
      assert bytes == [a, b, c] + rest;
    }
  }

  lemma PackTwo(v0: Sextet, v1: Sextet)
    requires v1 % 16 == 0
    ensures Pack([ByteA(v0, v1)]) == [v0, v1]
  {
    SextetsRoundTrip(v0, v1, 0, 0);
  }

  lemma PackThree(v0: Sextet, v1: Sextet, v2: Sextet)
    requires v2 % 4 == 0
    ensures Pack([ByteA(v0, v1), ByteB(v1, v2)]) == [v0, v1, v2]
  {
    SextetsRoundTrip(v0, v1, v2, 0);
  }

  lemma {:induction false} PackGroup(v0: Sextet, v1: Sextet, v2: Sextet, v3: Sextet, rest: seq<Byte>)
    ensures Pack([ByteA(v0, v1), ByteB(v1, v2), ByteC(v2, v3)] + rest) == [v0, v1, v2, v3] + Pack(rest)
  {
    SextetsRoundTrip(v0, v1, v2, v3);
    assert ([ByteA(v0, v1), ByteB(v1, v2), ByteC(v2, v3)] + rest)[3..] == rest;
  }

  lemma CleanRest(vs: seq<Sextet>)
    requires CleanEnd(vs) && |vs| > 3
    ensures CleanEnd(vs[4..])
  {
    assert |vs[4..]| % 4 == |vs| % 4;
  }

  lemma {:induction false} PackOfUnpack(vs: seq<Sextet>)
    requires CleanEnd(vs)
    ensures Pack(Unpack(vs)) == vs
  {
    if |vs| == 2 {
      PackTwo(vs[0], vs[1]);
    } else if |vs| == 3 {
      PackThree(vs[0], vs[1], vs[2]);
    } else if |vs| > 3 {
      CleanRest(vs);
      PackOfUnpack(vs[4..]);
      PackGroup(vs[0], vs[1], vs[2], vs[3], Unpack(vs[4..]));
      assert vs == [vs[0], vs[1], vs[2], vs[3]] + vs[4..];
    }
  }

  lemma EncodeShape(bytes: seq<Byte>)
    ensures Encodable(Encode(bytes)) && Canonical(Encode(bytes)) && '.' !in Encode(bytes)
  {
    CharsAndValues(Pack(bytes), "");
    PackShape(bytes);
  }

  lemma DecodeOfEncode(bytes: seq<Byte>)
    ensures Encodable(Encode(bytes)) && Decode(Encode(bytes)) == bytes
  {
    CharsAndValues(Pack(bytes), "");
    UnpackOfPack(bytes);
  }

  lemma EncodeOfDecode(s: string)
    requires Encodable(s) && Canonical(s)
    ensures Encode(Decode(s)) == s
  {
    CharsAndValues([], s);
    PackOfUnpack(Values(s));
  }

  /** unb64url */
  function Unb64url(segment: string): Option<seq<Byte>> {
    if segment == "" || !Encodable(segment) then None
    else if Encode(Decode(segment)) == segment then Some(Decode(segment)) else None
  }

  /** The round-trip check accepts exactly the canonical spellings. */
  lemma AcceptedExactly(segment: string)
    ensures Unb64url(segment).Some? <==> segment != "" && Encodable(segment) && Canonical(segment)
  {
    if segment != "" && Encodable(segment) {
      if Canonical(segment) {
        EncodeOfDecode(segment);
      } else {
        EncodeShape(Decode(segment));
      }
    }
  }

  /** Every non-empty byte string has one accepted spelling, its encoding. */
  lemma OneSpelling(segment: string, bytes: seq<Byte>)
    requires bytes != []
    ensures Unb64url(segment) == Some(bytes) <==> segment == Encode(bytes)
  {
    DecodeOfEncode(bytes);
  }

  // ---------------------------------------------------------------- tokens

  const VERSION := "v1"
  const NONCE_BYTES := 32

  /** CapabilityTokenClaims without the nonce. */
  datatype Body = Body(
    principal: string, runId: Option<string>, capability: string, resource: string, domain: string, expiresAt: string)

  datatype Claims = Claims(body: Body, nonce: string)

  /** A property of a parsed JSON object. */
  datatype Field = Str(s: string) | Null | Other

  datatype Fields = Fields(
    principal: Field, runId: Field, capability: Field, resource: Field, domain: Field, expiresAt: Field)

  /** JSON.stringify, JSON.parse (None: an error or not a plain object) and whether Date.parse succeeds. */
  datatype Codec = Codec(stringify: Body -> seq<Byte>, parse: seq<Byte> -> Option<Fields>, isDate: string -> bool)

  function FieldsOf(b: Body): Fields {
    Fields(Str(b.principal), if b.runId.None? then Null else Str(b.runId.value),
           Str(b.capability), Str(b.resource), Str(b.domain), Str(b.expiresAt))
  }

  ghost predicate CodecLaw(codec: Codec) {
    forall b: Body :: codec.stringify(b) != [] && codec.parse(codec.stringify(b)) == Some(FieldsOf(b))
  }

  function Mint(body: Body, nonceBytes: seq<Byte>, codec: Codec): string {
    VERSION + "." + Encode(codec.stringify(body)) + "." + Encode(nonceBytes)
  }

  /** `split(".")` */
  function Split(s: string): (parts: seq<string>)
    ensures parts != []
  {
    if s == "" then [""]
    else
      var rest := Split(s[1..]);
      if s[0] == '.' then [""] + rest else [[s[0]] + rest[0]] + rest[1..]
  }

  function Parse(token: string, codec: Codec): Option<Claims> {
    var parts := Split(token);
    if |parts| != 3 || parts[0] != VERSION then None
    else
      var nonceBytes := Unb64url(parts[2]);
      if nonceBytes.None? || |nonceBytes.value| < NONCE_BYTES then None
      else
        var bodyBytes := Unb64url(parts[1]);
        if bodyBytes.None? then None else ClaimsOf(bodyBytes.value, parts[2], codec)
  }

  function ClaimsOf(bytes: seq<Byte>, nonce: string, codec: Codec): Option<Claims> {
    match codec.parse(bytes)
    case None => None
    case Some(f) =>
      if f.principal.Str? && !f.runId.Other? && f.capability.Str? && f.resource.Str?
         && f.domain.Str? && f.expiresAt.Str? && codec.isDate(f.expiresAt.s) then
        Some(Claims(
          Body(f.principal.s, if f.runId.Null? then None else Some(f.runId.s),
               f.capability.s, f.resource.s, f.domain.s, f.expiresAt.s),
          nonce))
      else None
  }

  lemma {:induction false} SplitOne(s: string)
    requires '.' !in s
    ensures Split(s) == [s]
  {
    if s != "" {
      assert s[0] != '.' && forall c :: c in s[1..] ==> c in s;
      SplitOne(s[1..]);
      assert [s[0]] + s[1..] == s;
      assert [[s[0]] + s[1..]] + [] == [s];
    }
  }

  lemma {:induction false} SplitFirst(s: string, rest: string)
    requires '.' !in s
    ensures Split(s + "." + rest) == [s] + Split(rest)
  {
    var all := s + "." + rest;
    if s == "" {
      assert all[1..] == rest;
      assert [""] + Split(rest) == [s] + Split(rest);
    } else {
      assert s[0] != '.' && forall c :: c in s[1..] ==> c in s;
      assert all[1..] == s[1..] + "." + rest;
      SplitFirst(s[1..], rest);
      var parts := Split(all[1..]);
      assert parts[1..] == Split(rest);
      assert [s[0]] + parts[0] == s;
    }
  }

  lemma {:induction false} SplitToken(body: string, nonce: string)
    requires '.' !in body && '.' !in nonce
    ensures Split(VERSION + "." + body + "." + nonce) == [VERSION, body, nonce]
  {
    assert VERSION + "." + body + "." + nonce == VERSION + "." + (body + "." + nonce);
    SplitFirst(VERSION, body + "." + nonce);
    SplitFirst(body, nonce);
    SplitOne(nonce);
  }

  lemma {:induction false} ParseParts(token: string, body: string, nonce: string, bytes: seq<Byte>, nonceBytes: seq<Byte>, codec: Codec)
    requires Split(token) == [VERSION, body, nonce]
    requires Unb64url(body) == Some(bytes) && Unb64url(nonce) == Some(nonceBytes) && |nonceBytes| >= NONCE_BYTES
    ensures Parse(token, codec) == ClaimsOf(bytes, nonce, codec)
  {
  }

  /** A minted token parses back to exactly its claims and nonce. */
  lemma TokenRoundTrip(body: Body, nonceBytes: seq<Byte>, codec: Codec)
    requires CodecLaw(codec) && codec.isDate(body.expiresAt) && |nonceBytes| == NONCE_BYTES
    ensures Parse(Mint(body, nonceBytes, codec), codec) == Some(Claims(body, Encode(nonceBytes)))
  {
    var bytes := codec.stringify(body);
    EncodeShape(bytes);
    EncodeShape(nonceBytes);
    SplitToken(Encode(bytes), Encode(nonceBytes));
    OneSpelling(Encode(bytes), bytes);
    OneSpelling(Encode(nonceBytes), nonceBytes);
    ParseParts(Mint(body, nonceBytes, codec), Encode(bytes), Encode(nonceBytes), bytes, nonceBytes, codec);
    MintedClaims(body, Encode(nonceBytes), codec);
  }

  lemma MintedClaims(body: Body, nonce: string, codec: Codec)
    requires CodecLaw(codec) && codec.isDate(body.expiresAt)
    ensures codec.stringify(body) != [] && ClaimsOf(codec.stringify(body), nonce, codec) == Some(Claims(body, nonce))
  {
    assert codec.parse(codec.stringify(body)) == Some(FieldsOf(body));
  }

  lemma {:induction false} JoinSplit(s: string)
    ensures var parts := Split(s);
      |parts| == 3 ==> s == parts[0] + "." + parts[1] + "." + parts[2]
    ensures |Split(s)| == 2 ==> s == Split(s)[0] + "." + Split(s)[1]
    ensures |Split(s)| == 1 ==> s == Split(s)[0]
  {
    if s != "" {
      JoinSplit(s[1..]);
      assert s == [s[0]] + s[1..];
    }
  }

  /**
   Tokens cannot be respelled: a token that parses is the version and the encodings
   of its two byte strings, so two that carry the same bytes are the same token.
   */
  lemma {:induction false} TokensAreCanonical(token: string, codec: Codec)
    requires Parse(token, codec).Some?
    ensures var parts := Split(token);
      && |parts| == 3 && Unb64url(parts[1]).Some? && Unb64url(parts[2]).Some?
      && token == VERSION + "." + Encode(Unb64url(parts[1]).value) + "." + Encode(Unb64url(parts[2]).value)
      && |Unb64url(parts[2]).value| >= NONCE_BYTES
      && Parse(token, codec).value.nonce == Encode(Unb64url(parts[2]).value)
  {
    JoinSplit(token);
  }
}
