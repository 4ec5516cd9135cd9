/** Signed tokens (src/auth/jwt.ts): the compact form of section 7.1 of RFC 7515, HS256. */
module Jwt {
  import opened Wrappers
  import opened Text
  import opened Base64Url

  datatype Kind = Admin | User

  /** A parsed payload; text signed elsewhere may lack the expiry. */
  datatype Payload = Payload(sub: string, kind: Kind, iat: int, exp: Option<int>, jti: string)

  /** Platform functions: HMAC-SHA-256, SHA-256, UTF-8, and JSON for payloads. */
  datatype Platform = Platform(
    hmac: (string, seq<byte>) -> seq<byte>,
    sha256: seq<byte> -> seq<byte>,
    utf8: string -> seq<byte>,
    fromUtf8: seq<byte> -> string,
    stringify: Payload -> string,
    parse: string -> Option<Payload>,
    headerText: string
  )

  /** Writing a payload and reading it back gives the payload. */
  ghost predicate Lawful(p: Platform) {
    forall payload: Payload :: p.parse(p.fromUtf8(p.utf8(p.stringify(payload)))) == Some(payload)
  }

  function Seconds(ms: int): int {
    ms / 1000
  }

  /** Whole seconds, rounded down. */
  lemma SecondsMean(ms: int)
    ensures Seconds(ms) * 1000 <= ms < Seconds(ms) * 1000 + 1000
  {
  }

  function NewPayload(sub: string, kind: Kind, ttl: int, jti: string, nowMs: int): Payload {
    Payload(sub, kind, Seconds(nowMs), Some(Seconds(nowMs) + ttl), jti)
  }

  function SigningInput(payload: Payload, p: Platform): string {
    Encode(p.utf8(p.headerText)) + "." + Encode(p.utf8(p.stringify(payload)))
  }

  function SignJWT(sub: string, kind: Kind, ttl: int, secret: string, jti: string, nowMs: int, p: Platform): string {
    var input := SigningInput(NewPayload(sub, kind, ttl, jti, nowMs), p);
    input + "." + Encode(p.hmac(secret, p.utf8(input)))
  }

  function VerifyJWT(token: string, secret: string, nowMs: int, p: Platform): Option<Payload> {
    var parts := Split(token, '.');
    if |parts| != 3 then None else
      var signature := Decode(parts[2]);
      if signature.None? || signature.value != p.hmac(secret, p.utf8(parts[0] + "." + parts[1])) then None else
        var body := Decode(parts[1]);
        var payload := if body.None? then None else p.parse(p.fromUtf8(body.value));
        if payload.None? then None
        else if payload.value.exp.Some? && payload.value.exp.value < Seconds(nowMs) then None
        else payload
  }

  function HashToken(token: string, p: Platform): string {
    Encode(p.sha256(p.utf8(token)))
  }

  /** The encoding contains no dot, so a token has exactly its three parts. */
  lemma EncodingHasNoDot(data: seq<byte>)
    ensures '.' !in Encode(data)
  {
    EncodingAlphabet(data);
  }

  lemma TokenParts(h: seq<byte>, b: seq<byte>, s: seq<byte>)
    ensures Split(Encode(h) + "." + Encode(b) + "." + Encode(s), '.') == [Encode(h), Encode(b), Encode(s)]
  {
    EncodingHasNoDot(h);
    EncodingHasNoDot(b);
    EncodingHasNoDot(s);
    ThreeParts(Encode(h), Encode(b), Encode(s));
  }

  lemma ThreeParts(a: string, b: string, c: string)
    requires '.' !in a && '.' !in b && '.' !in c
    ensures Split(a + "." + b + "." + c, '.') == [a, b, c]
  {
    var tail := b + ['.'] + c;
    SplitOne(c, '.');
    SplitCons(b, c, '.');
    SplitCons(a, tail, '.');
    DotAssoc(a, b, c);
  }

  lemma DotAssoc(a: string, b: string, c: string)
    ensures a + "." + b + "." + c == a + ['.'] + (b + ['.'] + c)
  {
  }

  /**
   * A signed token is accepted, and its payload returned, exactly up to and including second `exp`,
   * by exactly the secrets whose MAC of the signing input is the signing secret's.
   */
  lemma VerifyAfterSign(sub: string, kind: Kind, ttl: int, secret: string, jti: string, issuedMs: int,
                        other: string, nowMs: int, p: Platform)
    requires Lawful(p)
    ensures var payload := Payload(sub, kind, Seconds(issuedMs), Some(Seconds(issuedMs) + ttl), jti);
            var input := p.utf8(SigningInput(payload, p));
            var accepts := p.hmac(other, input) == p.hmac(secret, input) && Seconds(nowMs) <= Seconds(issuedMs) + ttl;
            VerifyJWT(SignJWT(sub, kind, ttl, secret, jti, issuedMs, p), other, nowMs, p)
            == if accepts then Some(payload) else None
  {
    var payload := NewPayload(sub, kind, ttl, jti, issuedMs);
    var header, body := p.utf8(p.headerText), p.utf8(p.stringify(payload));
    var signature := p.hmac(secret, p.utf8(SigningInput(payload, p)));
    TokenParts(header, body, signature);
    RoundTrip(body);
    RoundTrip(signature);
  }

  /** The three parts of a signed token: header, payload, and the MAC of the two as they stand before it. */
  lemma SignedParts(sub: string, kind: Kind, ttl: int, secret: string, jti: string, issuedMs: int, p: Platform)
    ensures var payload := Payload(sub, kind, Seconds(issuedMs), Some(Seconds(issuedMs) + ttl), jti);
            var header, body := Encode(p.utf8(p.headerText)), Encode(p.utf8(p.stringify(payload)));
            Split(SignJWT(sub, kind, ttl, secret, jti, issuedMs, p), '.')
            == [header, body, Encode(p.hmac(secret, p.utf8(header + "." + body)))]
  {
    var payload := NewPayload(sub, kind, ttl, jti, issuedMs);
    TokenParts(p.utf8(p.headerText), p.utf8(p.stringify(payload)), p.hmac(secret, p.utf8(SigningInput(payload, p))));
  }

  /** Whatever is accepted carries the MAC of its own first two parts and has not expired. */
  lemma AcceptedIsSigned(token: string, secret: string, nowMs: int, p: Platform)
    returns (header: string, body: string, signature: string)
    requires VerifyJWT(token, secret, nowMs, p).Some?
    ensures token == header + "." + body + "." + signature
    ensures Decode(signature) == Some(p.hmac(secret, p.utf8(header + "." + body)))
    ensures var payload := VerifyJWT(token, secret, nowMs, p).value;
            payload.exp.Some? ==> Seconds(nowMs) <= payload.exp.value
  {
    var parts := Split(token, '.');
    header, body, signature := parts[0], parts[1], parts[2];
    JoinSplit(token);
    assert parts == [header, body, signature];
    JoinThree(header, body, signature);
  }

  /** A token hash is the encoded SHA-256 of the token's UTF-8 text. */
  lemma HashMeans(token: string, p: Platform)
    ensures Decode(HashToken(token, p)) == Some(p.sha256(p.utf8(token)))
  {
    RoundTrip(p.sha256(p.utf8(token)));
  }

  /**
   * What three parts are accepted as: their payload, if the third is the MAC of the first two and no expiry has
   * passed; a payload without expiry never expires.
   */
  lemma PartsAccepted(header: string, body: string, signature: string, secret: string, nowMs: int, p: Platform)
    requires '.' !in header && '.' !in body && '.' !in signature
    ensures var data := Decode(body);
            var payload := if data == None then None else p.parse(p.fromUtf8(data.value));
            var signed := Decode(signature) == Some(p.hmac(secret, p.utf8(header + "." + body)));
            VerifyJWT(header + "." + body + "." + signature, secret, nowMs, p)
            == if signed && payload != None && (payload.value.exp == None || Seconds(nowMs) <= payload.value.exp.value)
               then payload else None
  {
    ThreeParts(header, body, signature);
  }

  lemma JoinThree(a: string, b: string, c: string)
    ensures JoinDots([a, b, c]) == a + "." + b + "." + c
  {
    assert [a, b, c][1..] == [b, c] && [b, c][1..] == [c];
    assert JoinDots([b, c]) == b + "." + c;
    assert a + "." + (b + "." + c) == a + "." + b + "." + c;
  }

  function JoinDots(parts: seq<string>): string
    requires |parts| > 0
  {
    if |parts| == 1 then parts[0] else parts[0] + "." + JoinDots(parts[1..])
  }

  lemma {:induction false} JoinSplit(s: string)
    ensures JoinDots(Split(s, '.')) == s
    decreases |s|
  {
    var i := IndexOf(s, '.');
    if i < |s| {
      JoinSplit(s[i + 1..]);
      JoinCons(s[..i], Split(s[i + 1..], '.'));
      DotBetween(s, i);
    }
  }

  lemma DotBetween(s: string, i: nat)
    requires i < |s| && s[i] == '.'
    ensures s[..i] + "." + s[i + 1..] == s
  {
  }

  lemma JoinCons(head: string, tail: seq<string>)
    requires |tail| > 0
    ensures JoinDots([head] + tail) == head + "." + JoinDots(tail)
  {
    assert ([head] + tail)[1..] == tail;
  }
}
