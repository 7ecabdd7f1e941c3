/**
 Stored secrets, and signed tokens for sessions and for CSRF protection. Key derivation, signing
 and JSON are parameters; comparing text in constant time raises TypeError unless it is ASCII.
 */
module Security {
  import opened Wrappers
  import opened Texts
  import opened Base64Url

  datatype Claims = Claims(sub: Option<string>, exp: Option<int>, nonce: string, kind: Option<string>)

  datatype Scheme = Scheme(
    sign: (string, string) -> string,
    dumps: Claims -> seq<Byte>,
    loads: seq<Byte> -> Option<Claims>)

  /** Signatures are hexadecimal, and what is dumped is loaded again. */
  ghost predicate Faithful(h: Scheme) {
    && (forall key, value :: IsAscii(h.sign(key, value)))
    && (forall claims :: h.loads(h.dumps(claims)) == Some(claims))
  }

  datatype Outcome<+T> = Value(value: T) | TypeError

  function SameText(a: string, b: string): Outcome<bool> {
    if IsAscii(a) && IsAscii(b) then Outcome.Value(a == b) else TypeError
  }

  // ----- Signed payloads -----

  function BuildSignedPayload(h: Scheme, key: string, claims: Claims): string {
    var encoded := Encode(h.dumps(claims));
    encoded + "." + h.sign(key, encoded)
  }

  function ParseSignedPayload(h: Scheme, key: string, token: string): Outcome<Option<Claims>> {
    var dot := IndexOf(token, '.');
    if dot == |token| then Outcome.Value(None)
    else
      var encoded, signature := token[..dot], token[dot + 1..];
      match SameText(signature, h.sign(key, encoded))
      case TypeError => TypeError
      case Value(same) =>
        if !same then Outcome.Value(None)
        else
          match Decode(encoded)
          case None => Outcome.Value(None)
          case Some(bytes) => Outcome.Value(h.loads(bytes))
  }

  // ----- Tokens -----

  function BuildToken(h: Scheme, key: string, username: string, expires: int, nonce: string, kind: string): string {
    BuildSignedPayload(h, key, Claims(Some(username), Some(expires), nonce, Some(kind)))
  }

  function BuildSessionToken(h: Scheme, key: string, username: string, ttl: int, nonce: string, now: int): string {
    BuildToken(h, key, username, now + ttl, nonce, "session")
  }

  function BuildCsrfToken(h: Scheme, key: string, username: string, ttl: int, nonce: string, now: int): string {
    BuildToken(h, key, username, now + ttl, nonce, "csrf")
  }

  predicate Expired(claims: Claims, now: int) {
    (if claims.exp.Some? then claims.exp.value else 0) < now
  }

  /** Who a session token speaks for, if anybody. */
  function ParseSessionToken(h: Scheme, key: string, token: string, now: int): Outcome<Option<string>> {
    match ParseSignedPayload(h, key, token)
    case TypeError => TypeError
    case Value(None) => Outcome.Value(None)
    case Value(Some(claims)) =>
      if claims.kind != Some("session") || Expired(claims, now) then Outcome.Value(None)
      else if claims.sub == None || claims.sub == Some("") then Outcome.Value(None)
      else Outcome.Value(claims.sub)
  }

  function VerifyCsrfToken(h: Scheme, key: string, token: string, username: string, now: int): Outcome<bool> {
    match ParseSignedPayload(h, key, token)
    case TypeError => TypeError
    case Value(None) => Outcome.Value(false)
    case Value(Some(claims)) =>
      if claims.kind != Some("csrf") || Expired(claims, now) then Outcome.Value(false)
      else SameText(if claims.sub.Some? then claims.sub.value else "", username)
  }

  // ----- What a token is worth -----

  lemma PlainHasNo(s: string, c: char)
    requires Plain(s) && !PlainChar(c)
    ensures c !in s
  {
  }

  lemma SplitAt(a: string, c: char, b: string)
    requires c !in a
    ensures var s := a + [c] + b; var i := IndexOf(s, c);
            i == |a| < |s| && s[..i] == a && s[i + 1..] == b
  {
    IndexOfJoin(a, c, b);
  }

  /** A token gives back the payload it was built from. */
  lemma SignedRoundTrip(h: Scheme, key: string, claims: Claims)
    requires Faithful(h)
    ensures ParseSignedPayload(h, key, BuildSignedPayload(h, key, claims)) == Outcome.Value(Some(claims))
  {
    var encoded := Encode(h.dumps(claims));
    RoundTrip(h.dumps(claims));
    PaddedShape(h.dumps(claims));
    PlainHasNo(encoded, '.');
    SplitAt(encoded, '.', h.sign(key, encoded));
  }

  /** The token is text without a dot, a dot, and the signature of that text. */
  ghost predicate SignedBy(h: Scheme, key: string, token: string, e: string) {
    '.' !in e && token == e + "." + h.sign(key, e)
  }

  /** Nothing is parsed but what was signed with the key, and it says what the signed text says. */
  lemma ParsesOnlySigned(h: Scheme, key: string, token: string, claims: Claims)
    requires Faithful(h)
    ensures ParseSignedPayload(h, key, token) == Outcome.Value(Some(claims))
       <==> exists e :: SignedBy(h, key, token, e) && Decode(e).Some? && h.loads(Decode(e).value) == Some(claims)
  {
    var dot := IndexOf(token, '.');
    if dot < |token| {
      assert token == token[..dot] + "." + token[dot + 1..];
      if token[dot + 1..] == h.sign(key, token[..dot]) { assert SignedBy(h, key, token, token[..dot]); }
    }
    forall e | SignedBy(h, key, token, e)
      ensures dot == |e| < |token| && token[..dot] == e && token[dot + 1..] == h.sign(key, e)
    {
      SplitAt(e, '.', h.sign(key, e));
    }
  }

  /** What the two kinds of token carry. */
  lemma TokensCarry(h: Scheme, key: string, username: string, ttl: int, nonce: string, issued: int)
    requires Faithful(h)
    ensures ParseSignedPayload(h, key, BuildSessionToken(h, key, username, ttl, nonce, issued))
         == Outcome.Value(Some(Claims(Some(username), Some(issued + ttl), nonce, Some("session"))))
    ensures ParseSignedPayload(h, key, BuildCsrfToken(h, key, username, ttl, nonce, issued))
         == Outcome.Value(Some(Claims(Some(username), Some(issued + ttl), nonce, Some("csrf"))))
  {
    SignedRoundTrip(h, key, Claims(Some(username), Some(issued + ttl), nonce, Some("session")));
    SignedRoundTrip(h, key, Claims(Some(username), Some(issued + ttl), nonce, Some("csrf")));
  }

  /** A session token speaks for its user, who must have a name, up to and including the second
      it expires in. */
  lemma SessionLasts(h: Scheme, key: string, username: string, ttl: int, nonce: string, issued: int, now: int)
    requires Faithful(h)
    ensures ParseSessionToken(h, key, BuildSessionToken(h, key, username, ttl, nonce, issued), now)
         == Outcome.Value(if username != "" && now <= issued + ttl then Some(username) else None)
  {
    SignedRoundTrip(h, key, Claims(Some(username), Some(issued + ttl), nonce, Some("session")));
  }

  /** A CSRF token verifies exactly for its own user and until it expires -- provided both names
      are ASCII, without which a live token makes the comparison raise. */
  lemma CsrfVerifiesIff(h: Scheme, key: string, owner: string, ttl: int, nonce: string, issued: int,
                        username: string, now: int)
    requires Faithful(h)
    ensures var r := VerifyCsrfToken(h, key, BuildCsrfToken(h, key, owner, ttl, nonce, issued), username, now);
            && (r == TypeError <==> now <= issued + ttl && !(IsAscii(owner) && IsAscii(username)))
            && (r == Outcome.Value(true) <==> now <= issued + ttl && owner == username && IsAscii(owner))
  {
    SignedRoundTrip(h, key, Claims(Some(owner), Some(issued + ttl), nonce, Some("csrf")));
  }

  /** Neither kind of token passes for the other. */
  lemma KindsApart(h: Scheme, key: string, owner: string, ttl: int, nonce: string, issued: int,
                   username: string, now: int)
    requires Faithful(h)
    ensures ParseSessionToken(h, key, BuildCsrfToken(h, key, owner, ttl, nonce, issued), now) == Outcome.Value(None)
    ensures VerifyCsrfToken(h, key, BuildSessionToken(h, key, owner, ttl, nonce, issued), username, now)
         == Outcome.Value(false)
  {
    SignedRoundTrip(h, key, Claims(Some(owner), Some(issued + ttl), nonce, Some("csrf")));
    SignedRoundTrip(h, key, Claims(Some(owner), Some(issued + ttl), nonce, Some("session")));
  }

  // ----- Stored secrets -----

  const ITERATIONS := 390000

  type Derivation = (string, seq<Byte>, int) -> seq<Byte>

  function HashSecret(derive: Derivation, secret: string, salt: seq<Byte>): string {
    Show(ITERATIONS) + "$" + (Encode(salt) + "$" + Encode(derive(secret, salt, ITERATIONS)))
  }

  function VerifySecret(derive: Derivation, secret: string, stored: string): bool {
    var first := IndexOf(stored, '$');
    first < |stored| &&
    var rest := stored[first + 1..];
    var second := IndexOf(rest, '$');
    second < |rest| &&
    match (Read(stored[..first]), Decode(rest[..second]), Decode(rest[second + 1..]))
    case (Some(iterations), Some(salt), Some(expected)) => derive(secret, salt, iterations) == expected
    case _ => false
  }

  lemma IterationsShown()
    ensures Show(ITERATIONS) == "390000"
  {
    assert Digits(3) == "3" && Digits(39) == "39" && Digits(390) == "390";
    assert Digits(3900) == "3900" && Digits(39000) == "39000";
  }

  /** A stored secret names its work factor, its salt and its digest, in that order. */
  lemma StoredForm(derive: Derivation, secret: string, salt: seq<Byte>)
    ensures HashSecret(derive, secret, salt)
         == "390000" + "$" + (Encode(salt) + "$" + Encode(derive(secret, salt, 390000)))
  {
    IterationsShown();
  }

  /** A secret verifies against a stored one exactly if the same digest is derived from both:
      the stored text loses nothing of the salt, the digest or the work factor. */
  lemma SecretVerifiesIff(derive: Derivation, secret: string, salt: seq<Byte>, presented: string)
    ensures VerifySecret(derive, presented, HashSecret(derive, secret, salt))
       <==> derive(presented, salt, ITERATIONS) == derive(secret, salt, ITERATIONS)
  {
    var digest := derive(secret, salt, ITERATIONS);
    var rest := Encode(salt) + "$" + Encode(digest);
    ShowRead(ITERATIONS);
    ShowPlain(ITERATIONS);
    RoundTrip(salt);
    PaddedShape(salt);
    PlainHasNo(Encode(salt), '$');
    RoundTrip(digest);
    SplitAt(Show(ITERATIONS), '$', rest);
    SplitAt(Encode(salt), '$', Encode(digest));
  }
}
