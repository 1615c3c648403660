/**
 * What the three middleware versions see of golang-jwt: decoded claims as a
 * fixed-shape record, signing methods, keys, an idealised signature, and
 * jwt.Parse driven by a key function.
 *
 * The wire encoding (base64url, JSON) and the library's own check of the
 * registered claims are not modelled; they are the function values of a
 * `JwtLibrary`, and `Faithful` says what the model relies on them for.
 */
module Tokens {
  import opened Wrappers

  /** Seconds since the Unix epoch. */
  type Time = int

  /** The issuer (and, in jwt.go, the audience) every version writes and expects. */
  const Issuer: string := "todo"

  /** 30 * time.Minute, the hard-coded lifetime of an access token. */
  const AccessTokenLifetime: int := 30 * 60

  /** A JSON value as it comes back inside jwt.MapClaims (numbers are integral here). */
  datatype Value = Null | Bool(b: bool) | Num(n: int) | Str(s: string) | Composite

  /**
   * A time-valued claim: a JSON number of seconds (what a jwt.NumericDate
   * marshals to), JSON text holding an RFC 3339 timestamp (what a time.Time
   * marshals to), or some other JSON value.
   */
  datatype TimeClaim = NumericDate(seconds: Time) | TimeText(at: Time) | OtherTime(v: Value)

  /** The claims of a token; an absent claim is None (Go's claims[k] == nil). */
  datatype Claims = Claims(
    iss: Option<Value>,
    sub: Option<Value>,
    aud: Option<Value>,
    exp: Option<TimeClaim>,
    iat: Option<TimeClaim>)

  /** claims["iss"] != "todo" is false exactly for this. */
  predicate IssuedHere(c: Claims) {
    c.iss == Some(Str(Issuer))
  }

  /** Outcome of MapClaims.GetExpirationTime. */
  datatype Expiration =
    | NoExpiration          // (nil, nil): the claim is absent, or the number 0
    | ExpiresAt(t: Time)    // a non-zero numeric date
    | MalformedExpiration   // ErrInvalidType: the claim is not a JSON number

  /**
   * MapClaims.GetExpirationTime of golang-jwt v5: a float64 `exp` of 0 is
   * answered (nil, nil), exactly like an absent one.
   */
  function GetExpirationTime(c: Claims): (e: Expiration)
    ensures e.NoExpiration? <==> c.exp.None? || c.exp == Some(NumericDate(0))
    ensures e.MalformedExpiration? <==> c.exp.Some? && !c.exp.value.NumericDate?
    ensures e.ExpiresAt? ==> e.t != 0 && c.exp == Some(NumericDate(e.t))
  {
    match c.exp
    case None => NoExpiration
    case Some(NumericDate(t)) => if t == 0 then NoExpiration else ExpiresAt(t)
    case Some(_) => MalformedExpiration
  }

  /** Signing methods named in a token header. */
  datatype Alg = HS256 | EdDSA | OtherAlg(name: string)

  /** What a key function may hand back: a []byte secret or a Go string. */
  datatype Key = ByteKey(bytes: string) | StringKey(text: string)

  /**
   * An idealised signature: it records the method, key and claims it was
   * computed over, so no one without the key can produce a matching one.
   */
  datatype Signature = Signature(alg: Alg, key: Key, claims: Claims)

  /** A decoded three-part token: header method, claims, signature. */
  datatype Jws = Jws(alg: Alg, claims: Claims, signature: Signature)

  /** token.SignedString's signing step. */
  function Sign(alg: Alg, key: Key, claims: Claims): Jws {
    Jws(alg, claims, Signature(alg, key, claims))
  }

  /**
   * Signature verification for a token and the key its key function chose.
   * HS256 verifies with a []byte key only; the EdDSA verifier accepts only
   * an ed25519.PublicKey, which no key function in this code returns.
   */
  predicate Verifies(key: Key, j: Jws) {
    j.alg == HS256 && key.ByteKey? && j.signature == Signature(HS256, key, j.claims)
  }

  lemma SignedTokenVerifies(secret: string, claims: Claims)
    ensures Verifies(ByteKey(secret), Sign(HS256, ByteKey(secret), claims))
  {
  }

  /** Only the key a token was signed with verifies it. */
  lemma OnlySigningKeyVerifies(signer: Key, verifier: Key, alg: Alg, claims: Claims)
    requires Verifies(verifier, Sign(alg, signer, claims))
    ensures signer == verifier && alg == HS256
  {
  }

  /**
   * The library's encoding and claim checking, as function values:
   * `serialize` is the encoding step of SignedString (None: it failed),
   * `deserialize` the decoding step of jwt.Parse, and `accepts` the
   * library's own validation of registered claims behind token.Valid.
   */
  datatype JwtLibrary = JwtLibrary(
    serialize: Jws -> Option<string>,
    deserialize: string -> Option<Jws>,
    accepts: (Claims, Time) -> bool)

  /** A numeric `exp` strictly after `now`. */
  predicate NotYetExpired(c: Claims, now: Time) {
    c.exp.Some? && c.exp.value.NumericDate? && now < c.exp.value.seconds
  }

  /**
   * What the model relies on the library for: decoding inverts encoding,
   * the empty string is not a token, and the library's own claim check
   * lets through claims whose numeric expiry is still ahead.
   */
  ghost predicate Faithful(lib: JwtLibrary) {
    && (forall j :: lib.serialize(j).Some? ==> lib.deserialize(lib.serialize(j).value) == Some(j))
    && lib.deserialize("") == None
    && (forall c, now :: NotYetExpired(c, now) ==> lib.accepts(c, now))
  }

  /** A parsed token; `valid` is token.Valid, `isMapClaims` whether Claims is a jwt.MapClaims. */
  datatype Token = Token(alg: Alg, claims: Claims, valid: bool, isMapClaims: bool)

  datatype ParseError = Malformed | KeyRefused | BadSignature

  datatype ParseResult = ParseFailed(error: ParseError) | Parsed(token: Token)

  /**
   * jwt.Parse(text, keyFunc): decode, ask the key function for a key for
   * the header's method, verify, then run the library's claim check.
   * jwt.Parse always decodes into jwt.MapClaims.
   */
  function Parse(lib: JwtLibrary, text: string, keyFunc: Alg -> Option<Key>, now: Time): (r: ParseResult)
    ensures r.Parsed? ==> r.token.isMapClaims
    ensures r.Parsed? ==>
      exists j :: lib.deserialize(text) == Some(j) && keyFunc(j.alg).Some? && Verifies(keyFunc(j.alg).value, j)
               && r.token.claims == j.claims && r.token.alg == j.alg
  {
    match lib.deserialize(text)
    case None => ParseFailed(Malformed)
    case Some(j) =>
      match keyFunc(j.alg)
      case None => ParseFailed(KeyRefused)
      case Some(key) =>
        if !Verifies(key, j) then ParseFailed(BadSignature)
        else Parsed(Token(j.alg, j.claims, lib.accepts(j.claims, now), true))
  }

  /** Parse consults the key function only through the key it picks. */
  lemma ParseDependsOnKeyChoice(lib: JwtLibrary, text: string, k1: Alg -> Option<Key>, k2: Alg -> Option<Key>, now: Time)
    requires forall a :: k1(a) == k2(a)
    ensures Parse(lib, text, k1, now) == Parse(lib, text, k2, now)
  {
  }

  /** Under a faithful library, the empty header never parses. */
  lemma EmptyTextNeverParses(lib: JwtLibrary, keyFunc: Alg -> Option<Key>, now: Time)
    requires Faithful(lib)
    ensures Parse(lib, "", keyFunc, now).ParseFailed?
  {
  }

  /**
   * Parsing what was signed with HS256 and a byte key, with a key function
   * that offers the same key for HS256, gives back the signed claims, and
   * the token is valid while its numeric expiry is ahead.
   */
  lemma SignedTokenParses(lib: JwtLibrary, secret: string, claims: Claims, keyFunc: Alg -> Option<Key>, now: Time)
    requires Faithful(lib)
    requires lib.serialize(Sign(HS256, ByteKey(secret), claims)).Some?
    requires keyFunc(HS256) == Some(ByteKey(secret))
    ensures var text := lib.serialize(Sign(HS256, ByteKey(secret), claims)).value;
            Parse(lib, text, keyFunc, now) == Parsed(Token(HS256, claims, lib.accepts(claims, now), true))
    ensures NotYetExpired(claims, now) ==> lib.accepts(claims, now)
  {
  }
}
