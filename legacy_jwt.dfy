/**
 * jwt.go: the legacy token helpers and `withJWTTodoAuth`, a nine-step
 * chain that answers 403 "Access Denied" at the first failed step.
 *
 * Its signing secret (JWT_SECRET_KEY) and its verification secret
 * (JWT_SECRET_TOKEN) are separate parameters, as the environment variables
 * they come from are separate.
 *
 * The chain is written once, over the key function and the expiry test it
 * uses: WithJWTTodoAuth is it with the key function and isExpired of
 * jwt.go, WithJWTTodoAuthIntended with an HS256 key function and a test
 * that is true once the expiry has passed.
 */
module LegacyJwt {
  import opened Wrappers
  import opened Tokens
  import opened Strconv

  /** The claims createAccessToken signs; `exp` and `iat` are time.Time values, which marshal as text. */
  function AccessClaims(userID: int, now: Time): (c: Claims)
    ensures IssuedHere(c) && c.aud == Some(Str(Issuer)) && c.sub == Some(Num(userID))
    ensures GetExpirationTime(c) == MalformedExpiration
  {
    Claims(
      iss := Some(Str(Issuer)),
      sub := Some(Num(userID)),
      aud := Some(Str(Issuer)),
      exp := Some(TimeText(now + AccessTokenLifetime)),
      iat := Some(TimeText(now)))
  }

  /** createAccessToken: HS256 over the JWT_SECRET_KEY secret. */
  function CreateAccessToken(lib: JwtLibrary, secretKey: string, now: Time, userID: int): (r: Option<string>)
    ensures Faithful(lib) && r.Some? ==>
              lib.deserialize(r.value) == Some(Sign(HS256, ByteKey(secretKey), AccessClaims(userID, now)))
    ensures Faithful(lib) && r.Some? ==>
              var c := lib.deserialize(r.value).value.claims;
              IssuedHere(c) && c.sub == Some(Num(userID)) && c.aud == Some(Str(Issuer)) &&
              GetExpirationTime(c) == MalformedExpiration
  {
    lib.serialize(Sign(HS256, ByteKey(secretKey), AccessClaims(userID, now)))
  }

  /** The key function of validateJWT: only EdDSA, and the secret handed back as a Go string. */
  function ValidationKey(secretToken: string, alg: Alg): (k: Option<Key>)
    ensures k.Some? <==> alg == EdDSA
    ensures k.Some? ==> k.value == StringKey(secretToken)
  {
    if alg == EdDSA then Some(StringKey(secretToken)) else None
  }

  /** jwt.Parse with a key function, then the error test: only a valid token comes with a nil error. */
  function Validate(lib: JwtLibrary, keyFunc: Alg -> Option<Key>, now: Time, text: string): (r: Option<Token>)
    ensures r.Some? <==> Parse(lib, text, keyFunc, now).Parsed? && Parse(lib, text, keyFunc, now).token.valid
    ensures r.Some? ==> r.value == Parse(lib, text, keyFunc, now).token
  {
    match Parse(lib, text, keyFunc, now)
    case Parsed(t) => if t.valid then Some(t) else None
    case ParseFailed(_) => None
  }

  /** validateJWT */
  function ValidateJWT(lib: JwtLibrary, secretToken: string, now: Time, text: string): Option<Token> {
    Validate(lib, a => ValidationKey(secretToken, a), now, text)
  }

  /** isExpired: time.Now().Before(expiresAt), true while the token is still ahead of its expiry. */
  predicate IsExpired(expiresAt: Time, now: Time) {
    now < expiresAt
  }

  /** The apiErrorV2 every step answers with: errTypeForbidden, 403, "Access Denied". */
  datatype Denial = Denial(status: int, title: string)

  const AccessDenied: Denial := Denial(403, "Access Denied")

  /** Deny writes AccessDenied; RunHandler calls the wrapped handler; a failed type assertion panics. */
  datatype Outcome = Deny(denial: Denial) | RunHandler | Panicked

  /**
   * The steps after validation: parse {id}, look its todo up (`owner` is
   * GetTodoMetadataByID's UserID, None for an error), compare with
   * int(claims["sub"].(float64)), then issuer, audience, presence of `exp`,
   * and the expiry test.
   */
  function Authorize(c: Claims, idText: string, owner: int -> Option<int>, now: Time,
                     expired: (Time, Time) -> bool): (o: Outcome)
    ensures o == RunHandler <==>
              && Atoi(idText).Some? && c.sub.Some? && c.sub.value.Num?
              && owner(Atoi(idText).value) == Some(c.sub.value.n)
              && IssuedHere(c) && c.aud == Some(Str(Issuer))
              && GetExpirationTime(c).ExpiresAt? && !expired(GetExpirationTime(c).t, now)
    ensures o == Panicked <==>
              Atoi(idText).Some? && owner(Atoi(idText).value).Some? && !(c.sub.Some? && c.sub.value.Num?)
    ensures o.Deny? ==> o.denial == AccessDenied
  {
    match Atoi(idText)
    case None => Deny(AccessDenied)
    case Some(todoID) =>
      match owner(todoID)
      case None => Deny(AccessDenied)
      case Some(userID) =>
        match c.sub
        case Some(Num(sub)) =>
          if userID != sub then Deny(AccessDenied)
          else if !IssuedHere(c) then Deny(AccessDenied)
          else if c.aud != Some(Str(Issuer)) then Deny(AccessDenied)
          else
            (match GetExpirationTime(c)
             case ExpiresAt(t) => if expired(t, now) then Deny(AccessDenied) else RunHandler
             case _ => Deny(AccessDenied))
        case _ => Panicked
  }

  /** The whole chain: empty header, validation, then Authorize. */
  function Chain(lib: JwtLibrary, keyFunc: Alg -> Option<Key>, expired: (Time, Time) -> bool, now: Time,
                 header: string, idText: string, owner: int -> Option<int>): (o: Outcome)
    ensures o.Deny? ==> o.denial == AccessDenied
    ensures o != Deny(AccessDenied) ==>
              header != "" && Validate(lib, keyFunc, now, header).Some?
              && o == Authorize(Validate(lib, keyFunc, now, header).value.claims, idText, owner, now, expired)
  {
    if header == "" then Deny(AccessDenied)
    else
      match Validate(lib, keyFunc, now, header)
      case None => Deny(AccessDenied)
      case Some(token) => Authorize(token.claims, idText, owner, now, expired)
  }

  /** withJWTTodoAuth as written. */
  function WithJWTTodoAuth(lib: JwtLibrary, secretToken: string, now: Time, header: string,
                           idText: string, owner: int -> Option<int>): Outcome {
    Chain(lib, a => ValidationKey(secretToken, a), IsExpired, now, header, idText, owner)
  }

  /** No token at all passes validateJWT: EdDSA is demanded, and a string is no Ed25519 key. */
  lemma ValidateJWTRejectsEverything(lib: JwtLibrary, secretToken: string, now: Time, text: string)
    ensures ValidateJWT(lib, secretToken, now, text).None?
  {
  }

  /** Tokens createAccessToken issues are HS256, which validateJWT refuses before any verification. */
  lemma IssuedTokensRefusedByKeyFunction(lib: JwtLibrary, secretKey: string, secretToken: string,
                                         issued: Time, userID: int, now: Time)
    requires Faithful(lib)
    requires CreateAccessToken(lib, secretKey, issued, userID).Some?
    ensures Parse(lib, CreateAccessToken(lib, secretKey, issued, userID).value,
                  a => ValidationKey(secretToken, a), now) == ParseFailed(KeyRefused)
  {
  }

  /** So the wrapped handler never runs, whatever the request. */
  lemma HandlerNeverRuns(lib: JwtLibrary, secretToken: string, now: Time, header: string,
                         idText: string, owner: int -> Option<int>)
    ensures WithJWTTodoAuth(lib, secretToken, now, header, idText, owner) != RunHandler
    ensures WithJWTTodoAuth(lib, secretToken, now, header, idText, owner) == Deny(AccessDenied)
  {
    ValidateJWTRejectsEverything(lib, secretToken, now, header);
  }

  /** The empty header is denied whatever the library would make of it: validation is not reached. */
  lemma EmptyHeaderDeniedFirst(lib: JwtLibrary, keyFunc: Alg -> Option<Key>, expired: (Time, Time) -> bool,
                               now: Time, idText: string, owner: int -> Option<int>)
    ensures Chain(lib, keyFunc, expired, now, "", idText, owner) == Deny(AccessDenied)
  {
  }

  /** A {id} that is not an integer is denied. */
  lemma NonIntegerIdDenied(c: Claims, idText: string, owner: int -> Option<int>, now: Time, expired: (Time, Time) -> bool)
    requires Atoi(idText).None?
    ensures Authorize(c, idText, owner, now, expired) == Deny(AccessDenied)
  {
  }

  /** A failed ownership lookup is a 403 like every other step, not a 404. */
  lemma LookupFailureDenied(c: Claims, idText: string, owner: int -> Option<int>, now: Time, expired: (Time, Time) -> bool)
    requires Atoi(idText).Some? && owner(Atoi(idText).value).None?
    ensures Authorize(c, idText, owner, now, expired) == Deny(AccessDenied)
  {
  }

  /**
   * Ownership is decided before issuer, audience and expiry: a subject that
   * is not a number panics, and a numeric subject that is not the owner is
   * denied, however the later claims look.
   */
  lemma OwnershipComesFirst(c: Claims, idText: string, owner: int -> Option<int>, now: Time, expired: (Time, Time) -> bool)
    requires Atoi(idText).Some? && owner(Atoi(idText).value).Some?
    ensures !(c.sub.Some? && c.sub.value.Num?) ==> Authorize(c, idText, owner, now, expired) == Panicked
    ensures c.sub.Some? && c.sub.value.Num? && c.sub.value.n != owner(Atoi(idText).value).value ==>
              Authorize(c, idText, owner, now, expired) == Deny(AccessDenied)
  {
  }

  /**
   * The inverted isExpired: for otherwise acceptable claims with a numeric
   * `exp`, the handler would run exactly when the token has expired (or
   * expires this second), and every token still ahead of its expiry is
   * denied; an `exp` of 0 reads as absent and is denied too.
   */
  lemma OnlyExpiredTokensPass(sub: int, t: Time, idText: string, owner: int -> Option<int>, now: Time)
    requires Atoi(idText).Some? && owner(Atoi(idText).value) == Some(sub)
    ensures var c := Claims(Some(Str(Issuer)), Some(Num(sub)), Some(Str(Issuer)), Some(NumericDate(t)), None);
            Authorize(c, idText, owner, now, IsExpired) == RunHandler <==> t != 0 && t <= now
  {
  }

  /**
   * Even past the key function, the claims createAccessToken writes would be
   * denied: their `exp` is text, which GetExpirationTime refuses.
   */
  lemma IssuedClaimsNeverAuthorized(userID: int, issued: Time, idText: string, owner: int -> Option<int>,
                                    now: Time, expired: (Time, Time) -> bool)
    ensures AccessClaims(userID, issued).iss == Some(Str("todo")) && AccessClaims(userID, issued).aud == Some(Str("todo"))
    ensures AccessClaims(userID, issued).sub == Some(Num(userID))
    ensures GetExpirationTime(AccessClaims(userID, issued)) == MalformedExpiration
    ensures Authorize(AccessClaims(userID, issued), idText, owner, now, expired).Deny?
  {
  }

  // ---------------------------------------------------------------------------
  // The chain as evidently intended

  /** Claims with numeric dates, as jwt.NewNumericDate would write them. */
  function AccessClaimsIntended(userID: int, now: Time): (c: Claims)
    ensures c.exp == Some(NumericDate(now + AccessTokenLifetime))
    ensures now + AccessTokenLifetime != 0 ==> GetExpirationTime(c) == ExpiresAt(now + AccessTokenLifetime)
    ensures IssuedHere(c) && c.aud == Some(Str(Issuer)) && c.sub == Some(Num(userID))
  {
    AccessClaims(userID, now).(exp := Some(NumericDate(now + AccessTokenLifetime)), iat := Some(NumericDate(now)))
  }

  function CreateAccessTokenIntended(lib: JwtLibrary, secret: string, now: Time, userID: int): (r: Option<string>)
    ensures Faithful(lib) && r.Some? ==>
              lib.deserialize(r.value) == Some(Sign(HS256, ByteKey(secret), AccessClaimsIntended(userID, now)))
  {
    lib.serialize(Sign(HS256, ByteKey(secret), AccessClaimsIntended(userID, now)))
  }

  /** A key function for the method tokens are signed with, handing back the secret as bytes. */
  function ValidationKeyIntended(secret: string, alg: Alg): (k: Option<Key>)
    ensures k.Some? <==> alg == HS256
    ensures k.Some? ==> k.value == ByteKey(secret)
  {
    if alg == HS256 then Some(ByteKey(secret)) else None
  }

  /** Expired once `now` is past the expiry. */
  predicate IsExpiredIntended(expiresAt: Time, now: Time) {
    now > expiresAt
  }

  function WithJWTTodoAuthIntended(lib: JwtLibrary, secret: string, now: Time, header: string,
                                   idText: string, owner: int -> Option<int>): Outcome {
    Chain(lib, a => ValidationKeyIntended(secret, a), IsExpiredIntended, now, header, idText, owner)
  }

  /** With the intended expiry test, exactly the tokens whose expiry has not passed get through. */
  lemma IntendedExpiryPassesUnexpired(sub: int, t: Time, idText: string, owner: int -> Option<int>, now: Time)
    requires Atoi(idText).Some? && owner(Atoi(idText).value) == Some(sub)
    ensures var c := Claims(Some(Str(Issuer)), Some(Num(sub)), Some(Str(Issuer)), Some(NumericDate(t)), None);
            Authorize(c, idText, owner, now, IsExpiredIntended) == RunHandler <==> t != 0 && now <= t
  {
  }

  /**
   * The intended chain lets the owner in with a token issued to them,
   * until it expires, and denies it afterwards; anyone else is denied
   * (issued after the Unix epoch, so the expiry is not 0).
   */
  lemma IntendedChainAdmitsFreshOwnerTokens(lib: JwtLibrary, secret: string, issued: Time, userID: int,
                                            idText: string, owner: int -> Option<int>, now: Time)
    requires Faithful(lib) && 0 <= issued
    requires CreateAccessTokenIntended(lib, secret, issued, userID).Some?
    requires Atoi(idText).Some? && owner(Atoi(idText).value).Some?
    ensures var header := CreateAccessTokenIntended(lib, secret, issued, userID).value;
            && (now < issued + AccessTokenLifetime && owner(Atoi(idText).value) == Some(userID) ==>
                  WithJWTTodoAuthIntended(lib, secret, now, header, idText, owner) == RunHandler)
            && (owner(Atoi(idText).value) != Some(userID) ==>
                  WithJWTTodoAuthIntended(lib, secret, now, header, idText, owner) == Deny(AccessDenied))
            && (now > issued + AccessTokenLifetime ==>
                  WithJWTTodoAuthIntended(lib, secret, now, header, idText, owner) != RunHandler)
  {
    var claims := AccessClaimsIntended(userID, issued);
    var keyFunc := a => ValidationKeyIntended(secret, a);
    SignedTokenParses(lib, secret, claims, keyFunc, now);
    var header := CreateAccessTokenIntended(lib, secret, issued, userID).value;
    if now < issued + AccessTokenLifetime {
      assert NotYetExpired(claims, now);
      assert Validate(lib, keyFunc, now, header) == Some(Token(HS256, claims, true, true));
    }
  }
}
