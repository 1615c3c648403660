/**
 * pkg/web/jwt.go: issuing access tokens and the `Auth` middleware that
 * guards every todo route.
 *
 * Environment reads (JWT_SECRET_KEY) and time.Now() are parameters; the
 * golang-jwt library is the `lib` parameter.
 */
module WebJwt {
  import opened Wrappers
  import opened Tokens
  import opened Http
  import opened WebError

  /** web.UserID, the context key the authenticated user id is stored under. */
  const UserID: ContextKey := ContextKey("web", "userID")

  const InvalidTokenDetail: string := "missing or invalid token"

  /** The claims CreateAccessToken signs. */
  function AccessClaims(userID: string, now: Time): (c: Claims)
    ensures IssuedHere(c) && c.sub == Some(Str(userID))
    ensures 0 <= now ==> GetExpirationTime(c) == ExpiresAt(now + AccessTokenLifetime)
  {
    Claims(
      iss := Some(Str(Issuer)),
      sub := Some(Str(userID)),
      aud := None,
      exp := Some(NumericDate(now + AccessTokenLifetime)),
      iat := None)
  }

  /** CreateAccessToken: None stands for the error SignedString returns. */
  function CreateAccessToken(lib: JwtLibrary, secret: string, now: Time, userID: string): (r: Option<string>)
    ensures Faithful(lib) && r.Some? ==>
              lib.deserialize(r.value) == Some(Sign(HS256, ByteKey(secret), AccessClaims(userID, now)))
    ensures Faithful(lib) && r.Some? ==>
              var c := lib.deserialize(r.value).value.claims;
              IssuedHere(c) && c.sub == Some(Str(userID)) &&
              (0 <= now ==> GetExpirationTime(c) == ExpiresAt(now + AccessTokenLifetime))
  {
    lib.serialize(Sign(HS256, ByteKey(secret), AccessClaims(userID, now)))
  }

  /** isExpired: time.Now().After(expiresAt), strictly. */
  predicate IsExpired(expiresAt: Time, now: Time) {
    now > expiresAt
  }

  /** The three results of claimsAreValid: true, false, or the nil dereference of an absent `exp`. */
  datatype Check = Pass | Fail | Panic

  /**
   * claimsAreValid. GetExpirationTime answers (nil, nil) for an absent
   * `exp` and for `exp` 0; the `||` then reads expiration.Time, a nil
   * dereference, but only when the issuer test did not already decide.
   */
  function ClaimsAreValid(c: Claims, now: Time): (r: Check)
    ensures !IssuedHere(c) ==> r == Fail
    ensures GetExpirationTime(c).MalformedExpiration? ==> r == Fail
    ensures r == Pass <==> IssuedHere(c) && GetExpirationTime(c).ExpiresAt? && now <= GetExpirationTime(c).t
    ensures r == Panic <==> IssuedHere(c) && (c.exp.None? || c.exp == Some(NumericDate(0)))
  {
    match GetExpirationTime(c)
    case MalformedExpiration => Fail
    case NoExpiration => if !IssuedHere(c) then Fail else Panic
    case ExpiresAt(t) => if !IssuedHere(c) || IsExpired(t, now) then Fail else Pass
  }

  /**
   * claimsAreValid failing closed: an absent `exp` is invalid like a
   * malformed one, instead of a nil dereference.
   */
  function ClaimsAreValidFailClosed(c: Claims, now: Time): (r: bool)
    ensures r <==> IssuedHere(c) && GetExpirationTime(c).ExpiresAt? && !IsExpired(GetExpirationTime(c).t, now)
  {
    match GetExpirationTime(c)
    case ExpiresAt(t) => IssuedHere(c) && !IsExpired(t, now)
    case _ => false
  }

  /** As written, claimsAreValid panics on a "todo"-issued token without `exp`, or with `exp` 0. */
  lemma ClaimsWithoutExpiryPanic(sub: Option<Value>, now: Time)
    ensures ClaimsAreValid(Claims(Some(Str("todo")), sub, None, None, None), now) == Panic
    ensures !ClaimsAreValidFailClosed(Claims(Some(Str("todo")), sub, None, None, None), now)
    ensures ClaimsAreValid(Claims(Some(Str("todo")), sub, None, Some(NumericDate(0)), None), now) == Panic
    ensures !ClaimsAreValidFailClosed(Claims(Some(Str("todo")), sub, None, Some(NumericDate(0)), None), now)
  {
  }

  /** Where the code as written does not panic, the fail-closed rule gives the same verdict. */
  lemma FailClosedAgrees(c: Claims, now: Time)
    ensures ClaimsAreValid(c, now) != Panic ==> (ClaimsAreValid(c, now) == Pass <==> ClaimsAreValidFailClosed(c, now))
    ensures ClaimsAreValid(c, now) == Panic ==> !ClaimsAreValidFailClosed(c, now)
  {
  }

  /** isExpired is strict: a token is still good in the second its `exp` names. */
  lemma IsExpiredIsStrict(t: Time)
    ensures !IsExpired(t, t) && IsExpired(t, t + 1) && !IsExpired(t + 1, t)
  {
  }

  /** defaultKeyFunc: the secret as bytes for HS256, an error for every other method. */
  function DefaultKeyFunc(secret: string, alg: Alg): (k: Option<Key>)
    ensures k.Some? <==> alg == HS256
    ensures k.Some? ==> k.value == ByteKey(secret)
  {
    if alg != HS256 then None else Some(ByteKey(secret))
  }

  /** What Auth does with a request: answer 401, call `next` with a new context, or panic. */
  datatype AuthOutcome = Reject(error: ApiError) | Forward(ctx: Context) | Panicked

  /** The 401 every rejection writes (the underlying error is only logged). */
  function Unauthorized(err: Cause): ApiError {
    ApiError(401, UnauthorizedTitle, InvalidTokenDetail, err)
  }

  /**
   * Auth: parse (with defaultKeyFunc); claims are MapClaims; claimsAreValid;
   * `sub` is a string; then next(w, r.WithContext(ctx + UserID: sub)).
   * There is no separate empty-header test: "" goes to the parser.
   */
  function Auth(lib: JwtLibrary, secret: string, now: Time, header: string, ctx: Context): (o: AuthOutcome)
    ensures o.Reject? ==> o.error.status == 401 && o.error.title == UnauthorizedTitle
                          && o.error.detail == InvalidTokenDetail
  {
    match Parse(lib, header, a => DefaultKeyFunc(secret, a), now)
    case ParseFailed(e) => Reject(Unauthorized(Cause("token parse failure")))
    case Parsed(token) =>
      if !token.valid then Reject(Unauthorized(Cause("token is not valid")))
      else if !token.isMapClaims then Reject(Unauthorized(NoCause))
      else
        match ClaimsAreValid(token.claims, now)
        case Fail => Reject(Unauthorized(NoCause))
        case Panic => Panicked
        case Pass =>
          match token.claims.sub
          case Some(Str(userID)) => Forward(WithValue(ctx, UserID, Str(userID)))
          case _ => Reject(Unauthorized(NoCause))
  }

  /** A token, verified under `secret` with HS256, that Auth would accept at `now`. */
  ghost predicate Admits(lib: JwtLibrary, secret: string, now: Time, header: string, userID: string) {
    exists j ::
      && lib.deserialize(header) == Some(j)
      && j.alg == HS256
      && Verifies(ByteKey(secret), j)
      && lib.accepts(j.claims, now)
      && ClaimsAreValid(j.claims, now) == Pass
      && j.claims.sub == Some(Str(userID))
  }

  /**
   * Auth forwards exactly the requests whose header decodes to an HS256
   * token signed with the secret, valid for the library and for
   * claimsAreValid, with a string subject; the forwarded context holds
   * that subject under UserID and is the old context otherwise.
   */
  lemma AuthForwardsExactlyAdmitted(lib: JwtLibrary, secret: string, now: Time, header: string, ctx: Context)
    ensures Auth(lib, secret, now, header, ctx).Forward? <==>
            exists u :: Admits(lib, secret, now, header, u)
    ensures forall u :: Admits(lib, secret, now, header, u) ==>
              Auth(lib, secret, now, header, ctx) == Forward(ctx[UserID := Str(u)])
  {
    var keyFunc := a => DefaultKeyFunc(secret, a);
    match lib.deserialize(header)
    case None =>
    case Some(j) =>
      if Auth(lib, secret, now, header, ctx).Forward? {
        assert Admits(lib, secret, now, header, j.claims.sub.value.s);
      }
  }

  /** Every request Auth does not forward is answered 401 "missing or invalid token", or panics. */
  lemma AuthRejectsUniformly(lib: JwtLibrary, secret: string, now: Time, header: string, ctx: Context)
    ensures match Auth(lib, secret, now, header, ctx)
            case Reject(e) => e.status == 401 && e.title == UnauthorizedTitle && e.detail == InvalidTokenDetail
            case Forward(c) => StringValue(c, UserID).Some?
            case Panicked => true
  {
  }

  /** The empty header reaches the parser and is rejected there. */
  lemma AuthRejectsEmptyHeader(lib: JwtLibrary, secret: string, now: Time, ctx: Context)
    requires Faithful(lib)
    ensures Auth(lib, secret, now, "", ctx) == Reject(Unauthorized(Cause("token parse failure")))
  {
  }

  /** A token whose header names another signing method than HS256 never gets through. */
  lemma AuthRejectsOtherMethods(lib: JwtLibrary, secret: string, now: Time, header: string, ctx: Context, j: Jws)
    requires lib.deserialize(header) == Some(j) && j.alg != HS256
    ensures Auth(lib, secret, now, header, ctx).Reject?
  {
  }

  /** A token signed with another secret never gets through. */
  lemma AuthRejectsForeignSecret(lib: JwtLibrary, secret: string, other: string, now: Time, header: string,
                                 ctx: Context, claims: Claims)
    requires other != secret
    requires lib.deserialize(header) == Some(Sign(HS256, ByteKey(other), claims))
    ensures Auth(lib, secret, now, header, ctx).Reject?
  {
  }

  /** A token whose issuer is not "todo" never gets through, whatever its expiry. */
  lemma AuthRejectsForeignIssuer(lib: JwtLibrary, secret: string, now: Time, header: string, ctx: Context, j: Jws)
    requires lib.deserialize(header) == Some(j) && !IssuedHere(j.claims)
    ensures Auth(lib, secret, now, header, ctx).Reject?
  {
  }

  /**
   * Round trip: a token from CreateAccessToken(u) at `issued` parses back to
   * iss "todo", sub u and exp issued + 30 min, and Auth forwards it with u
   * under UserID at any `now` before that expiry. The clock reads after the
   * Unix epoch, so that expiry is never the 0 that golang-jwt reads as absent.
   */
  lemma AccessTokenRoundTrip(lib: JwtLibrary, secret: string, issued: Time, userID: string, now: Time, ctx: Context)
    requires Faithful(lib) && 0 <= issued
    requires CreateAccessToken(lib, secret, issued, userID).Some?
    ensures var text := CreateAccessToken(lib, secret, issued, userID).value;
            && Parse(lib, text, a => DefaultKeyFunc(secret, a), now).Parsed?
            && var c := Parse(lib, text, a => DefaultKeyFunc(secret, a), now).token.claims;
               c.iss == Some(Str("todo")) && c.sub == Some(Str(userID))
               && c.exp == Some(NumericDate(issued + 30 * 60))
    ensures now < issued + AccessTokenLifetime ==>
            Auth(lib, secret, now, CreateAccessToken(lib, secret, issued, userID).value, ctx)
              == Forward(ctx[UserID := Str(userID)])
  {
    SignedTokenParses(lib, secret, AccessClaims(userID, issued), a => DefaultKeyFunc(secret, a), now);
  }

  /** The same token is refused once its expiry has passed (here: 31 minutes after issue). */
  lemma AccessTokenExpires(lib: JwtLibrary, secret: string, issued: Time, userID: string, ctx: Context)
    requires Faithful(lib) && 0 <= issued
    requires CreateAccessToken(lib, secret, issued, userID).Some?
    ensures Auth(lib, secret, issued + 31 * 60, CreateAccessToken(lib, secret, issued, userID).value, ctx).Reject?
  {
    SignedTokenParses(lib, secret, AccessClaims(userID, issued), a => DefaultKeyFunc(secret, a), issued + 31 * 60);
  }
}
