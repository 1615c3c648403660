/**
 * old/jwt.go: the earlier version of the token helpers and the `auth`
 * middleware. The claim rules are the current ones; the difference is that
 * `auth` stores claims["sub"] in the context without asking for a string,
 * and that tokens carry an integer subject.
 */
module OldJwt {
  import opened Wrappers
  import opened Tokens
  import opened Http
  import WebJwt

  /** USER_ID, a key of package main's own contextKey type. */
  const OldUserID: ContextKey := ContextKey("main", "userID")

  /** The claims createAccessToken signs: an integer subject. */
  function AccessClaims(userID: int, now: Time): (c: Claims)
    ensures IssuedHere(c) && c.sub == Some(Num(userID))
    ensures 0 <= now ==> GetExpirationTime(c) == ExpiresAt(now + AccessTokenLifetime)
  {
    Claims(
      iss := Some(Str(Issuer)),
      sub := Some(Num(userID)),
      aud := None,
      exp := Some(NumericDate(now + AccessTokenLifetime)),
      iat := None)
  }

  /** createAccessToken: None stands for the error SignedString returns. */
  function CreateAccessToken(lib: JwtLibrary, secret: string, now: Time, userID: int): (r: Option<string>)
    ensures Faithful(lib) && r.Some? ==>
              lib.deserialize(r.value) == Some(Sign(HS256, ByteKey(secret), AccessClaims(userID, now)))
    ensures Faithful(lib) && r.Some? ==>
              var c := lib.deserialize(r.value).value.claims;
              IssuedHere(c) && c.sub == Some(Num(userID)) && c.aud.None? &&
              (0 <= now ==> GetExpirationTime(c) == ExpiresAt(now + AccessTokenLifetime))
  {
    lib.serialize(Sign(HS256, ByteKey(secret), AccessClaims(userID, now)))
  }

  predicate IsExpired(expiresAt: Time, now: Time) {
    now > expiresAt
  }

  function ClaimsAreValid(c: Claims, now: Time): WebJwt.Check {
    match GetExpirationTime(c)
    case MalformedExpiration => WebJwt.Fail
    case NoExpiration => if !IssuedHere(c) then WebJwt.Fail else WebJwt.Panic
    case ExpiresAt(t) => if !IssuedHere(c) || IsExpired(t, now) then WebJwt.Fail else WebJwt.Pass
  }

  function DefaultKeyFunc(secret: string, alg: Alg): (k: Option<Key>)
    ensures k.Some? <==> alg == HS256
    ensures k.Some? ==> k.value == ByteKey(secret)
  {
    if alg != HS256 then None else Some(ByteKey(secret))
  }

  /** A rejection of the old middleware: an apiErrorV2 with this status and detail. */
  datatype Rejection = Rejection(status: int, detail: string)

  datatype AuthOutcome = Reject(rejection: Rejection) | Forward(ctx: Context) | Panicked

  const Unauthorized: Rejection := Rejection(401, "missing or invalid token")

  /** The value claims["sub"] stores in the context; an absent claim is nil. */
  function SubjectValue(c: Claims): Value {
    c.sub.GetOr(Null)
  }

  /** auth: parse, MapClaims, claimsAreValid, then forward with claims["sub"] as it is. */
  function Auth(lib: JwtLibrary, secret: string, now: Time, header: string, ctx: Context): (o: AuthOutcome)
    ensures o.Reject? ==> o.rejection == Unauthorized
  {
    match Parse(lib, header, a => DefaultKeyFunc(secret, a), now)
    case ParseFailed(_) => Reject(Unauthorized)
    case Parsed(token) =>
      if !token.valid || !token.isMapClaims then Reject(Unauthorized)
      else
        match ClaimsAreValid(token.claims, now)
        case Fail => Reject(Unauthorized)
        case Panic => Panicked
        case Pass => Forward(WithValue(ctx, OldUserID, SubjectValue(token.claims)))
  }

  /**
   * The header carries an HS256 token signed with the secret, valid for the
   * library and for claimsAreValid, whose `sub` claim (or nil) is v.
   */
  ghost predicate OldAdmits(lib: JwtLibrary, secret: string, now: Time, header: string, v: Value) {
    exists j ::
      && lib.deserialize(header) == Some(j)
      && j.alg == HS256
      && Verifies(ByteKey(secret), j)
      && lib.accepts(j.claims, now)
      && ClaimsAreValid(j.claims, now) == WebJwt.Pass
      && SubjectValue(j.claims) == v
  }

  /**
   * auth forwards exactly the admitted requests, whatever their subject
   * holds, and the forwarded context is the old one with that subject
   * under USER_ID.
   */
  lemma OldAuthForwardsExactlyAdmitted(lib: JwtLibrary, secret: string, now: Time, header: string, ctx: Context)
    ensures Auth(lib, secret, now, header, ctx).Forward? <==>
            exists v :: OldAdmits(lib, secret, now, header, v)
    ensures forall v :: OldAdmits(lib, secret, now, header, v) ==>
              Auth(lib, secret, now, header, ctx) == Forward(ctx[OldUserID := v])
  {
    match lib.deserialize(header)
    case None =>
    case Some(j) =>
      if Auth(lib, secret, now, header, ctx).Forward? {
        assert OldAdmits(lib, secret, now, header, SubjectValue(j.claims));
      }
  }

  /** The claim rules of old/jwt.go are those of pkg/web/jwt.go. */
  lemma SameRulesAsCurrent(c: Claims, now: Time, expiresAt: Time, secret: string, alg: Alg)
    ensures ClaimsAreValid(c, now) == WebJwt.ClaimsAreValid(c, now)
    ensures IsExpired(expiresAt, now) == WebJwt.IsExpired(expiresAt, now)
    ensures DefaultKeyFunc(secret, alg) == WebJwt.DefaultKeyFunc(secret, alg)
  {
  }

  /**
   * The old middleware forwards exactly what passes claimsAreValid, with no
   * test of the subject's type: whenever the current Auth forwards, it
   * forwards too, with the same subject.
   */
  lemma OldAuthAcceptsMore(lib: JwtLibrary, secret: string, now: Time, header: string, ctx: Context)
    ensures WebJwt.Auth(lib, secret, now, header, ctx).Forward? ==>
              Auth(lib, secret, now, header, ctx).Forward?
              && Auth(lib, secret, now, header, ctx).ctx[OldUserID]
                 == WebJwt.Auth(lib, secret, now, header, ctx).ctx[WebJwt.UserID]
    ensures WebJwt.Auth(lib, secret, now, header, ctx).Panicked? <==>
              Auth(lib, secret, now, header, ctx).Panicked?
  {
    ParseDependsOnKeyChoice(lib, header, a => DefaultKeyFunc(secret, a), a => WebJwt.DefaultKeyFunc(secret, a), now);
  }

  /**
   * Tokens from the old createAccessToken carry an integer subject: the old
   * auth forwards them while fresh, and the current Auth answers 401
   * (issued after the Unix epoch, so the expiry is not 0).
   */
  lemma OldTokensAndCurrentAuth(lib: JwtLibrary, secret: string, issued: Time, userID: int, now: Time, ctx: Context)
    requires Faithful(lib) && 0 <= issued
    requires CreateAccessToken(lib, secret, issued, userID).Some?
    requires now < issued + AccessTokenLifetime
    ensures Auth(lib, secret, now, CreateAccessToken(lib, secret, issued, userID).value, ctx)
              == Forward(ctx[OldUserID := Num(userID)])
    ensures WebJwt.Auth(lib, secret, now, CreateAccessToken(lib, secret, issued, userID).value, ctx).Reject?
  {
    SignedTokenParses(lib, secret, AccessClaims(userID, issued), a => DefaultKeyFunc(secret, a), now);
    SignedTokenParses(lib, secret, AccessClaims(userID, issued), a => WebJwt.DefaultKeyFunc(secret, a), now);
  }

  /** A forwarded request's USER_ID may hold a non-string, even nil. */
  lemma OldAuthForwardsAnySubject(lib: JwtLibrary, secret: string, now: Time, header: string, ctx: Context, j: Jws)
    requires lib.deserialize(header) == Some(j) && Verifies(ByteKey(secret), j)
    requires lib.accepts(j.claims, now) && ClaimsAreValid(j.claims, now) == WebJwt.Pass
    ensures Auth(lib, secret, now, header, ctx) == Forward(ctx[OldUserID := SubjectValue(j.claims)])
  {
  }
}
