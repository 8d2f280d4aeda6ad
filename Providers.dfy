/** `JwtBasedAuthenticationProvider` of both trees: turn an unauthenticated
    token into an authenticated one whose principal is the caller's context,
    or fail with the exception the first failing step throws. The signing
    secret comes from configuration and the clock is a parameter. */
module Providers {
  import opened Common
  import opened Uuids
  import opened Jws
  import opened UserContextBuilder
  import opened AuthenticationToken
  import JwtUtils
  import JwtService

  const UuidTooLargeMessage := "UUID string too large"

  /** `UUID.fromString` on canonical input; a null string throws
      NullPointerException and anything else IllegalArgumentException. */
  function ParseUuid(s: Option<string>): (r: Result<Uuid>)
    ensures s.None? ==> r.Err? && r.error.NullPointer?
    ensures s.Some? ==> (r.Ok? <==> Canonical(s.value))
    ensures s.Some? && r.Ok? ==> r.value == FromString(s.value).value
    ensures r.Err? ==> r.error.NullPointer? || r.error.IllegalArgument?
  {
    if s.None? then Err(NullPointer(""))
    else if |s.value| > 36 then Err(IllegalArgument(UuidTooLargeMessage))
    else match FromString(s.value)
      case Some(u) => Ok(u)
      case None => Err(IllegalArgument("Invalid UUID string: " + s.value))
  }

  /** `claims.getAudience().stream().toList().get(0)`. */
  function FirstAudience(claims: Claims): (r: Result<string>)
    ensures Audience(claims).None? ==> r.Err? && r.error.NullPointer?
    ensures Audience(claims) == Some([]) ==> r == Err(IndexOutOfBounds)
    ensures r.Ok? <==> Audience(claims).Some? && |Audience(claims).value| > 0
    ensures r.Ok? ==> r.value == Audience(claims).value[0]
  {
    match Audience(claims)
    case None => Err(NullPointer(""))
    case Some(list) => if |list| == 0 then Err(IndexOutOfBounds) else Ok(list[0])
  }

  /** The steps of `authenticate` up to the principal: key, payload, the first
      audience as the user id, then the context. */
  function ResolvePrincipal(c: Codec, secret: Option<string>, token: Option<string>, now: Long): Result<RequestContext> {
    var key :- JwtUtils.GenerateSecretKey(secret);
    var claims :- JwtUtils.GetPayload(c, token, Some(key), now);
    var audience :- FirstAudience(claims);
    var userId :- ParseUuid(Some(audience));
    Ok(PrepareContext(userId))
  }

  /** `authenticate`: a new authenticated token carrying the same raw token and
      the resolved context, or the exception of the failing step. */
  method Authenticate(c: Codec, secret: Option<string>, auth: JwtAuthenticationToken<RequestContext>, now: Long)
    returns (r: Result<JwtAuthenticationToken<RequestContext>>)
    ensures r.Ok? <==> ResolvePrincipal(c, secret, auth.token, now).Ok?
    ensures r.Err? ==> r.error == ResolvePrincipal(c, secret, auth.token, now).error
    ensures r.Ok? ==> fresh(r.value) && r.value.token == auth.token && r.value.authenticated
    ensures r.Ok? ==> r.value.principal == Some(ResolvePrincipal(c, secret, auth.token, now).value)
  {
    var principal := ResolvePrincipal(c, secret, auth.token, now);
    if principal.Err? {
      return Err(principal.error);
    }
    var result := new JwtAuthenticationToken.Authenticated(auth.token, Some(principal.value));
    return Ok(result);
  }

  /** A class by name with the names of its superclasses. */
  datatype AuthenticationClass = AuthenticationClass(name: string, superclasses: seq<string>)

  const TokenClassName := "com.authauz.authauz.security.token.JwtAuthenticationToken"
  const LegacyTokenClassName := "com.authAuz.authAuz.security.token.JwtAuthenticationToken"

  /** `target.class.isAssignableFrom(cls)`: the class is the target or extends it. */
  predicate AssignableTo(cls: AuthenticationClass, target: string) {
    cls.name == target || target in cls.superclasses
  }

  /** `supports` of the current provider. */
  predicate Supports(cls: AuthenticationClass) {
    AssignableTo(cls, TokenClassName)
  }

  /** `supports` of the older provider. */
  predicate LegacySupports(cls: AuthenticationClass) {
    AssignableTo(cls, LegacyTokenClassName)
  }

  /** Whatever its superclasses, each tree's own token class is supported by
      its provider, and the other tree's token class is not unless it extends
      the supported one. */
  lemma SupportsOwnTokenOnly(superclasses: seq<string>)
    ensures Supports(AuthenticationClass(TokenClassName, superclasses))
    ensures LegacySupports(AuthenticationClass(LegacyTokenClassName, superclasses))
    ensures !Supports(AuthenticationClass(LegacyTokenClassName, superclasses)) <==> TokenClassName !in superclasses
    ensures !LegacySupports(AuthenticationClass(TokenClassName, superclasses)) <==> LegacyTokenClassName !in superclasses
  {
  }

  /** A subclass of a supported class is supported, by either provider. */
  lemma SubclassSupported(parent: AuthenticationClass, name: string)
    ensures Supports(parent) ==> Supports(AuthenticationClass(name, [parent.name] + parent.superclasses))
    ensures LegacySupports(parent) ==> LegacySupports(AuthenticationClass(name, [parent.name] + parent.superclasses))
  {
  }

  /** A token issued with the configured secret and a user id as its audience,
      read within its time window, resolves to that user's context. */
  lemma IssuedTokenResolves(c: Codec, secret: string, subject: string, userId: Uuid, claims: map<string, string>,
                            expiresIn: Int32, now: Long, jti: Uuid, t: Long)
    requires WellBehaved(c)
    requires JwtUtils.GenerateSecretKey(Some(secret)).Ok?
    requires JwtUtils.SafeTimes(now, expiresIn, t)
    requires now - 9000 <= t <= now + expiresIn * 1000 + 9000
    ensures var key := JwtUtils.GenerateSecretKey(Some(secret)).value;
      var token := JwtUtils.GenerateTokenWithClaims(c, Some(subject), Some(ToString(userId)), claims, expiresIn, Some(key), now, jti);
      token.Ok? && ResolvePrincipal(c, Some(secret), Some(token.value), t) == Ok(PrepareContext(userId))
  {
    var key := JwtUtils.GenerateSecretKey(Some(secret)).value;
    var aud := ToString(userId);
    JwtUtils.TokenRoundTrip(c, subject, aud, claims, expiresIn, key, now, jti, t);
    FromStringToString(userId);
  }

  /** A missing or unusable secret fails before the token is looked at. */
  lemma SecretCheckedFirst(c: Codec, secret: Option<string>, token: Option<string>, now: Long)
    requires JwtUtils.GenerateSecretKey(secret).Err?
    ensures ResolvePrincipal(c, secret, token, now) == Err(JwtUtils.GenerateSecretKey(secret).error)
  {
  }

  /** Whatever the token, a successful resolution yields the fixed SELLER/ADMIN
      classification and a user id whose canonical string is the token's first audience. */
  lemma ResolvedContextShape(c: Codec, secret: Option<string>, token: Option<string>, now: Long)
    requires ResolvePrincipal(c, secret, token, now).Ok?
    ensures var ctx := ResolvePrincipal(c, secret, token, now).value;
      var claims := JwtUtils.GetPayload(c, token, JwtUtils.GenerateSecretKey(secret).ToOption(), now).value;
      && ctx.userType == SELLER && ctx.role == ADMIN
      && Audience(claims).Some? && |Audience(claims).value| > 0
      && ToString(ctx.userId) == Lower(Audience(claims).value[0])
  {
    var key := JwtUtils.GenerateSecretKey(secret).value;
    var claims := JwtUtils.GetPayload(c, token, Some(key), now).value;
    ToStringFromString(Audience(claims).value[0]);
  }

  // ---- The older tree ----

  /** The older `authenticate`: its own key and payload checks, the subject as
      the authentication id, the first audience as the seller location id,
      then its builder (which keeps neither). */
  function LegacyResolvePrincipal(c: Codec, secret: Option<string>, token: Option<string>, now: Long)
    : Result<LegacyRequestContext>
  {
    var key :- JwtService.GenerateSecretKey(secret);
    var claims :- JwtService.GetPayload(c, token, Some(key), now);
    var authId :- ParseUuid(Subject(claims));
    var audience :- FirstAudience(claims);
    var sellerLocationId :- ParseUuid(Some(audience));
    Ok(LegacyPrepareContext(authId, sellerLocationId))
  }

  method LegacyAuthenticate(c: Codec, secret: Option<string>, auth: JwtAuthenticationToken<LegacyRequestContext>, now: Long)
    returns (r: Result<JwtAuthenticationToken<LegacyRequestContext>>)
    ensures r.Ok? <==> LegacyResolvePrincipal(c, secret, auth.token, now).Ok?
    ensures r.Err? ==> r.error == LegacyResolvePrincipal(c, secret, auth.token, now).error
    ensures r.Ok? ==> fresh(r.value) && r.value.token == auth.token && r.value.authenticated
    ensures r.Ok? ==> r.value.principal == Some(LegacyResolvePrincipal(c, secret, auth.token, now).value)
  {
    var principal := LegacyResolvePrincipal(c, secret, auth.token, now);
    if principal.Err? {
      return Err(principal.error);
    }
    var result := new JwtAuthenticationToken.Authenticated(auth.token, Some(principal.value));
    return Ok(result);
  }

  /** The older provider authenticates only tokens whose subject is a UUID,
      and the context it hands on is empty. */
  lemma LegacyNeedsUuidSubject(c: Codec, secret: Option<string>, token: Option<string>, now: Long)
    requires LegacyResolvePrincipal(c, secret, token, now).Ok?
    ensures var key := JwtService.GenerateSecretKey(secret).value;
      var claims := JwtService.GetPayload(c, token, Some(key), now).value;
      Subject(claims).Some? && Canonical(Subject(claims).value)
    ensures LegacyResolvePrincipal(c, secret, token, now).value == LegacyRequestContext(None, None)
  {
  }

  /** A token the current login issues for a non-UUID user name is refused by
      the older provider even though its signature and dates are good. */
  lemma LegacyRefusesUserNameSubject(c: Codec, secret: string, subject: string, userId: Uuid,
                                     claims: map<string, string>, expiresIn: Int32, now: Long, jti: Uuid, t: Long)
    requires WellBehaved(c)
    requires JwtUtils.GenerateSecretKey(Some(secret)).Ok?
    requires JwtUtils.SafeTimes(now, expiresIn, t)
    requires now - 9000 <= t <= now + expiresIn * 1000 + 9000
    requires "sub" !in claims && !Canonical(subject)
    ensures var key := JwtUtils.GenerateSecretKey(Some(secret)).value;
      var token := JwtUtils.GenerateTokenWithClaims(c, Some(subject), Some(ToString(userId)), claims, expiresIn, Some(key), now, jti);
      token.Ok? && LegacyResolvePrincipal(c, Some(secret), Some(token.value), t).Err?
  {
    var key := JwtUtils.GenerateSecretKey(Some(secret)).value;
    JwtService.SecretKeyChecksCompared(secret);
    var aud := ToString(userId);
    JwtUtils.TokenRoundTrip(c, subject, aud, claims, expiresIn, key, now, jti, t);
    var token := JwtUtils.GenerateTokenWithClaims(c, Some(subject), Some(aud), claims, expiresIn, Some(key), now, jti);
    JwtService.PayloadReadersAgree(c, token.value, key, t);
  }
}
