/** `JwtUtils`: issuing and reading the signed session tokens of the current
    tree. The clock (`new Date()`) and the random token id are parameters. */
module JwtUtils {
  import opened Common
  import opened Uuids
  import opened Jws

  const SubjectNullMessage := "Token subject must not be null"
  const AudienceNullMessage := "Token audience must not be null"
  const KeyNullMessage := "Secret key must not be null"
  const KeyMissingMessage := "Authentication signing key is missing."
  const TokenMissingMessage := "Authentication token is missing."
  const TokenInvalidMessage := "Authentication token is invalid."
  const TokenExpiredMessage := "Authentication token has expired."

  /** `validateInputs`: subject, audience and key must be non-null, checked in that order. */
  function ValidateInputs(subject: Option<string>, audience: Option<string>, key: Option<SecretKey>): (r: Outcome)
    ensures r == Normal <==> subject.Some? && audience.Some? && key.Some?
    ensures subject.None? ==> r == Thrown(NullPointer(SubjectNullMessage))
    ensures subject.Some? && audience.None? ==> r == Thrown(NullPointer(AudienceNullMessage))
    ensures subject.Some? && audience.Some? && key.None? ==> r == Thrown(NullPointer(KeyNullMessage))
  {
    if subject.None? then Thrown(NullPointer(SubjectNullMessage))
    else if audience.None? then Thrown(NullPointer(AudienceNullMessage))
    else if key.None? then Thrown(NullPointer(KeyNullMessage))
    else Normal
  }

  /** `issuedAt.getTime() + expiresIn * 1000L` in `long` arithmetic. */
  function ExpirationMillis(issuedAt: Long, expiresIn: Int32): Long {
    WrapLong(issuedAt + expiresIn * 1000)
  }

  /** `generateToken(subject, audience, claims, expiresIn, secretKey)` at time `now`
      with token id `jti`. */
  function GenerateTokenWithClaims(c: Codec, subject: Option<string>, audience: Option<string>,
                                   claims: map<string, string>, expiresIn: Int32, key: Option<SecretKey>,
                                   now: Long, jti: Uuid): (r: Result<string>)
    ensures r.Ok? <==> ValidateInputs(subject, audience, key) == Normal
    ensures r.Err? ==> Thrown(r.error) == ValidateInputs(subject, audience, key)
    ensures r.Ok? ==> r.value == Compact(c, key.value,
                                         BuildClaims(subject, jti, claims, audience, now, ExpirationMillis(now, expiresIn)))
  {
    match ValidateInputs(subject, audience, key)
    case Thrown(e) => Err(e)
    case Normal =>
      Ok(Compact(c, key.value, BuildClaims(subject, jti, claims, audience, now, ExpirationMillis(now, expiresIn))))
  }

  /** `generateToken(subject, audience, expiresIn, secretKey)`: the same token
      with no custom claims. */
  function GenerateToken(c: Codec, subject: Option<string>, audience: Option<string>, expiresIn: Int32,
                         key: Option<SecretKey>, now: Long, jti: Uuid): (r: Result<string>)
    ensures r == GenerateTokenWithClaims(c, subject, audience, map[], expiresIn, key, now, jti)
  {
    match ValidateInputs(subject, audience, key)
    case Thrown(e) => Err(e)
    case Normal =>
      var withId := BuildClaims(subject, jti, map[], audience, now, ExpirationMillis(now, expiresIn));
      Ok(Compact(c, key.value, withId))
  }

  /** `generateSecretKey`: a null or blank secret is refused before the key is made. */
  function GenerateSecretKey(signingKey: Option<string>): (r: Result<SecretKey>)
    ensures signingKey.None? || TrimIsEmpty(signingKey.value) ==> r == Err(IllegalArgument(KeyMissingMessage))
    ensures r.Ok? <==> signingKey.Some? && !TrimIsEmpty(signingKey.value)
    ensures r.Ok? ==> r.value.secret == signingKey.value
  {
    if signingKey.None? || TrimIsEmpty(signingKey.value) then Err(IllegalArgument(KeyMissingMessage))
    else Ok(KeyFor(signingKey.value))
  }

  /** How the wrapper reports each library rejection: a bad signature and an
      expired token are rethrown with their own messages, the rest pass through. */
  function Report(reason: Rejection): (e: Exception)
    ensures reason == SignatureMismatch ==> e == IllegalArgument(TokenInvalidMessage)
    ensures reason == Expired ==> e == IllegalArgument(TokenExpiredMessage)
    ensures reason !in {SignatureMismatch, Expired} ==> e.JwtLibrary?
  {
    match reason
    case SignatureMismatch => IllegalArgument(TokenInvalidMessage)
    case Expired => IllegalArgument(TokenExpiredMessage)
    case Blank => JwtLibrary(BlankJwt)
    case Malformed => JwtLibrary(MalformedJwt)
    case Premature => JwtLibrary(PrematureJwt)
  }

  /** `getPayload(jwt, secretKey)` at time `now`. */
  function GetPayload(c: Codec, jwt: Option<string>, key: Option<SecretKey>, now: Long): (r: Result<Claims>)
    ensures key.None? ==> r == Err(NullPointer(KeyNullMessage))
    ensures key.Some? && jwt.None? ==> r == Err(IllegalArgument(TokenMissingMessage))
    ensures r.Ok? <==> key.Some? && jwt.Some? && ParseSignedClaims(c, key.value, jwt.value, now).Verified?
    ensures r.Ok? ==> r.value == ParseSignedClaims(c, key.value, jwt.value, now).claims
  {
    if key.None? then Err(NullPointer(KeyNullMessage))
    else if jwt.None? then Err(IllegalArgument(TokenMissingMessage))
    else match ParseSignedClaims(c, key.value, jwt.value, now)
      case Verified(claims) => Ok(claims)
      case Rejected(reason) => Err(Report(reason))
  }

  /** No wrap-around anywhere between issue and check. */
  predicate SafeTimes(now: Long, expiresIn: Int32, t: Long) {
    && MinLong + 2 * ClockSkewMillis <= now <= MaxLong - 2 * ClockSkewMillis
    && MinLong + 2 * ClockSkewMillis <= now + expiresIn * 1000 <= MaxLong - 2 * ClockSkewMillis
    && MinLong + 2 * ClockSkewMillis <= t <= MaxLong - 2 * ClockSkewMillis
  }

  /** The dates written into a token: issued-at and not-before are the issue
      time and expiry is `expiresIn` seconds later, all in whole seconds. */
  lemma IssuedDates(subject: string, audience: string, claims: map<string, string>, expiresIn: Int32,
                    now: Long, jti: Uuid)
    requires MinLong <= now + expiresIn * 1000 <= MaxLong
    ensures var built := BuildClaims(Some(subject), jti, claims, Some(audience), now, ExpirationMillis(now, expiresIn));
      && DatesWellTyped(built)
      && built["iat"] == built["nbf"]
      && -1000 < now - built["nbf"].seconds * 1000 < 1000
      && -1000 < now + expiresIn * 1000 - built["exp"].seconds * 1000 < 1000
  {
    BuildClaimsContents(Some(subject), jti, claims, Some(audience), now, ExpirationMillis(now, expiresIn));
  }

  /** A token read back with the key that signed it, from 9 seconds before its
      issue time up to 9 seconds after its expiry, gives back the claims it was
      built from: subject, audience and id included. */
  lemma TokenRoundTrip(c: Codec, subject: string, audience: string, claims: map<string, string>,
                       expiresIn: Int32, key: SecretKey, now: Long, jti: Uuid, t: Long)
    requires WellBehaved(c)
    requires SafeTimes(now, expiresIn, t)
    requires now - 9000 <= t <= now + expiresIn * 1000 + 9000
    ensures var token := GenerateTokenWithClaims(c, Some(subject), Some(audience), claims, expiresIn, Some(key), now, jti);
      var built := BuildClaims(Some(subject), jti, claims, Some(audience), now, ExpirationMillis(now, expiresIn));
      && token.Ok?
      && GetPayload(c, Some(token.value), Some(key), t) == Ok(built)
      && (Kept(Some(audience)) ==> Audience(built) == Some([audience]))
      && ("sub" !in claims && Kept(Some(subject)) ==> Subject(built) == Some(subject))
  {
    var built := BuildClaims(Some(subject), jti, claims, Some(audience), now, ExpirationMillis(now, expiresIn));
    IssuedDates(subject, audience, claims, expiresIn, now, jti);
    BuildClaimsContents(Some(subject), jti, claims, Some(audience), now, ExpirationMillis(now, expiresIn));
    CompactWindow(c, key, built, t);
    assert !ExpiredAt(built, t);
    assert !PrematureAt(built, t);
  }

  /** A token checked more than 11 seconds past its expiry is reported expired. */
  lemma ExpiredAfterSkew(c: Codec, subject: string, audience: string, claims: map<string, string>,
                         expiresIn: Int32, key: SecretKey, now: Long, jti: Uuid, t: Long)
    requires WellBehaved(c)
    requires SafeTimes(now, expiresIn, t)
    requires t > now + expiresIn * 1000 + 11000
    ensures var token := GenerateTokenWithClaims(c, Some(subject), Some(audience), claims, expiresIn, Some(key), now, jti);
      token.Ok? && GetPayload(c, Some(token.value), Some(key), t) == Err(IllegalArgument(TokenExpiredMessage))
  {
    var built := BuildClaims(Some(subject), jti, claims, Some(audience), now, ExpirationMillis(now, expiresIn));
    IssuedDates(subject, audience, claims, expiresIn, now, jti);
    CompactWindow(c, key, built, t);
    assert ExpiredAt(built, t);
  }

  /** A token issued with a negative lifetime of one second is still accepted
      when read at its issue time: the ten-second skew covers it. */
  lemma NegativeLifetimeAcceptedAtIssue(c: Codec, subject: string, audience: string, claims: map<string, string>,
                                        key: SecretKey, now: Long, jti: Uuid)
    requires WellBehaved(c)
    requires SafeTimes(now, -1, now)
    ensures var token := GenerateTokenWithClaims(c, Some(subject), Some(audience), claims, -1, Some(key), now, jti);
      token.Ok? && GetPayload(c, Some(token.value), Some(key), now).Ok?
  {
    TokenRoundTrip(c, subject, audience, claims, -1, key, now, jti, now);
  }

  /** A token signed with another key is reported invalid, whatever the time. */
  lemma OtherKeyInvalid(c: Codec, subject: string, audience: string, claims: map<string, string>,
                        expiresIn: Int32, signer: SecretKey, verifier: SecretKey, now: Long, jti: Uuid, t: Long)
    requires WellBehaved(c) && MacBindsKey(c)
    requires signer != verifier
    ensures var token := GenerateTokenWithClaims(c, Some(subject), Some(audience), claims, expiresIn, Some(signer), now, jti);
      token.Ok? && GetPayload(c, Some(token.value), Some(verifier), t) == Err(IllegalArgument(TokenInvalidMessage))
  {
    var built := BuildClaims(Some(subject), jti, claims, Some(audience), now, ExpirationMillis(now, expiresIn));
    OtherKeyMismatch(c, signer, verifier, built, t);
  }
}
