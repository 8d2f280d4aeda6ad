/** The older tree's `JwtService`: the same library calls as `JwtUtils`, but
    with no input validation and message keys instead of messages. */
module JwtService {
  import opened Common
  import opened Uuids
  import opened Jws
  import JwtUtils

  const TokenMissingKey := "authentication.token.missing"
  const TokenInvalidKey := "authentication.token.invalid"
  const TokenExpiredKey := "authentication.token.expired"
  const KeyNotFoundKey := "authentication.key.notfound"

  /** `getPayload`: the token is checked for null before the key, and a null
      key fails inside the library. */
  function GetPayload(c: Codec, jwt: Option<string>, key: Option<SecretKey>, now: Long): (r: Result<Claims>)
    ensures jwt.None? ==> r == Err(Runtime(TokenMissingKey))
    ensures jwt.Some? && key.None? ==> r == Err(JwtLibrary(NullVerifyKey))
    ensures jwt.Some? && key.Some? ==>
      match ParseSignedClaims(c, key.value, jwt.value, now)
      case Verified(claims) => r == Ok(claims)
      case Rejected(SignatureMismatch) => r == Err(Runtime(TokenInvalidKey))
      case Rejected(Expired) => r == Err(Runtime(TokenExpiredKey))
      case Rejected(_) => r.Err? && r.error.JwtLibrary?
  {
    if jwt.None? then Err(Runtime(TokenMissingKey))
    else if key.None? then Err(JwtLibrary(NullVerifyKey))
    else match ParseSignedClaims(c, key.value, jwt.value, now)
      case Verified(claims) => Ok(claims)
      case Rejected(SignatureMismatch) => Err(Runtime(TokenInvalidKey))
      case Rejected(Expired) => Err(Runtime(TokenExpiredKey))
      case Rejected(reason) => Err(JwtUtils.Report(reason))
  }

  /** `generateToken(subject, audience, claims, expiresIn, secretKey)`: a null
      subject or audience is left out of the token; only a null key fails. */
  function GenerateTokenWithClaims(c: Codec, subject: Option<string>, audience: Option<string>,
                                   claims: map<string, string>, expiresIn: Int32, key: Option<SecretKey>,
                                   now: Long, jti: Uuid): (r: Result<string>)
    ensures r.Err? <==> key.None?
    ensures r.Err? ==> r.error == JwtLibrary(NullSigningKey)
    ensures r.Ok? ==> r.value == Compact(c, key.value,
      BuildClaims(subject, jti, claims, audience, now, JwtUtils.ExpirationMillis(now, expiresIn)))
  {
    if key.None? then Err(JwtLibrary(NullSigningKey))
    else Ok(Compact(c, key.value, BuildClaims(subject, jti, claims, audience, now, JwtUtils.ExpirationMillis(now, expiresIn))))
  }

  /** `generateToken(subject, audience, expiresIn, secretKey)`. */
  function GenerateToken(c: Codec, subject: Option<string>, audience: Option<string>, expiresIn: Int32,
                         key: Option<SecretKey>, now: Long, jti: Uuid): (r: Result<string>)
    ensures r == GenerateTokenWithClaims(c, subject, audience, map[], expiresIn, key, now, jti)
  {
    if key.None? then Err(JwtLibrary(NullSigningKey))
    else Ok(Compact(c, key.value, BuildClaims(subject, jti, map[], audience, now, JwtUtils.ExpirationMillis(now, expiresIn))))
  }

  /** `generateSecretKey`: only a null secret is refused here; an empty or
      blank one passes this check and is handed to the library, whose
      key-length check is not part of this model. */
  function GenerateSecretKey(signingKey: Option<string>): (r: Result<SecretKey>)
    ensures signingKey.None? ==> r == Err(Runtime(KeyNotFoundKey))
    ensures r.Ok? <==> signingKey.Some?
    ensures r.Ok? ==> r.value.secret == signingKey.value
  {
    if signingKey.None? then Err(Runtime(KeyNotFoundKey)) else Ok(KeyFor(signingKey.value))
  }

  /** The older key check is weaker: on a present secret it agrees with the
      current one except on blank secrets (the empty one included), which only
      the older wrapper lets through to the library. */
  lemma SecretKeyChecksCompared(secret: string)
    ensures JwtUtils.GenerateSecretKey(Some(secret)).Ok? ==> GenerateSecretKey(Some(secret)) == JwtUtils.GenerateSecretKey(Some(secret))
    ensures GenerateSecretKey(Some(secret)).Ok? && JwtUtils.GenerateSecretKey(Some(secret)).Err? <==> TrimIsEmpty(secret)
    ensures GenerateSecretKey(Some("")).Ok?
  {
  }

  /** With every input present the two trees issue the same token. */
  lemma GenerateAgreesWhenInputsPresent(c: Codec, subject: string, audience: string, claims: map<string, string>,
                                        expiresIn: Int32, key: SecretKey, now: Long, jti: Uuid)
    ensures GenerateTokenWithClaims(c, Some(subject), Some(audience), claims, expiresIn, Some(key), now, jti)
            == JwtUtils.GenerateTokenWithClaims(c, Some(subject), Some(audience), claims, expiresIn, Some(key), now, jti)
  {
  }

  /** A token issued without a subject carries no subject claim, once it is read back. */
  lemma NullSubjectOmitted(c: Codec, audience: Option<string>, claims: map<string, string>, expiresIn: Int32,
                           key: SecretKey, now: Long, jti: Uuid, t: Long)
    requires WellBehaved(c)
    requires "sub" !in claims
    requires GetPayload(c, GenerateTokenWithClaims(c, None, audience, claims, expiresIn, Some(key), now, jti).ToOption(), Some(key), t).Ok?
    ensures Subject(GetPayload(c, GenerateTokenWithClaims(c, None, audience, claims, expiresIn, Some(key), now, jti).ToOption(), Some(key), t).value).None?
  {
    var built := BuildClaims(None, jti, claims, audience, now, JwtUtils.ExpirationMillis(now, expiresIn));
    BuildClaimsContents(None, jti, claims, audience, now, JwtUtils.ExpirationMillis(now, expiresIn));
    assert c.parse(Compact(c, key, built)) == Some((built, c.mac(key, built)));
  }

  /** A token issued without an audience carries no audience claim, once it is read back. */
  lemma NullAudienceOmitted(c: Codec, subject: Option<string>, claims: map<string, string>, expiresIn: Int32,
                            key: SecretKey, now: Long, jti: Uuid, t: Long)
    requires WellBehaved(c)
    requires "aud" !in claims
    requires GetPayload(c, GenerateTokenWithClaims(c, subject, None, claims, expiresIn, Some(key), now, jti).ToOption(), Some(key), t).Ok?
    ensures Audience(GetPayload(c, GenerateTokenWithClaims(c, subject, None, claims, expiresIn, Some(key), now, jti).ToOption(), Some(key), t).value).None?
  {
    var built := BuildClaims(subject, jti, claims, None, now, JwtUtils.ExpirationMillis(now, expiresIn));
    BuildClaimsContents(subject, jti, claims, None, now, JwtUtils.ExpirationMillis(now, expiresIn));
    assert c.parse(Compact(c, key, built)) == Some((built, c.mac(key, built)));
  }

  /** On a present token and key the two readers accept the same tokens with
      the same claims; they differ only in how a refusal is reported. */
  lemma PayloadReadersAgree(c: Codec, jwt: string, key: SecretKey, now: Long)
    ensures GetPayload(c, Some(jwt), Some(key), now).Ok? <==> JwtUtils.GetPayload(c, Some(jwt), Some(key), now).Ok?
    ensures GetPayload(c, Some(jwt), Some(key), now).Ok? ==>
      GetPayload(c, Some(jwt), Some(key), now) == JwtUtils.GetPayload(c, Some(jwt), Some(key), now)
  {
  }

  /** Tokens issued at the same moment for the same inputs but with different
      random ids differ, in both trees. */
  lemma DistinctIdsDistinctTokens(c: Codec, subject: Option<string>, audience: Option<string>,
                                  claims: map<string, string>, expiresIn: Int32, key: SecretKey,
                                  now: Long, jti1: Uuid, jti2: Uuid)
    requires WellBehaved(c)
    requires "jti" !in claims
    requires jti1 != jti2
    ensures GenerateTokenWithClaims(c, subject, audience, claims, expiresIn, Some(key), now, jti1)
            != GenerateTokenWithClaims(c, subject, audience, claims, expiresIn, Some(key), now, jti2)
  {
    var exp := JwtUtils.ExpirationMillis(now, expiresIn);
    var b1 := BuildClaims(subject, jti1, claims, audience, now, exp);
    var b2 := BuildClaims(subject, jti2, claims, audience, now, exp);
    BuildClaimsContents(subject, jti1, claims, audience, now, exp);
    BuildClaimsContents(subject, jti2, claims, audience, now, exp);
    if ToString(jti1) == ToString(jti2) {
      ToStringInjective(jti1, jti2);
    }
    assert b1["jti"] != b2["jti"];
    assert c.parse(Compact(c, key, b1)) == Some((b1, c.mac(key, b1)));
    assert c.parse(Compact(c, key, b2)) == Some((b2, c.mac(key, b2)));
  }
}
