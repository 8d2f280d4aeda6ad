/** The part of the signed-token library the core relies on: claim sets, HMAC
    keys made from a secret string, the builder's claim order, compact
    serialization with a MAC tag, and the parser's checks (signature, then
    expiry and not-before with a clock skew). The encoding and the MAC are
    parameters; what the core needs of them is stated as hypotheses. */
module Jws {
  import opened Common
  import opened Uuids

  /** A claim value as the library stores it: a string, a string set (the
      audience) or a date in whole seconds since the epoch. */
  datatype ClaimValue = Text(text: string) | Texts(texts: seq<string>) | NumericDate(seconds: Long)

  type Claims = map<string, ClaimValue>

  /** An HMAC-SHA key over the UTF-8 bytes of a secret string. */
  datatype SecretKey = HmacShaKey(secret: string)

  type Tag = seq<bv8>

  /** The compact encoding and the MAC, as parameters. */
  datatype Codec = Codec(serialize: (Claims, Tag) -> string,
                         parse: string -> Option<(Claims, Tag)>,
                         mac: (SecretKey, Claims) -> Tag)

  /** Hypothesis: parsing a serialized token gives back its claims and tag,
      and a serialized token is never blank. */
  ghost predicate WellBehaved(c: Codec) {
    forall claims, tag ::
      c.parse(c.serialize(claims, tag)) == Some((claims, tag)) && HasText(c.serialize(claims, tag))
  }

  /** Hypothesis: the MAC of the same claims under two different keys differs. */
  ghost predicate MacBindsKey(c: Codec) {
    forall k1: SecretKey, k2: SecretKey, claims :: k1 != k2 ==> c.mac(k1, claims) != c.mac(k2, claims)
  }

  /** The parser's allowance: ten seconds either way. */
  const ClockSkewMillis: int := 10000

  /** `Character.isWhitespace`. */
  predicate IsJavaWhitespace(ch: char) {
    var n := ch as int;
    || (0x09 <= n <= 0x0D) || (0x1C <= n <= 0x20)
    || n == 0x1680 || (0x2000 <= n <= 0x2006) || (0x2008 <= n <= 0x200A)
    || n == 0x2028 || n == 0x2029 || n == 0x205F || n == 0x3000
  }

  /** The library's "has text": some character is not whitespace. */
  predicate HasText(s: string) {
    exists i :: 0 <= i < |s| && !IsJavaWhitespace(s[i])
  }

  // ---- Keys ----

  /** `Keys.hmacShaKeyFor(secret.getBytes(UTF_8))`: the key is the secret's bytes. */
  function KeyFor(secret: string): (k: SecretKey)
    ensures k.secret == secret
  {
    HmacShaKey(secret)
  }

  // ---- Building ----

  /** A date as the library writes it: whole seconds, truncated toward zero. */
  function SecondsOf(millis: Long): (s: Long)
    ensures -1000 < millis - s * 1000 < 1000
  {
    JavaDiv(millis, 1000)
  }

  /** A string the builder keeps: a null string removes the claim instead. */
  predicate Kept(s: Option<string>) {
    s.Some?
  }

  /** The builder calls in the order the core makes them: subject, id, the
      custom claims (which replace subject and id of the same name), audience,
      then issued-at, not-before and expiry (which replace custom ones). */
  function BuildClaims(subject: Option<string>, jti: Uuid, custom: map<string, string>,
                       audience: Option<string>, issuedAt: Long, expiration: Long): Claims
  {
    var withSubject: Claims := if Kept(subject) then map["sub" := Text(subject.value)] else map[];
    var withId := withSubject["jti" := Text(ToString(jti))];
    var withCustom := map k | k in withId.Keys + custom.Keys :: if k in custom then Text(custom[k]) else withId[k];
    var withAudience := if Kept(audience) then withCustom["aud" := Texts([audience.value])] else withCustom;
    withAudience["iat" := NumericDate(SecondsOf(issuedAt))]
                ["nbf" := NumericDate(SecondsOf(issuedAt))]
                ["exp" := NumericDate(SecondsOf(expiration))]
  }

  /** The registered claims the builder writes after the custom ones. */
  predicate IsLateRegistered(k: string) {
    k == "aud" || k == "iat" || k == "nbf" || k == "exp"
  }

  /** What a built claim set holds, claim by claim. */
  lemma BuildClaimsContents(subject: Option<string>, jti: Uuid, custom: map<string, string>,
                            audience: Option<string>, issuedAt: Long, expiration: Long)
    ensures var claims := BuildClaims(subject, jti, custom, audience, issuedAt, expiration);
      && claims["iat"] == NumericDate(SecondsOf(issuedAt))
      && claims["nbf"] == NumericDate(SecondsOf(issuedAt))
      && claims["exp"] == NumericDate(SecondsOf(expiration))
      && (Kept(audience) ==> claims["aud"] == Texts([audience.value]))
      && (!Kept(audience) && "aud" !in custom ==> "aud" !in claims)
      && ("sub" !in custom ==> (("sub" in claims) <==> Kept(subject)))
      && ("sub" !in custom && Kept(subject) ==> claims["sub"] == Text(subject.value))
      && ("jti" !in custom ==> claims["jti"] == Text(ToString(jti)))
      && (forall k :: k in custom && !IsLateRegistered(k) ==> k in claims && claims[k] == Text(custom[k]))
      && (forall k :: k in claims ==> k in custom || k in {"sub", "jti"} || IsLateRegistered(k))
  {
  }

  // ---- Signing and parsing ----

  /** `signWith(key).compact()`: the claims with their MAC under the key. */
  function Compact(c: Codec, key: SecretKey, claims: Claims): string {
    c.serialize(claims, c.mac(key, claims))
  }

  datatype Rejection = Blank | Malformed | SignatureMismatch | Expired | Premature

  datatype Parsed = Verified(claims: Claims) | Rejected(reason: Rejection)

  /** Expiry and not-before, when present, are dates. */
  predicate DatesWellTyped(claims: Claims) {
    && ("exp" in claims ==> claims["exp"].NumericDate?)
    && ("nbf" in claims ==> claims["nbf"].NumericDate?)
  }

  /** Past the expiry by more than the skew. */
  predicate ExpiredAt(claims: Claims, now: Long)
    requires DatesWellTyped(claims)
  {
    "exp" in claims && WrapLong(now - ClockSkewMillis) > WrapLong(claims["exp"].seconds * 1000)
  }

  /** Before the not-before time by more than the skew. */
  predicate PrematureAt(claims: Claims, now: Long)
    requires DatesWellTyped(claims)
  {
    "nbf" in claims && WrapLong(now + ClockSkewMillis) < WrapLong(claims["nbf"].seconds * 1000)
  }

  /** `parser().verifyWith(key).clockSkewSeconds(10).build().parseSignedClaims(jwt)`
      at time `now` (milliseconds). */
  function ParseSignedClaims(c: Codec, key: SecretKey, jwt: string, now: Long): Parsed {
    if !HasText(jwt) then Rejected(Blank)
    else match c.parse(jwt)
      case None => Rejected(Malformed)
      case Some((claims, tag)) =>
        if tag != c.mac(key, claims) then Rejected(SignatureMismatch)
        else if !DatesWellTyped(claims) then Rejected(Malformed)
        else if ExpiredAt(claims, now) then Rejected(Expired)
        else if PrematureAt(claims, now) then Rejected(Premature)
        else Verified(claims)
  }

  /** Claims the parser accepts carry the MAC the verifying key computes over
      them, and are within their time window. */
  lemma VerifiedIsAuthentic(c: Codec, key: SecretKey, jwt: string, now: Long)
    requires ParseSignedClaims(c, key, jwt, now).Verified?
    ensures var claims := ParseSignedClaims(c, key, jwt, now).claims;
      && c.parse(jwt) == Some((claims, c.mac(key, claims)))
      && DatesWellTyped(claims) && !ExpiredAt(claims, now) && !PrematureAt(claims, now)
  {
  }

  /** A token signed with the verifying key is accepted exactly inside its
      time window, and otherwise rejected as expired or premature. */
  lemma CompactWindow(c: Codec, key: SecretKey, claims: Claims, now: Long)
    requires WellBehaved(c)
    requires DatesWellTyped(claims)
    ensures ParseSignedClaims(c, key, Compact(c, key, claims), now)
            == if ExpiredAt(claims, now) then Rejected(Expired)
               else if PrematureAt(claims, now) then Rejected(Premature)
               else Verified(claims)
  {
    assert c.parse(c.serialize(claims, c.mac(key, claims))) == Some((claims, c.mac(key, claims)));
  }

  /** A token signed with one key is refused by any other as a signature mismatch. */
  lemma OtherKeyMismatch(c: Codec, signer: SecretKey, verifier: SecretKey, claims: Claims, now: Long)
    requires WellBehaved(c) && MacBindsKey(c)
    requires signer != verifier
    ensures ParseSignedClaims(c, verifier, Compact(c, signer, claims), now) == Rejected(SignatureMismatch)
  {
    assert c.parse(c.serialize(claims, c.mac(signer, claims))) == Some((claims, c.mac(signer, claims)));
    assert c.mac(signer, claims) != c.mac(verifier, claims);
  }

  // ---- Reading claims ----

  function Subject(claims: Claims): (s: Option<string>)
    ensures s.Some? <==> "sub" in claims && claims["sub"].Text?
    ensures s.Some? ==> s.value == claims["sub"].text
  {
    if "sub" in claims && claims["sub"].Text? then Some(claims["sub"].text) else None
  }

  /** `getAudience()`: the audience set, or null when the claim is absent. */
  function Audience(claims: Claims): (a: Option<seq<string>>)
    ensures "aud" !in claims ==> a.None?
    ensures "aud" in claims && claims["aud"].Text? ==> a == Some([claims["aud"].text])
    ensures "aud" in claims && claims["aud"].Texts? ==> a == Some(claims["aud"].texts)
    ensures "aud" in claims && claims["aud"].NumericDate? ==> a.None?
  {
    if "aud" !in claims then None
    else match claims["aud"]
      case Text(t) => Some([t])
      case Texts(ts) => Some(ts)
      case NumericDate(_) => None
  }
}
