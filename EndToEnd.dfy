/** One request through the whole pipeline: the cookie filter fills a fresh
    security context, then the aspect decides on the handler. */
module EndToEnd {
  import opened Common
  import opened Uuids
  import opened Jws
  import opened UserContextBuilder
  import opened SecurityContextHolder
  import opened AuthorizeAspect
  import opened Controllers
  import opened CookieFilter
  import Providers
  import JwtUtils
  import AuthService

  /** What the filter leaves in a fresh context: an authenticated view of the
      resolved caller, or nothing. */
  function RequestAuth(c: Codec, secret: Option<string>, cookies: Option<seq<Cookie>>, cookieName: string, now: Long)
    : Option<AuthView>
  {
    var token := if cookies.Some? then FirstCookieValue(cookies.value, cookieName) else None;
    if token.Some? && Providers.ResolvePrincipal(c, secret, token, now).Ok? then
      Some(AuthView(true, Some(Providers.ResolvePrincipal(c, secret, token, now).value)))
    else None
  }

  /** A request: the filter on a fresh context, then the aspect around the handler. */
  method HandleRequest(c: Codec, secret: Option<string>, cookies: Option<seq<Cookie>>, cookieName: string, now: Long,
                       props: Properties, requestUrl: string, matches: (string, string) -> bool, decl: Annotations.Declaration)
    returns (d: Decision)
    ensures d == Decide(props, requestUrl, matches, decl, RequestAuth(c, secret, cookies, cookieName, now))
  {
    var holder := new SecurityContext();
    DoFilterInternal(holder, c, secret, cookies, cookieName, now);
    d := Around(props, requestUrl, matches, decl, holder);
  }

  /** Without a session that resolves, every user endpoint refuses the request
      as not authenticated (unless its URL is bypassed). */
  lemma NoSessionRefused(c: Codec, secret: Option<string>, cookies: Option<seq<Cookie>>, cookieName: string, now: Long,
                         props: Properties, requestUrl: string, matches: (string, string) -> bool, e: UserEndpoint)
    requires !IsAuthBypassedForEndpoint(props, requestUrl, matches)
    requires RequestAuth(c, secret, cookies, cookieName, now).None?
    ensures Decide(props, requestUrl, matches, e.Method().declaration, RequestAuth(c, secret, cookies, cookieName, now))
            == Reject(Security(NotAuthenticatedMessage))
  {
    UserEndpointsRequireAuthentication(props, requestUrl, matches, e, None);
  }

  /** A token from a successful login, sent back within its time window under
      the session cookie, lets the caller through every user endpoint: the
      provider gives every caller SELLER / ADMIN, which every endpoint admits. */
  lemma LoginTokenOpensUserEndpoints(c: Codec, secret: string, username: string, expiresIn: Int32,
                                     now: Long, audienceId: Uuid, jti: Uuid, t: Long,
                                     cookieName: string, props: Properties, requestUrl: string,
                                     matches: (string, string) -> bool, e: UserEndpoint)
    requires WellBehaved(c)
    requires JwtUtils.GenerateSecretKey(Some(secret)).Ok?
    requires JwtUtils.SafeTimes(now, expiresIn, t)
    requires now - 9000 <= t <= now + expiresIn * 1000 + 9000
    ensures var key := JwtUtils.GenerateSecretKey(Some(secret)).value;
      var token := JwtUtils.GenerateTokenWithClaims(c, Some(username), Some(ToString(audienceId)),
                                                    AuthService.LoginClaims, expiresIn, Some(key), now, jti);
      && token.Ok?
      && RequestAuth(c, Some(secret), Some([Cookie(cookieName, token.value)]), cookieName, t)
         == Some(AuthView(true, Some(PrepareContext(audienceId))))
      && Decide(props, requestUrl, matches, e.Method().declaration,
                RequestAuth(c, Some(secret), Some([Cookie(cookieName, token.value)]), cookieName, t)) == Proceed
  {
    Providers.IssuedTokenResolves(c, secret, username, audienceId, AuthService.LoginClaims, expiresIn, now, jti, t);
    if !IsAuthBypassedForEndpoint(props, requestUrl, matches) {
      UserEndpointAccess(props, requestUrl, matches, e, PrepareContext(audienceId));
    }
  }
}
