/** `CookieBasedAuthenticationFilter`: once per request, read the session
    cookie, try to authenticate its token, store the result in the security
    context on success, and always hand the request on down the chain. */
module CookieFilter {
  import opened Common
  import opened Jws
  import opened UserContextBuilder
  import opened AuthenticationToken
  import opened SecurityContextHolder
  import Providers

  datatype Cookie = Cookie(name: string, value: string)

  /** The value of the first cookie whose name is exactly `cookieName`; none
      when the request has no cookies (a null array) or no such cookie. */
  function FirstCookieValue(cookies: seq<Cookie>, cookieName: string): (v: Option<string>)
    ensures v.Some? <==> exists i :: 0 <= i < |cookies| && cookies[i].name == cookieName
    ensures v.Some? ==> exists i :: (&& 0 <= i < |cookies| && cookies[i].name == cookieName
                                     && cookies[i].value == v.value
                                     && forall j :: 0 <= j < i ==> cookies[j].name != cookieName)
  {
    if |cookies| == 0 then None
    else if cookies[0].name == cookieName then Some(cookies[0].value)
    else
      var rest := FirstCookieValue(cookies[1..], cookieName);
      assert forall i :: 1 <= i < |cookies| ==> cookies[i] == cookies[1..][i - 1];
      rest
  }

  /** `getTokenFromCookies`: the loop over the request's cookie array. */
  method GetTokenFromCookies(cookies: Option<seq<Cookie>>, cookieName: string) returns (token: Option<string>)
    ensures cookies.None? ==> token.None?
    ensures cookies.Some? ==> token == FirstCookieValue(cookies.value, cookieName)
  {
    if cookies.Some? {
      var all := cookies.value;
      var i := 0;
      while i < |all|
        invariant 0 <= i <= |all|
        invariant FirstCookieValue(all, cookieName) == FirstCookieValue(all[i..], cookieName)
      {
        assert all[i..][1..] == all[i + 1..];
        if all[i].name == cookieName {
          return Some(all[i].value);
        }
        i := i + 1;
      }
    }
    return None;
  }

  /** `doFilterInternal` at time `now`, with the configured cookie name and
      signing secret: what it leaves in the security context before the rest
      of the chain runs. */
  method DoFilterInternal(holder: SecurityContext, c: Codec, secret: Option<string>,
                          cookies: Option<seq<Cookie>>, cookieName: string, now: Long)
    modifies holder
    ensures var token := if cookies.Some? then FirstCookieValue(cookies.value, cookieName) else None;
      if token.Some? && Providers.ResolvePrincipal(c, secret, token, now).Ok? then
        && holder.authentication.Some? && fresh(holder.authentication.value)
        && holder.authentication.value.token == token
        && View(holder) == Some(AuthView(true, Some(Providers.ResolvePrincipal(c, secret, token, now).value)))
      else holder.authentication == old(holder.authentication)
  {
    var token := GetTokenFromCookies(cookies, cookieName);
    if token.None? {
      return;
    }
    var request := new JwtAuthenticationToken.Unauthenticated(token);
    var authentication := Providers.Authenticate(c, secret, request, now);
    if authentication.Ok? {
      holder.authentication := Some(authentication.value);
    }
  }

  /** A request without the session cookie never gets an authentication. */
  lemma NoCookieNoToken(cookies: seq<Cookie>, cookieName: string)
    requires forall i :: 0 <= i < |cookies| ==> cookies[i].name != cookieName
    ensures FirstCookieValue(cookies, cookieName).None?
  {
  }

  /** Cookie names are compared exactly: a cookie whose name differs from the
      configured one only in case is not the session cookie. */
  lemma CookieNameCaseSensitive(name: string, value: string, rest: seq<Cookie>)
    requires Lower(name) != name
    ensures FirstCookieValue([Cookie(name, value)] + rest, Lower(name)) == FirstCookieValue(rest, Lower(name))
    ensures FirstCookieValue([Cookie(Lower(name), value)] + rest, Lower(name)) == Some(value)
  {
    assert ([Cookie(name, value)] + rest)[1..] == rest;
  }
}
