/** The per-request security context that the filter writes and the aspect
    reads, made an explicit object instead of a thread-local. */
module SecurityContextHolder {
  import opened Common
  import opened UserContextBuilder
  import opened AuthenticationToken

  class SecurityContext {
    var authentication: Option<JwtAuthenticationToken<RequestContext>>

    /** A fresh request starts with no authentication. */
    constructor ()
      ensures authentication.None?
    {
      authentication := None;
    }
  }

  /** What the aspect asks of the stored authentication: is it authenticated,
      and which principal does it carry. */
  datatype AuthView = AuthView(authenticated: bool, principal: Option<RequestContext>)

  function View(holder: SecurityContext): (v: Option<AuthView>)
    reads holder, if holder.authentication.Some? then {holder.authentication.value} else {}
    ensures v.None? <==> holder.authentication.None?
    ensures v.Some? ==> v.value.authenticated == holder.authentication.value.IsAuthenticated()
    ensures v.Some? ==> v.value.principal == holder.authentication.value.GetPrincipal()
  {
    match holder.authentication
    case None => None
    case Some(t) => Some(AuthView(t.IsAuthenticated(), t.GetPrincipal()))
  }
}
