/** `JwtAuthenticationToken`: the raw token string, the principal and the
    authenticated flag, which only the two-argument constructor sets to true.
    Both source trees define the same class over their own context type, so
    the principal's type is a parameter. */
module AuthenticationToken {
  import opened Common

  const ManualAuthenticationMessage := "Not allowed to set authentication manually, use constructor instead"

  class JwtAuthenticationToken<P> {
    /** The raw token; final, so it never changes after construction. */
    const token: Option<string>
    var principal: Option<P>
    var details: Option<P>
    var authenticated: bool

    /** One-argument constructor: an authentication request, not yet trusted. */
    constructor Unauthenticated(token: Option<string>)
      ensures this.token == token
      ensures principal.None? && details.None? && !authenticated
    {
      this.token := token;
      principal := None;
      details := None;
      authenticated := false;
    }

    /** Two-argument constructor: a verified caller; the context becomes both
        principal and details. */
    constructor Authenticated(token: Option<string>, principal: Option<P>)
      ensures this.token == token
      ensures this.principal == principal && details == principal && authenticated
    {
      this.token := token;
      this.principal := principal;
      details := principal;
      authenticated := true;
    }

    /** `setAuthenticated`: true is refused with IllegalArgumentException and
        changes nothing; false clears the flag. The flag never turns true here. */
    method SetAuthenticated(isAuthenticated: bool) returns (r: Outcome)
      modifies this`authenticated
      ensures isAuthenticated ==> r == Thrown(IllegalArgument(ManualAuthenticationMessage))
      ensures isAuthenticated ==> authenticated == old(authenticated)
      ensures !isAuthenticated ==> r == Normal && !authenticated
      ensures authenticated ==> old(authenticated)
    {
      if isAuthenticated {
        return Thrown(IllegalArgument(ManualAuthenticationMessage));
      }
      authenticated := false;
      return Normal;
    }

    function GetPrincipal(): (p: Option<P>)
      reads this
      ensures p == principal
    {
      principal
    }

    function GetCredentials(): (c: Option<string>)
      ensures c == token
    {
      token
    }

    function IsAuthenticated(): (b: bool)
      reads this
      ensures b == authenticated
    {
      authenticated
    }
  }
}
