/** The per-invocation authorization decision around a controller method:
    configured bypass endpoints, then a method-level bypass, then the caller
    must be authenticated and must match one of the method's OR-list of
    `"type:role"` scopes. `Proceed` is the only outcome in which the method
    body runs. */
module AuthorizeAspect {
  import opened Common
  import opened Uuids
  import opened Scopes
  import opened Annotations
  import opened UserContextBuilder
  import opened SecurityContextHolder

  /** The configuration tree `auth.bypass.endpoints`; any level may be absent. */
  datatype BypassConfig = BypassConfig(endpoints: Option<seq<string>>)
  datatype AuthConfig = AuthConfig(bypass: Option<BypassConfig>)
  datatype Properties = Properties(auth: Option<AuthConfig>)

  datatype Decision = Proceed | Reject(error: Exception)

  const NotAuthenticatedMessage := "Unauthorized access: User is not authenticated"
  const NoContextMessage := "Unauthorized: No user context found"

  function ForbiddenMessage(ctx: RequestContext): string {
    "Authorization failed: User " + ctx.userType.Name() + " with ID: " + ToString(ctx.userId)
    + " attempted to access an endpoint without the necessary permissions."
  }

  /** The configured bypass patterns; a missing level means none. */
  function NoAuthEndpoints(props: Properties): (eps: seq<string>)
    ensures (|| props.auth.None? || props.auth.value.bypass.None?
             || props.auth.value.bypass.value.endpoints.None?) ==> eps == []
    ensures (&& props.auth.Some? && props.auth.value.bypass.Some?
             && props.auth.value.bypass.value.endpoints.Some?) ==> eps == props.auth.value.bypass.value.endpoints.value
  {
    match props.auth
    case None => []
    case Some(auth) =>
      match auth.bypass
      case None => []
      case Some(bypass) => bypass.endpoints.GetOr([])
  }

  /** `isAuthBypassedForEndpoint`: some pattern matches the full request URL.
      The path matcher is a parameter (pattern, url). */
  predicate IsAuthBypassedForEndpoint(props: Properties, requestUrl: string, matches: (string, string) -> bool) {
    var eps := NoAuthEndpoints(props);
    exists i :: 0 <= i < |eps| && matches(eps[i], requestUrl)
  }

  /** `handleAuthentication`. */
  function HandleAuthentication(auth: Option<AuthView>): (r: Outcome)
    ensures r == Normal <==> auth.Some? && auth.value.authenticated
    ensures r != Normal ==> r == Thrown(Security(NotAuthenticatedMessage))
  {
    if auth.None? || !auth.value.authenticated then Thrown(Security(NotAuthenticatedMessage)) else Normal
  }

  /** One scope test of the loop in `handleAuthorization`. `split(":")[0]` is
      read first and the role segment only when the type matched, so a scope
      without a role segment fails with an index error only for a caller of
      that type. */
  function ScopeMatch(scope: string, ctx: RequestContext): Result<bool> {
    var parts := JavaSplit(scope);
    if |parts| == 0 then Err(IndexOutOfBounds)
    else if !EqualsIgnoreCase(parts[0], ctx.userType.Name()) then Ok(false)
    else if |parts| < 2 then Err(IndexOutOfBounds)
    else Ok(parts[1] == "*" || EqualsIgnoreCase(parts[1], ctx.role.Name()))
  }

  /** What a scope means: its type segment names the caller's type, ignoring
      case, and its role segment is the wildcard or the caller's role. */
  predicate Grants(scope: string, ctx: RequestContext) {
    var parts := JavaSplit(scope);
    |parts| >= 2 && EqualsIgnoreCase(parts[0], ctx.userType.Name())
    && (parts[1] == "*" || EqualsIgnoreCase(parts[1], ctx.role.Name()))
  }

  /** A scope with both segments present. */
  predicate WellFormed(scope: string) {
    |JavaSplit(scope)| >= 2
  }

  lemma ScopeMatchWellFormed(scope: string, ctx: RequestContext)
    requires WellFormed(scope)
    ensures ScopeMatch(scope, ctx) == Ok(Grants(scope, ctx))
  {
  }

  /** The loop of `handleAuthorization` over the remaining scopes: first match
      proceeds, a null scope or a missing segment throws, none throws Forbidden. */
  function ScanScopes(scopes: seq<Option<string>>, ctx: RequestContext): Decision {
    if |scopes| == 0 then Reject(Runtime(ForbiddenMessage(ctx)))
    else match scopes[0]
      case None => Reject(NullPointer(""))
      case Some(s) =>
        match ScopeMatch(s, ctx)
        case Err(e) => Reject(e)
        case Ok(true) => Proceed
        case Ok(false) => ScanScopes(scopes[1..], ctx)
  }

  /** `handleAuthorization`: the principal must be present, then the scan. */
  function AuthorizationDecision(scopes: seq<Option<string>>, auth: Option<AuthView>): Decision {
    var principal := if auth.Some? then auth.value.principal else None;
    match principal
    case None => Reject(Runtime(NoContextMessage))
    case Some(ctx) => ScanScopes(scopes, ctx)
  }

  /** The scopes collected for a method without method-level bypass: a direct
      `@Authorize` gives its one value, a container gives every element's value
      in order (NONE gives null), and an unannotated method gives none. */
  function AllowedScopes(decl: Declaration): seq<Option<string>> {
    match decl
    case Declaration(Some(a), _) => [a.scope.Value()]
    case Declaration(None, Some(list)) => seq(|list|, i requires 0 <= i < |list| => list[i].scope.Value())
    case Declaration(None, None) => []
  }

  /** `around`: the full decision for one invocation. A direct `@Authorize`
      without bypass whose scope is NONE fails building its one-element list
      (`List.of(null)`), before authentication is looked at. */
  function Decide(props: Properties, requestUrl: string, matches: (string, string) -> bool,
                  decl: Declaration, auth: Option<AuthView>): Decision
  {
    if IsAuthBypassedForEndpoint(props, requestUrl, matches) then Proceed
    else if decl.direct.Some? && decl.direct.value.bypass then Proceed
    else if decl.direct.Some? && decl.direct.value.scope.Value().None? then Reject(NullPointer(""))
    else
      match HandleAuthentication(auth)
      case Thrown(e) => Reject(e)
      case Normal => AuthorizationDecision(AllowedScopes(decl), auth)
  }

  /** `handleAuthorization` as the code runs it: a loop over the scopes that
      returns at the first match. */
  method HandleAuthorization(allowedScopes: seq<Option<string>>, auth: Option<AuthView>) returns (d: Decision)
    ensures d == AuthorizationDecision(allowedScopes, auth)
  {
    var principal := if auth.Some? then auth.value.principal else None;
    if principal.None? {
      return Reject(Runtime(NoContextMessage));
    }
    var ctx := principal.value;
    var i := 0;
    while i < |allowedScopes|
      invariant 0 <= i <= |allowedScopes|
      invariant ScanScopes(allowedScopes, ctx) == ScanScopes(allowedScopes[i..], ctx)
    {
      assert allowedScopes[i..][1..] == allowedScopes[i + 1..];
      var scope := allowedScopes[i];
      if scope.None? {
        return Reject(NullPointer(""));
      }
      var m := ScopeMatch(scope.value, ctx);
      if m.Err? {
        return Reject(m.error);
      }
      if m.value {
        return Proceed;
      }
      i := i + 1;
    }
    return Reject(Runtime(ForbiddenMessage(ctx)));
  }

  /** `around` as the code runs it, reading the request's security context. */
  method Around(props: Properties, requestUrl: string, matches: (string, string) -> bool,
                decl: Declaration, holder: SecurityContext) returns (d: Decision)
    ensures d == Decide(props, requestUrl, matches, decl, View(holder))
  {
    var allowedScopes: seq<Option<string>> := [];
    if IsAuthBypassedForEndpoint(props, requestUrl, matches) {
      return Proceed;
    }
    if decl.direct.Some? {
      var a := decl.direct.value;
      if a.bypass {
        return Proceed;
      }
      if a.scope.Value().None? {
        return Reject(NullPointer(""));
      }
      allowedScopes := [a.scope.Value()];
    } else if decl.container.Some? {
      allowedScopes := AllowedScopes(decl);
    }
    var auth := View(holder);
    var authn := HandleAuthentication(auth);
    if authn.Thrown? {
      return Reject(authn.error);
    }
    d := HandleAuthorization(allowedScopes, auth);
  }

  // ---- Properties of the decision ----

  /** A URL matching a bypass pattern proceeds whatever the method declares
      and whoever the caller is. */
  lemma PathBypassProceeds(props: Properties, requestUrl: string, matches: (string, string) -> bool,
                           decl: Declaration, auth: Option<AuthView>)
    requires IsAuthBypassedForEndpoint(props, requestUrl, matches)
    ensures Decide(props, requestUrl, matches, decl, auth) == Proceed
  {
  }

  /** With any configuration level missing, no URL is bypassed. */
  lemma MissingConfigBypassesNothing(props: Properties, requestUrl: string, matches: (string, string) -> bool)
    requires props.auth.None? || props.auth.value.bypass.None? || props.auth.value.bypass.value.endpoints.None?
    ensures !IsAuthBypassedForEndpoint(props, requestUrl, matches)
  {
  }

  /** `@Authorize(bypass = true)` proceeds without any caller at all. */
  lemma MethodBypassProceeds(props: Properties, requestUrl: string, matches: (string, string) -> bool,
                             a: Authorize, auth: Option<AuthView>)
    requires a.bypass
    ensures Decide(props, requestUrl, matches, Declaration(Some(a), None), auth) == Proceed
  {
  }

  /** The scan proceeds only on a scope that grants the caller. */
  lemma {:induction false} ScanProceedsOnlyOnGrant(scopes: seq<Option<string>>, ctx: RequestContext)
    requires ScanScopes(scopes, ctx) == Proceed
    ensures exists i :: 0 <= i < |scopes| && scopes[i].Some? && Grants(scopes[i].value, ctx)
  {
    if ScopeMatch(scopes[0].value, ctx) == Ok(true) {
      assert Grants(scopes[0].value, ctx);
    } else {
      ScanProceedsOnlyOnGrant(scopes[1..], ctx);
      var i :| 0 <= i < |scopes[1..]| && scopes[1..][i].Some? && Grants(scopes[1..][i].value, ctx);
      assert scopes[i + 1] == scopes[1..][i];
    }
  }

  /** Every scope is present and has both segments. */
  predicate AllWellFormed(scopes: seq<Option<string>>) {
    forall i :: 0 <= i < |scopes| ==> scopes[i].Some? && WellFormed(scopes[i].value)
  }

  /** Some present scope grants the caller. */
  predicate AnyGrants(scopes: seq<Option<string>>, ctx: RequestContext) {
    exists i :: 0 <= i < |scopes| && scopes[i].Some? && Grants(scopes[i].value, ctx)
  }

  lemma AnyGrantsCons(scopes: seq<Option<string>>, ctx: RequestContext)
    requires |scopes| > 0
    ensures AnyGrants(scopes, ctx)
            <==> (scopes[0].Some? && Grants(scopes[0].value, ctx)) || AnyGrants(scopes[1..], ctx)
  {
    if AnyGrants(scopes, ctx) {
      var i :| 0 <= i < |scopes| && scopes[i].Some? && Grants(scopes[i].value, ctx);
      if i > 0 {
        assert scopes[1..][i - 1] == scopes[i];
      }
    }
    if AnyGrants(scopes[1..], ctx) {
      var i :| 0 <= i < |scopes[1..]| && scopes[1..][i].Some? && Grants(scopes[1..][i].value, ctx);
      assert scopes[i + 1] == scopes[1..][i];
    }
  }

  /** Over well-formed scopes the scan proceeds exactly when some scope grants
      the caller, and otherwise rejects with the Forbidden message. */
  lemma {:induction false} ScanWellFormed(scopes: seq<Option<string>>, ctx: RequestContext)
    requires AllWellFormed(scopes)
    ensures ScanScopes(scopes, ctx)
            == if AnyGrants(scopes, ctx) then Proceed else Reject(Runtime(ForbiddenMessage(ctx)))
  {
    if |scopes| > 0 {
      ScopeMatchWellFormed(scopes[0].value, ctx);
      assert AllWellFormed(scopes[1..]) by {
        forall i | 0 <= i < |scopes[1..]| ensures scopes[1..][i].Some? && WellFormed(scopes[1..][i].value) {
          assert scopes[1..][i] == scopes[i + 1];
        }
      }
      ScanWellFormed(scopes[1..], ctx);
      AnyGrantsCons(scopes, ctx);
    }
  }

  /** The method body runs only if the URL is bypassed, the method bypasses,
      or an authenticated caller with a context is granted by a declared scope. */
  lemma ProceedOnlyWhenPermitted(props: Properties, requestUrl: string, matches: (string, string) -> bool,
                                 decl: Declaration, auth: Option<AuthView>)
    requires Decide(props, requestUrl, matches, decl, auth) == Proceed
    ensures || IsAuthBypassedForEndpoint(props, requestUrl, matches)
            || (decl.direct.Some? && decl.direct.value.bypass)
            || (&& auth.Some? && auth.value.authenticated && auth.value.principal.Some?
                && exists i :: 0 <= i < |AllowedScopes(decl)| && AllowedScopes(decl)[i].Some?
                               && Grants(AllowedScopes(decl)[i].value, auth.value.principal.value))
  {
    if !IsAuthBypassedForEndpoint(props, requestUrl, matches) && !(decl.direct.Some? && decl.direct.value.bypass) {
      ScanProceedsOnlyOnGrant(AllowedScopes(decl), auth.value.principal.value);
    }
  }

  /** Without a URL or method bypass, a missing or unauthenticated caller is
      rejected as not authenticated (unless the declaration itself is broken). */
  lemma UnauthenticatedRejected(props: Properties, requestUrl: string, matches: (string, string) -> bool,
                                decl: Declaration, auth: Option<AuthView>)
    requires !IsAuthBypassedForEndpoint(props, requestUrl, matches)
    requires decl.direct.Some? ==> !decl.direct.value.bypass && decl.direct.value.scope != NONE
    requires auth.None? || !auth.value.authenticated
    ensures Decide(props, requestUrl, matches, decl, auth) == Reject(Security(NotAuthenticatedMessage))
  {
  }

  /** An authenticated caller without a principal is rejected for lack of a context. */
  lemma NoContextRejected(props: Properties, requestUrl: string, matches: (string, string) -> bool,
                          decl: Declaration, auth: Option<AuthView>)
    requires !IsAuthBypassedForEndpoint(props, requestUrl, matches)
    requires decl.direct.Some? ==> !decl.direct.value.bypass && decl.direct.value.scope != NONE
    requires auth == Some(AuthView(true, None))
    ensures Decide(props, requestUrl, matches, decl, auth) == Reject(Runtime(NoContextMessage))
  {
  }

  /** A method with no annotation collects no scopes, so it runs only on a
      bypassed URL: every caller, authenticated or not, is rejected. */
  lemma UndeclaredRejected(props: Properties, requestUrl: string, matches: (string, string) -> bool,
                           auth: Option<AuthView>)
    requires !IsAuthBypassedForEndpoint(props, requestUrl, matches)
    ensures Decide(props, requestUrl, matches, Undeclared, auth).Reject?
    ensures auth.Some? && auth.value.authenticated && auth.value.principal.Some? ==>
      Decide(props, requestUrl, matches, Undeclared, auth) == Reject(Runtime(ForbiddenMessage(auth.value.principal.value)))
  {
  }

  /** What each scope constant grants, in terms of the caller's classification. */
  predicate ScopeCovers(a: AppScope, ctx: RequestContext) {
    match a
    case NONE => false
    case CUSTOMER_ALL => ctx.userType == CUSTOMER
    case SELLER_ALL => ctx.userType == SELLER
    case SELLER_ADMIN => ctx.userType == SELLER && ctx.role == ADMIN
    case SELLER_CSR => ctx.userType == SELLER && ctx.role == CSR
    case SELLER_MARKETING => ctx.userType == SELLER && ctx.role == MARKETING
  }

  /** A type segment of the scope table matches exactly its own user type's name. */
  lemma TypeSegmentMatches(t: string, ut: UserType)
    requires t == "customer" || t == "seller"
    ensures EqualsIgnoreCase(t, ut.Name()) <==> (t == "customer" <==> ut == CUSTOMER)
  {
    var n := ut.Name();
    if (t == "customer") == (ut == CUSTOMER) {
      forall i | 0 <= i < |t| ensures FoldCase(t[i]) == FoldCase(n[i]) {
      }
    } else {
      assert |t| != |n|;
    }
  }

  /** A named role segment of the scope table matches exactly its own role's name. */
  lemma RoleSegmentMatches(r: string, role: Role)
    requires r == "admin" || r == "csr" || r == "marketing"
    ensures EqualsIgnoreCase(r, role.Name())
            <==> (r == "admin" && role == ADMIN) || (r == "csr" && role == CSR) || (r == "marketing" && role == MARKETING)
  {
    var n := role.Name();
    if (r == "admin" && role == ADMIN) || (r == "csr" && role == CSR) || (r == "marketing" && role == MARKETING) {
      forall i | 0 <= i < |r| ensures FoldCase(r[i]) == FoldCase(n[i]) {
      }
    } else {
      assert |r| != |n|;
    }
  }

  /** The table's strings, matched case-insensitively against the enum names,
      grant exactly what `ScopeCovers` says: the wildcard any role of the type,
      a named role only that role. */
  lemma AppScopeGrants(a: AppScope, ctx: RequestContext)
    requires a != NONE
    ensures WellFormed(a.Value().value)
    ensures Grants(a.Value().value, ctx) <==> ScopeCovers(a, ctx)
  {
    ValueWellFormed(a);
    var (t, r) := a.Segments();
    TypeSegmentMatches(t, ctx.userType);
    if r != "*" {
      RoleSegmentMatches(r, ctx.role);
    }
  }

  /** The scopes collected from scope constants are well formed and grant
      exactly what the constants cover. */
  lemma CollectedScopesCover(written: seq<Authorize>, ctx: RequestContext)
    requires forall i :: 0 <= i < |written| ==> written[i].scope != NONE
    ensures AllWellFormed(AllowedScopes(Declare(written)))
    ensures AnyGrants(AllowedScopes(Declare(written)), ctx)
            <==> exists i :: 0 <= i < |written| && ScopeCovers(written[i].scope, ctx)
  {
    var scopes := AllowedScopes(Declare(written));
    assert |scopes| == |written|;
    forall i | 0 <= i < |written|
      ensures scopes[i] == written[i].scope.Value()
      ensures scopes[i].Some? && WellFormed(scopes[i].value)
      ensures Grants(scopes[i].value, ctx) <==> ScopeCovers(written[i].scope, ctx)
    {
      AppScopeGrants(written[i].scope, ctx);
    }
    if exists i :: 0 <= i < |written| && ScopeCovers(written[i].scope, ctx) {
      var i :| 0 <= i < |written| && ScopeCovers(written[i].scope, ctx);
      assert scopes[i].Some? && Grants(scopes[i].value, ctx);
    }
  }

  /** For a method declared with scope constants only (no NONE, no bypass),
      an authenticated caller with a context proceeds exactly when one of the
      declared constants covers it. */
  lemma DeclaredScopesDecision(props: Properties, requestUrl: string, matches: (string, string) -> bool,
                               written: seq<Authorize>, ctx: RequestContext)
    requires !IsAuthBypassedForEndpoint(props, requestUrl, matches)
    requires forall i :: 0 <= i < |written| ==> written[i].scope != NONE && !written[i].bypass
    ensures Decide(props, requestUrl, matches, Declare(written), Some(AuthView(true, Some(ctx)))) == Proceed
            <==> exists i :: 0 <= i < |written| && ScopeCovers(written[i].scope, ctx)
  {
    var decl := Declare(written);
    var scopes := AllowedScopes(decl);
    if decl.direct.Some? {
      assert decl.direct.value == written[0];
      ValuesDistinct(written[0].scope, NONE);
    }
    assert Decide(props, requestUrl, matches, decl, Some(AuthView(true, Some(ctx)))) == ScanScopes(scopes, ctx);
    CollectedScopesCover(written, ctx);
    ScanWellFormed(scopes, ctx);
  }
}
