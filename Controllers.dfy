/** The handler declarations of the two REST controllers, and what the
    startup check and the per-call decision make of them. */
module Controllers {
  import opened Common
  import opened Scopes
  import opened Annotations
  import opened DeclarationValidator
  import opened UserContextBuilder
  import opened SecurityContextHolder
  import opened AuthorizeAspect

  function Scoped(a: AppScope): Authorize {
    Written(Some(a), None)
  }

  /** The handlers of `UserController`. */
  datatype UserEndpoint = CreateUser | GetUsers | GetUser | UpdateUser | DeleteUser {
    function Name(): string {
      match this
      case CreateUser => "createUser"
      case GetUsers => "getUsers"
      case GetUser => "getUser"
      case UpdateUser => "updateUser"
      case DeleteUser => "deleteUser"
    }

    /** The handler's `@Authorize` annotations in source order. */
    function Written(): seq<Authorize> {
      match this
      case CreateUser => [Scoped(CUSTOMER_ALL), Scoped(SELLER_ADMIN)]
      case GetUsers => [Scoped(SELLER_ADMIN), Scoped(SELLER_MARKETING)]
      case GetUser => [Scoped(SELLER_ALL)]
      case UpdateUser => [Scoped(CUSTOMER_ALL), Scoped(SELLER_ADMIN), Scoped(SELLER_CSR)]
      case DeleteUser => [Scoped(SELLER_ADMIN)]
    }

    function Method(): HandlerMethod {
      HandlerMethod(Name(), Declare(Written()))
    }
  }

  const UserEndpoints: seq<UserEndpoint> := [CreateUser, GetUsers, GetUser, UpdateUser, DeleteUser]

  /** The bean's declared methods, in source order. */
  const UserControllerMethods: seq<HandlerMethod> :=
    seq(|UserEndpoints|, i requires 0 <= i < |UserEndpoints| => UserEndpoints[i].Method())

  /** `AuthController`'s login handler, open to everyone through its bypass. */
  const Login: Authorize := Annotations.Written(None, Some(true))
  const AuthControllerMethods: seq<HandlerMethod> := [HandlerMethod("authenticate", Declare([Login]))]

  /** The access policy of the user endpoints, stated on the caller's
      classification independently of the scope strings. */
  predicate UserEndpointPolicy(e: UserEndpoint, ctx: RequestContext) {
    var customer := ctx.userType == CUSTOMER;
    var seller := ctx.userType == SELLER;
    match e
    case CreateUser => customer || (seller && ctx.role == ADMIN)
    case GetUsers => seller && (ctx.role == ADMIN || ctx.role == MARKETING)
    case GetUser => seller
    case UpdateUser => customer || (seller && ctx.role != MARKETING)
    case DeleteUser => seller && ctx.role == ADMIN
  }

  /** Each user endpoint's annotations carry a scope and no bypass. */
  lemma EndpointPassesValidation(e: UserEndpoint, beanName: string)
    ensures ValidateMethod(e.Method(), beanName) == Normal
  {
    var w := e.Written();
    if |w| == 1 {
      ValidateAuthorizeIff(w[0], e.Name(), beanName);
    } else {
      ValidateAuthorizeListIff(w, e.Name(), beanName);
    }
  }

  /** Both controllers pass the startup check under any bean name. */
  lemma ControllersPassValidation(beanName: string)
    ensures MethodsValid(UserControllerMethods, beanName)
    ensures MethodsValid(AuthControllerMethods, beanName)
  {
    forall i | 0 <= i < |UserControllerMethods|
      ensures ValidateMethod(UserControllerMethods[i], beanName) == Normal
    {
      EndpointPassesValidation(UserEndpoints[i], beanName);
    }
    ValidateAuthorizeIff(Login, "authenticate", beanName);
  }

  /** Some annotation of the endpoint covers the caller exactly when the policy admits it. */
  lemma AnnotationsMatchPolicy(e: UserEndpoint, ctx: RequestContext)
    ensures forall k :: 0 <= k < |e.Written()| ==> e.Written()[k].scope != NONE && !e.Written()[k].bypass
    ensures (exists k :: 0 <= k < |e.Written()| && ScopeCovers(e.Written()[k].scope, ctx))
            <==> UserEndpointPolicy(e, ctx)
  {
    var w := e.Written();
    match e
    case CreateUser =>
      assert ScopeCovers(w[0].scope, ctx) || ScopeCovers(w[1].scope, ctx) <==> UserEndpointPolicy(e, ctx);
    case GetUsers =>
      assert ScopeCovers(w[0].scope, ctx) || ScopeCovers(w[1].scope, ctx) <==> UserEndpointPolicy(e, ctx);
    case GetUser =>
      assert ScopeCovers(w[0].scope, ctx) <==> UserEndpointPolicy(e, ctx);
    case UpdateUser =>
      assert ScopeCovers(w[0].scope, ctx) || ScopeCovers(w[1].scope, ctx) || ScopeCovers(w[2].scope, ctx)
             <==> UserEndpointPolicy(e, ctx);
    case DeleteUser =>
      assert ScopeCovers(w[0].scope, ctx) <==> UserEndpointPolicy(e, ctx);
  }

  /** Every user endpoint lets an authenticated caller with a context through
      exactly when the policy admits the caller (no URL bypass configured). */
  lemma UserEndpointAccess(props: Properties, requestUrl: string, matches: (string, string) -> bool,
                           e: UserEndpoint, ctx: RequestContext)
    requires !IsAuthBypassedForEndpoint(props, requestUrl, matches)
    ensures Decide(props, requestUrl, matches, e.Method().declaration, Some(AuthView(true, Some(ctx)))) == Proceed
            <==> UserEndpointPolicy(e, ctx)
  {
    AnnotationsMatchPolicy(e, ctx);
    DeclaredScopesDecision(props, requestUrl, matches, e.Written(), ctx);
  }

  /** The user endpoints reject every caller that is not authenticated. */
  lemma UserEndpointsRequireAuthentication(props: Properties, requestUrl: string, matches: (string, string) -> bool,
                                           e: UserEndpoint, auth: Option<AuthView>)
    requires !IsAuthBypassedForEndpoint(props, requestUrl, matches)
    requires auth.None? || !auth.value.authenticated
    ensures Decide(props, requestUrl, matches, e.Method().declaration, auth)
            == Reject(Security(NotAuthenticatedMessage))
  {
    var d := e.Method().declaration;
    if d.direct.Some? {
      ValuesDistinct(d.direct.value.scope, NONE);
    }
    UnauthenticatedRejected(props, requestUrl, matches, d, auth);
  }

  /** The login handler proceeds for anyone, authenticated or not. */
  lemma LoginAlwaysProceeds(props: Properties, requestUrl: string, matches: (string, string) -> bool,
                            auth: Option<AuthView>)
    ensures Decide(props, requestUrl, matches, AuthControllerMethods[0].declaration, auth) == Proceed
  {
    MethodBypassProceeds(props, requestUrl, matches, Login, auth);
  }
}
