# authauz — authentication and authorization layer, modelled in Dafny

The system is a Spring Boot service. It authenticates a caller from a signed
JWT carried in a session cookie, then authorizes each controller method from
`@Authorize` annotations that name application scopes (`type:role`).

The model covers the current tree (`com.authauz.authauz`). Where the older
tree (`com.authAuz.authAuz`) behaves differently, the model covers that too.
These are the parts modelled:

- `Annotations`, `Scopes`: the `@Authorize` annotation, its defaults and its
  repeatable container. The `AppScopes` constants and their string values,
  and Java's `String.split(":")` on them.
- `DeclarationValidator`: the startup bean post-processor. It checks that
  every handler method of a REST controller declares exactly one of a scope
  and a bypass.
- `AuthorizeAspect`: the `around` advice. It handles URL bypass, direct
  annotations and containers, then authentication, then the scope scan. The
  code runs this as a loop (`HandleAuthorization`, `Around`). Each is proved
  equal to the decision function `Decide`, and properties are proved about
  `Decide`.
- `Controllers`: the annotations on `UserController` and `AuthController`, and
  the access policy they produce.
- `Jws`: the part of the JWT library the code relies on. It covers claim
  building, the compact form, and verification with a 10-second clock skew.
  The serializer, parser and MAC are a parameter of the model.
- `JwtUtils` (current tree), `JwtService` (older tree): token issue, payload
  reading and key derivation, with each tree's own error messages.
- `Providers`: both trees' `JwtBasedAuthenticationProvider` and their
  `supports` checks.
- `UserContextBuilder`: `prepareContext` in both trees.
- `AuthenticationToken`: both trees' `JwtAuthenticationToken`, a class whose
  `authenticated` flag can only be cleared.
- `SecurityContextHolder`: the request's security context, as an object.
- `CookieFilter`: the cookie-based authentication filter.
- `AuthService`: login against the built-in account and issue of the session
  token.
- `EndToEnd`: one request through the filter and then the aspect.

Every operation that takes the clock, a random UUID or configuration gets it
as a parameter. Java `null` is `Option.None`. A thrown exception is an `Err`
or `Thrown` value carrying a `Common.Exception`.

Where the code and its design description differ, the model follows the code:

- A token issued with a lifetime of −1 s is still accepted when it is read
  back at issue time. The library's 10-second clock skew covers it
  (`JwtUtils.NegativeLifetimeAcceptedAtIssue`).
- Bypass patterns are matched against the full request URL, not only the path
  (`AuthorizeAspect.IsAuthBypassedForEndpoint`).
- A handler without any `@Authorize` gets an empty scope list. An
  authenticated caller is therefore refused as forbidden, and an
  unauthenticated one as not authenticated (`AuthorizeAspect.UndeclaredRejected`).
- The older tree's own key check refuses only a `null` secret. An empty or
  blank secret passes that check and is handed to the library
  (`JwtService.SecretKeyChecksCompared`, whose claim about `""` is about the
  wrapper's check only). The library's key-length check, which refuses such
  secrets, is not part of this model.
- The startup check rejects an explicit container that sets `bypass`. The
  aspect ignores `bypass` inside a container, so such a declaration can only
  reach the aspect with scopes.

## Model

| member | source | states |
|---|---|---|
| Annotations.Written | src/main/java/com/authauz/authauz/security/annotation/Authorize.java:13-17 | an attribute that is not written takes its default: scope `NONE`, bypass `false` |
| Annotations.BareAuthorizeHasNeither | src/main/java/com/authauz/authauz/security/annotation/Authorize.java:15-17 | a bare `@Authorize` has no scope value and no bypass |
| Annotations.Declare | src/main/java/com/authauz/authauz/security/annotation/Authorize.java:13 | no annotation gives nothing, one gives the direct annotation, two or more give the container in source order |
| Scopes.SplitScope | src/main/java/com/authauz/authauz/security/aspect/AuthorizeAspect.java:134 | `split(":")` of `t:r` with colon-free, non-empty `r` yields exactly `[t, r]` |
| Scopes.ValueWellFormed | src/main/java/com/authauz/authauz/common/AppScopes.java:12-17 | every constant except `NONE` has the value `type:role` with two non-empty, colon-free segments, and splits into them |
| Scopes.ValuesDistinct | src/main/java/com/authauz/authauz/common/AppScopes.java:12-17 | only `NONE` has a null value, and distinct constants have distinct values |
| DeclarationValidator.ValidateAnnotationArguments | src/main/java/com/authauz/authauz/security/annotation/AuthorizeAnnotationBeanPostProcessor.java:94-108 | passes exactly when scope XOR bypass; both, or neither, throws IllegalStateException with the message naming method and bean |
| DeclarationValidator.ValidateAuthorizeIff | src/main/java/com/authauz/authauz/security/annotation/AuthorizeAnnotationBeanPostProcessor.java:77-82 | a single annotation passes exactly when its scope is not `NONE` XOR it bypasses |
| DeclarationValidator.ValidateAuthorizeListIff | src/main/java/com/authauz/authauz/security/annotation/AuthorizeAnnotationBeanPostProcessor.java:59-67 | a container passes exactly when it is non-empty and no element bypasses, since an element's constant always counts as a scope |
| DeclarationValidator.ValidateAnnotationsOnMethods | src/main/java/com/authauz/authauz/security/annotation/AuthorizeAnnotationBeanPostProcessor.java:40-48 | the method loop passes exactly when every method is valid; otherwise it reports the failure of the first invalid method |
| DeclarationValidator.PostProcessBeforeInitialization | src/main/java/com/authauz/authauz/security/annotation/AuthorizeAnnotationBeanPostProcessor.java:22-31 | a bean that is not a REST controller is returned untouched; a controller is returned exactly when all its methods are valid, else the first failure is thrown |
| DeclarationValidator.Bean.constructor | src/main/java/com/authauz/authauz/security/annotation/AuthorizeAnnotationBeanPostProcessor.java:23-25 | a bean records its controller marker and its declared methods |
| AuthorizeAspect.NoAuthEndpoints | src/main/java/com/authauz/authauz/security/aspect/AuthorizeAspect.java:154-157 | a missing configuration level gives no patterns; otherwise the configured list |
| AuthorizeAspect.MissingConfigBypassesNothing | src/main/java/com/authauz/authauz/security/aspect/AuthorizeAspect.java:154-162 | with any configuration level missing, no URL is bypassed |
| AuthorizeAspect.HandleAuthentication | src/main/java/com/authauz/authauz/security/aspect/AuthorizeAspect.java:107-113 | normal exactly when an authentication is present and authenticated, else the not-authenticated SecurityException |
| AuthorizeAspect.ScopeMatchWellFormed | src/main/java/com/authauz/authauz/security/aspect/AuthorizeAspect.java:134-138 | on a two-segment scope, one loop test neither fails nor depends on more than `Grants`: type equals the user type and role is `*` or the role, ignoring case |
| AuthorizeAspect.HandleAuthorization | src/main/java/com/authauz/authauz/security/aspect/AuthorizeAspect.java:122-146 | the loop returns the same decision as the scan function over the scopes: no context, first granting scope, a failing scope, or forbidden |
| AuthorizeAspect.Around | src/main/java/com/authauz/authauz/security/aspect/AuthorizeAspect.java:70-102 | the advice, read from the request's security context, equals `Decide` on that context's view |
| AuthorizeAspect.PathBypassProceeds | src/main/java/com/authauz/authauz/security/aspect/AuthorizeAspect.java:77-79 | a URL matching a bypass pattern proceeds whatever the method declares and whoever calls |
| AuthorizeAspect.MethodBypassProceeds | src/main/java/com/authauz/authauz/security/aspect/AuthorizeAspect.java:82-88 | a direct `@Authorize(bypass = true)` proceeds for any caller, even none |
| AuthorizeAspect.ScanProceedsOnlyOnGrant | src/main/java/com/authauz/authauz/security/aspect/AuthorizeAspect.java:133-141 | the scan proceeds only if some present scope grants the caller |
| AuthorizeAspect.AnyGrantsCons | src/main/java/com/authauz/authauz/security/aspect/AuthorizeAspect.java:133-141 | some scope of a list grants exactly when the head grants or some scope of the tail does |
| AuthorizeAspect.ScanWellFormed | src/main/java/com/authauz/authauz/security/aspect/AuthorizeAspect.java:133-145 | over two-segment scopes the scan proceeds exactly when some scope grants, and otherwise is forbidden for this context |
| AuthorizeAspect.ProceedOnlyWhenPermitted | src/main/java/com/authauz/authauz/security/aspect/AuthorizeAspect.java:70-102 | the handler runs only on a URL bypass, a direct bypass, or an authenticated caller with a context that some collected scope grants |
| AuthorizeAspect.UnauthenticatedRejected | src/main/java/com/authauz/authauz/security/aspect/AuthorizeAspect.java:98-99 | without bypass, a missing or unauthenticated caller is refused with the not-authenticated SecurityException |
| AuthorizeAspect.NoContextRejected | src/main/java/com/authauz/authauz/security/aspect/AuthorizeAspect.java:124-130 | an authenticated caller without a principal is refused with the no-user-context RuntimeException |
| AuthorizeAspect.UndeclaredRejected | src/main/java/com/authauz/authauz/security/aspect/AuthorizeAspect.java:74 | a handler with no annotation is refused for every caller, and as forbidden for an authenticated one with a context |
| AuthorizeAspect.TypeSegmentMatches | src/main/java/com/authauz/authauz/security/aspect/AuthorizeAspect.java:136 | a type segment of the scope table matches exactly its own user type's name |
| AuthorizeAspect.RoleSegmentMatches | src/main/java/com/authauz/authauz/security/aspect/AuthorizeAspect.java:137-138 | a named role segment of the scope table matches its own role's name |
| AuthorizeAspect.AppScopeGrants | src/main/java/com/authauz/authauz/common/AppScopes.java:13-17 | every scope constant is well formed and grants exactly the callers its name describes (type, and role or any role) |
| AuthorizeAspect.CollectedScopesCover | src/main/java/com/authauz/authauz/security/aspect/AuthorizeAspect.java:82-96 | the scopes collected from scope constants are well formed and some grants exactly when some constant covers the caller |
| AuthorizeAspect.DeclaredScopesDecision | src/main/java/com/authauz/authauz/security/aspect/AuthorizeAspect.java:70-102 | for constants-only declarations, an authenticated caller with a context proceeds exactly when some declared constant covers them, and is forbidden otherwise |
| Controllers.EndpointPassesValidation | src/main/java/com/authauz/authauz/rest/controller/UserController.java:26-63 | each user endpoint's annotations pass the startup check |
| Controllers.ControllersPassValidation | src/main/java/com/authauz/authauz/rest/controller/UserController.java:26-63 | both controllers pass the startup check under any bean name |
| Controllers.AnnotationsMatchPolicy | src/main/java/com/authauz/authauz/rest/controller/UserController.java:26-63 | each endpoint declares only scope constants, and they cover a caller exactly when the endpoint's access policy admits it |
| Controllers.UserEndpointAccess | src/main/java/com/authauz/authauz/rest/controller/UserController.java:26-63 | an authenticated caller with a context proceeds on a user endpoint exactly when the policy admits it, and is forbidden otherwise |
| Controllers.UserEndpointsRequireAuthentication | src/main/java/com/authauz/authauz/rest/controller/UserController.java:26-63 | without URL bypass every user endpoint refuses a missing or unauthenticated caller as not authenticated |
| Controllers.LoginAlwaysProceeds | src/main/java/com/authauz/authauz/rest/controller/AuthController.java:29-31 | the login handler proceeds for any caller |
| Jws.KeyFor | src/main/java/com/authauz/authauz/utils/JwtUtils.java:131 | the HMAC key derived from a secret keeps that secret |
| Jws.SecondsOf | src/main/java/com/authauz/authauz/utils/JwtUtils.java:113-115 | a date is stored as whole seconds, truncated toward zero: within one second of the instant |
| Jws.BuildClaimsContents | src/main/java/com/authauz/authauz/utils/JwtUtils.java:106-115 | the built claims hold the subject (if any), the id, the custom claims, the audience and the three dates, with later builder calls overriding earlier ones |
| Jws.VerifiedIsAuthentic | src/main/java/com/authauz/authauz/utils/JwtUtils.java:41-46 | a verified token was signed with the verifying key, and its dates are well typed and within the skewed window |
| Jws.CompactWindow | src/main/java/com/authauz/authauz/utils/JwtUtils.java:41-46 | a token signed with a key verifies with the same key exactly inside its skewed time window, and is reported expired or premature outside it |
| Jws.OtherKeyMismatch | src/main/java/com/authauz/authauz/utils/JwtUtils.java:47-48 | a token signed with one key is refused by another for its signature |
| Jws.Subject | src/main/java/com/authAuz/authAuz/security/provider/JwtBasedAuthenticationProvider.java:36 | the subject is present exactly when a text `sub` claim is |
| Jws.Audience | src/main/java/com/authauz/authauz/security/provider/JwtBasedAuthenticationProvider.java:60 | no `aud` claim means no audience; a single text is a one-element list; a list is returned as it is |
| JwtUtils.ValidateInputs | src/main/java/com/authauz/authauz/utils/JwtUtils.java:142-146 | subject, audience and key must be non-null, checked in that order, each with its own NullPointerException message |
| JwtUtils.GenerateTokenWithClaims | src/main/java/com/authauz/authauz/utils/JwtUtils.java:96-118 | issues a token exactly when the inputs validate, and then it is the compact form of the built claims expiring `expiresIn` seconds after `now` |
| JwtUtils.GenerateToken | src/main/java/com/authauz/authauz/utils/JwtUtils.java:65-82 | the no-claims overload issues the same token as the general one with no custom claims |
| JwtUtils.GenerateSecretKey | src/main/java/com/authauz/authauz/utils/JwtUtils.java:127-132 | a key is made exactly when the secret is non-null and not blank after trimming, else IllegalArgumentException |
| JwtUtils.Report | src/main/java/com/authauz/authauz/utils/JwtUtils.java:41-50 | a bad signature and an expired token become the two IllegalArgumentException messages; other library failures propagate |
| JwtUtils.GetPayload | src/main/java/com/authauz/authauz/utils/JwtUtils.java:33-52 | a null key, then a null token, are refused first; the claims are returned exactly when the library verifies the token |
| JwtUtils.IssuedDates | src/main/java/com/authauz/authauz/utils/JwtUtils.java:100-115 | an issued token's iat and nbf are `now` and its exp is `now + expiresIn` seconds, in whole seconds |
| JwtUtils.TokenRoundTrip | src/main/java/com/authauz/authauz/utils/JwtUtils.java:96-118 | a token issued at `now` and read with the same key at a time in `[now-9s, now+expiresIn+9s]` yields its subject, audience and custom claims |
| JwtUtils.ExpiredAfterSkew | src/main/java/com/authauz/authauz/utils/JwtUtils.java:41-46 | read more than 11 s after its expiry, an issued token is refused as expired |
| JwtUtils.NegativeLifetimeAcceptedAtIssue | src/main/java/com/authauz/authauz/utils/JwtUtils.java:100-115 | a token with a lifetime of −1 s is still accepted at issue time, because of the clock skew |
| JwtUtils.OtherKeyInvalid | src/main/java/com/authauz/authauz/utils/JwtUtils.java:47-48 | a token read with a different key is refused with the invalid-token IllegalArgumentException |
| JwtService.GetPayload | src/main/java/com/authAuz/authAuz/service/JwtService.java:26-43 | a null token is refused before the key is looked at; signature and expiry failures become message keys; other failures propagate |
| JwtService.GenerateTokenWithClaims | src/main/java/com/authAuz/authAuz/service/JwtService.java:71-92 | only a null key fails; otherwise the token is the compact form of the built claims expiring `expiresIn` seconds after `now` |
| JwtService.GenerateToken | src/main/java/com/authAuz/authAuz/service/JwtService.java:55-69 | the no-claims overload equals the general one with no custom claims |
| JwtService.GenerateSecretKey | src/main/java/com/authAuz/authAuz/service/JwtService.java:101-104 | only a null secret is refused, with the key-not-found message key |
| JwtService.SecretKeyChecksCompared | src/main/java/com/authAuz/authAuz/service/JwtService.java:101-104 | the two key checks agree on a secret the current one accepts, and differ exactly on blank secrets |
| JwtService.GenerateAgreesWhenInputsPresent | src/main/java/com/authAuz/authAuz/service/JwtService.java:71-92 | with every input present both trees issue the same token |
| JwtService.NullSubjectOmitted | src/main/java/com/authAuz/authAuz/service/JwtService.java:78 | a token issued without a subject reads back without one |
| JwtService.NullAudienceOmitted | src/main/java/com/authAuz/authAuz/service/JwtService.java:81-83 | a token issued without an audience reads back without one |
| JwtService.PayloadReadersAgree | src/main/java/com/authAuz/authAuz/service/JwtService.java:26-43 | on a present token and key both readers accept the same tokens with the same claims |
| JwtService.DistinctIdsDistinctTokens | src/main/java/com/authAuz/authAuz/service/JwtService.java:79 | tokens differing only in their random id differ |
| Providers.ParseUuid | src/main/java/com/authauz/authauz/security/provider/JwtBasedAuthenticationProvider.java:60 | a canonical UUID string parses to its value; null throws NullPointerException and anything else IllegalArgumentException |
| Providers.FirstAudience | src/main/java/com/authauz/authauz/security/provider/JwtBasedAuthenticationProvider.java:60 | the first audience, NullPointerException without one, IndexOutOfBounds on an empty list |
| Providers.Authenticate | src/main/java/com/authauz/authauz/security/provider/JwtBasedAuthenticationProvider.java:52-64 | succeeds exactly when key, payload, audience and UUID all resolve, with a fresh authenticated token carrying the same raw token and the resolved context; otherwise the failing step's exception |
| Providers.SupportsOwnTokenOnly | src/main/java/com/authauz/authauz/security/provider/JwtBasedAuthenticationProvider.java:75-77 | whatever its superclasses, each tree's token class is supported by its own provider, and by the other tree's provider exactly when it extends that tree's token class |
| Providers.SubclassSupported | src/main/java/com/authAuz/authAuz/security/provider/JwtBasedAuthenticationProvider.java:43-46 | in both trees, a subclass of a supported class is supported |
| Providers.IssuedTokenResolves | src/main/java/com/authauz/authauz/security/provider/JwtBasedAuthenticationProvider.java:52-64 | a token issued with the configured secret for a user id, read inside its window, resolves to that user's context |
| Providers.SecretCheckedFirst | src/main/java/com/authauz/authauz/security/provider/JwtBasedAuthenticationProvider.java:57 | an unusable secret fails before the token is looked at |
| Providers.ResolvedContextShape | src/main/java/com/authauz/authauz/security/provider/JwtBasedAuthenticationProvider.java:58-62 | a resolved context is SELLER/ADMIN with a user id whose canonical string is the lower-cased first audience |
| Providers.LegacyAuthenticate | src/main/java/com/authAuz/authAuz/security/provider/JwtBasedAuthenticationProvider.java:28-41 | the older provider succeeds exactly when key, payload, UUID subject, audience and UUID audience resolve, with a fresh authenticated token |
| Providers.LegacyNeedsUuidSubject | src/main/java/com/authAuz/authAuz/security/provider/JwtBasedAuthenticationProvider.java:36-39 | the older provider authenticates only tokens whose subject is a UUID, and hands on an empty context |
| Providers.LegacyRefusesUserNameSubject | src/main/java/com/authAuz/authAuz/security/provider/JwtBasedAuthenticationProvider.java:36 | a current-tree login token whose subject is a user name is refused by the older provider |
| UserContextBuilder.PrepareContext | src/main/java/com/authauz/authauz/security/provider/UserContextBuilder.java:32-40 | the context carries the user id and the fixed SELLER/ADMIN classification |
| UserContextBuilder.PrepareContextDependsOnlyOnUserId | src/main/java/com/authauz/authauz/security/provider/UserContextBuilder.java:32-40 | two contexts are equal exactly when their user ids are |
| UserContextBuilder.LegacyPrepareContext | src/main/java/com/authAuz/authAuz/security/provider/UserContextBuilder.java:15-19 | the older builder keeps neither id: user type and user id stay null |
| AuthenticationToken.JwtAuthenticationToken.Unauthenticated | src/main/java/com/authauz/authauz/security/token/JwtAuthenticationToken.java:33-38 | a request token holds the raw token, no principal, no details, and is not authenticated |
| AuthenticationToken.JwtAuthenticationToken.Authenticated | src/main/java/com/authauz/authauz/security/token/JwtAuthenticationToken.java:46-52 | an authenticated token holds the raw token and the principal, also as details |
| AuthenticationToken.JwtAuthenticationToken.SetAuthenticated | src/main/java/com/authauz/authauz/security/token/JwtAuthenticationToken.java:83-88 | setting `true` throws IllegalArgumentException and changes nothing; setting `false` clears the flag; the flag is never raised |
| AuthenticationToken.JwtAuthenticationToken.GetPrincipal | src/main/java/com/authauz/authauz/security/token/JwtAuthenticationToken.java:61-63 | returns the principal |
| AuthenticationToken.JwtAuthenticationToken.GetCredentials | src/main/java/com/authauz/authauz/security/token/JwtAuthenticationToken.java:96-98 | returns the raw token |
| AuthenticationToken.JwtAuthenticationToken.IsAuthenticated | src/main/java/com/authauz/authauz/security/token/JwtAuthenticationToken.java:71-73 | returns the authenticated flag |
| SecurityContextHolder.View | src/main/java/com/authauz/authauz/security/aspect/AuthorizeAspect.java:123-126 | what the aspect reads: present exactly when an authentication is stored, with its flag and principal |
| CookieFilter.FirstCookieValue | src/main/java/com/authauz/authauz/security/filter/CookieBasedAuthenticationFilter.java:53-63 | a value exactly when some cookie has the name, and then the value of the first such cookie |
| CookieFilter.GetTokenFromCookies | src/main/java/com/authauz/authauz/security/filter/CookieBasedAuthenticationFilter.java:53-63 | the loop returns nothing for a null cookie array, else the first matching cookie's value |
| CookieFilter.DoFilterInternal | src/main/java/com/authauz/authauz/security/filter/CookieBasedAuthenticationFilter.java:34-51 | on a resolving token the context holds a fresh authenticated token with the resolved principal, otherwise the context is unchanged |
| CookieFilter.NoCookieNoToken | src/main/java/com/authauz/authauz/security/filter/CookieBasedAuthenticationFilter.java:53-63 | a request without the session cookie yields no token |
| CookieFilter.CookieNameCaseSensitive | src/main/java/com/authauz/authauz/security/filter/CookieBasedAuthenticationFilter.java:57 | a cookie whose name differs from the configured one only in case is skipped, and a cookie with exactly that name is taken |
| AuthService.ValidateAuthRequest | src/main/java/com/authauz/authauz/service/AuthService.java:82-86 | request, username and password must be non-null, checked in that order |
| AuthService.CredentialsValidIff | src/main/java/com/authauz/authauz/service/AuthService.java:53 | accepted credentials are exactly a case variant of "user" with the password "password" exactly |
| AuthService.Authenticate | src/main/java/com/authauz/authauz/service/AuthService.java:48-80 | each failure is reported in order; success exactly when the request validates, the credentials match and the key is made, answering SELLER/ADMIN and the token issued for the user name and the random audience |
| AuthService.LoginClaimsShape | src/main/java/com/authauz/authauz/service/AuthService.java:66-68 | the login's custom claims are exactly the user type and role names, and clash with no registered claim |
| EndToEnd.HandleRequest | src/main/java/com/authauz/authauz/security/filter/CookieBasedAuthenticationFilter.java:34-51 | a request through the filter and then the aspect gets the decision `Decide` makes on what the filter resolved |
| EndToEnd.NoSessionRefused | src/main/java/com/authauz/authauz/security/aspect/AuthorizeAspect.java:98-99 | without a resolving session cookie every user endpoint refuses the request as not authenticated |
| EndToEnd.LoginTokenOpensUserEndpoints | src/main/java/com/authauz/authauz/service/AuthService.java:61-79 | a login token sent back within its window resolves to the audience's context and opens every user endpoint |

## Left out

- The JWT library (JJWT) itself is a parameter. Its serializer, parser and
  HMAC are function values. Two hypotheses are stated as predicates and
  assumed where lemmas need them: `Jws.WellBehaved` (parsing a serialized
  token gives back its claims and MAC) and `Jws.MacBindsKey` (different keys
  give different MACs). Base64url, JSON and HMAC-SHA are not modelled.
- The library's key-length checks (weak-key exceptions for short secrets) are
  not modelled. Any secret that passes the code's own check becomes a key.
- Spring's `AntPathMatcher` is the parameter `matches`. Pattern syntax is not
  modelled.
- The clock and `UUID.randomUUID()` are parameters (`now`, `audienceId`, `jti`).
- The thread-local `SecurityContextHolder` is an explicit `SecurityContext`
  object passed to the filter and the aspect. Thread confinement and clearing
  between requests are not modelled.
- DoFilterInternal: the call to the rest of the filter chain is not modelled
  inside the filter. The filter always hands the request on, on every path,
  and `EndToEnd.HandleRequest` models what follows as the aspect's decision.
  The `OncePerRequestFilter` machinery, the other filters, Spring wiring and
  configuration binding, `SecurityConfig` and the configurers are not modelled.
- Audience: an `aud` claim that holds a date is read as no audience. The
  library's handling of a wrongly typed `aud` claim is not modelled.
- The `AuthenticationManager` is a direct call to the provider, and the
  `supports` check is modelled separately. The provider's cast of the
  authentication to the token class, and its ClassCastException, are not
  modelled.
- Common.EqualsIgnoreCase: folds ASCII letters only. Java's `equalsIgnoreCase`
  also folds some non-ASCII letters onto ASCII ones (U+017F, U+212A), so the
  model refuses `"uſer"` as a login name where Java accepts it.
- Providers.ParseUuid: models `UUID.fromString` on canonical 36-character
  strings only. Java's lenient parse of shorter, non-canonical groupings is
  refused by the model.
- Jws.BuildClaims: a custom claim named `aud`, or one named after a date claim
  (`iat`, `nbf`, `exp`), is modelled as overwritten by the builder's own
  value. The library's merging of a custom audience with the builder's is not
  modelled.
- The `UserType` and `Role` enums are not part of this model's sources. They
  are taken as `CUSTOMER`/`SELLER` and `ADMIN`/`CSR`/`MARKETING`, with
  `toString` giving the constant's name.
- The order of `getDeclaredMethods()` is unspecified in Java. The model takes
  the declared methods in a given order, so "the first invalid method" is
  first in that order.
- Logging, the HTTP response cookie written by `AuthController`, the `User`
  service, and the DTOs' Lombok accessors are not modelled.
- 64-bit overflow is modelled only where the JWT dates are computed
  (`Common.WrapLong`). The lemmas about issued tokens require times at least
  20 s away from the `long` range ends (`JwtUtils.SafeTimes`).
