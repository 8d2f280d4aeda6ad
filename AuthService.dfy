/** `AuthService`: the login check against the one built-in account and the
    session token it issues. The secret, the lifetime, the clock and the two
    random UUIDs (audience and token id) are parameters. */
module AuthService {
  import opened Common
  import opened Uuids
  import opened Jws
  import JwtUtils

  datatype AuthRequest = AuthRequest(username: Option<string>, password: Option<string>)

  datatype AuthResponse = AuthResponse(username: string, userType: UserType, role: Role, token: string)

  const RequestNullMessage := "Username and password cannot be null"
  const UsernameNullMessage := "Username cannot be null"
  const PasswordNullMessage := "Password cannot be null"
  const InvalidCredentialsMessage := "Invalid username or password"

  /** `validateAuthRequest`: request, username and password must be non-null, in that order. */
  function ValidateAuthRequest(request: Option<AuthRequest>): (r: Outcome)
    ensures r == Normal <==> request.Some? && request.value.username.Some? && request.value.password.Some?
    ensures request.None? ==> r == Thrown(NullPointer(RequestNullMessage))
    ensures request.Some? && request.value.username.None? ==> r == Thrown(NullPointer(UsernameNullMessage))
    ensures request.Some? && request.value.username.Some? && request.value.password.None?
            ==> r == Thrown(NullPointer(PasswordNullMessage))
  {
    if request.None? then Thrown(NullPointer(RequestNullMessage))
    else if request.value.username.None? then Thrown(NullPointer(UsernameNullMessage))
    else if request.value.password.None? then Thrown(NullPointer(PasswordNullMessage))
    else Normal
  }

  /** The built-in account: user name "user" in any case, password "password" exactly. */
  predicate CredentialsValid(username: string, password: string) {
    EqualsIgnoreCase(username, "user") && password == "password"
  }

  /** Accepted user names are exactly the case variants of "user". */
  lemma CredentialsValidIff(username: string, password: string)
    ensures CredentialsValid(username, password) <==> Lower(username) == "user" && password == "password"
    ensures CredentialsValid("USER", "password") && CredentialsValid("User", "password")
    ensures !CredentialsValid("user", "PASSWORD") && !CredentialsValid("user ", "password")
  {
    EqualsIgnoreCaseIsLowerEquality(username, "user");
    assert Lower("user") == "user";
    EqualsIgnoreCaseIsLowerEquality("USER", "user");
    assert Lower("USER") == "user";
    EqualsIgnoreCaseIsLowerEquality("User", "user");
    assert Lower("User") == "user";
  }

  /** The classification every login receives. */
  const LoginUserType: UserType := SELLER
  const LoginRole: Role := ADMIN

  /** The custom claims of the session token: exactly the classification, by name. */
  const LoginClaims: map<string, string> := map["userType" := "SELLER", "role" := "ADMIN"]

  /** `authenticate`: validate the request, check the credentials, then make
      the key and issue a token for the user name with a random audience. */
  method Authenticate(c: Codec, secret: Option<string>, expiresIn: Int32, request: Option<AuthRequest>,
                      now: Long, audienceId: Uuid, jti: Uuid) returns (r: Result<AuthResponse>)
    ensures ValidateAuthRequest(request).Thrown? ==> r == Err(ValidateAuthRequest(request).error)
    ensures ValidateAuthRequest(request) == Normal
            && !CredentialsValid(request.value.username.value, request.value.password.value)
            ==> r == Err(Runtime(InvalidCredentialsMessage))
    ensures ValidateAuthRequest(request) == Normal
            && CredentialsValid(request.value.username.value, request.value.password.value)
            && JwtUtils.GenerateSecretKey(secret).Err?
            ==> r == Err(JwtUtils.GenerateSecretKey(secret).error)
    ensures r.Ok? <==> (&& ValidateAuthRequest(request) == Normal
                        && CredentialsValid(request.value.username.value, request.value.password.value)
                        && JwtUtils.GenerateSecretKey(secret).Ok?)
    ensures r.Ok? ==> (&& r.value.username == request.value.username.value
                       && r.value.userType == SELLER && r.value.role == ADMIN
                       && Some(r.value.token) == JwtUtils.GenerateTokenWithClaims(
                            c, request.value.username, Some(ToString(audienceId)), LoginClaims, expiresIn,
                            JwtUtils.GenerateSecretKey(secret).ToOption(), now, jti).ToOption())
  {
    var valid := ValidateAuthRequest(request);
    if valid.Thrown? {
      return Err(valid.error);
    }
    var username := request.value.username.value;
    var password := request.value.password.value;
    var isUserValid := EqualsIgnoreCase(username, "user") && password == "password";
    if !isUserValid {
      return Err(Runtime(InvalidCredentialsMessage));
    }
    var userType := LoginUserType;
    var role := LoginRole;
    var secretKey := JwtUtils.GenerateSecretKey(secret);
    if secretKey.Err? {
      return Err(secretKey.error);
    }
    var claims: map<string, string> := map[];
    claims := claims["userType" := userType.Name()];
    claims := claims["role" := role.Name()];
    var audience := ToString(audienceId);
    var token := JwtUtils.GenerateTokenWithClaims(c, Some(username), Some(audience), claims, expiresIn,
                                                  Some(secretKey.value), now, jti);
    assert claims == LoginClaims;
    return Ok(AuthResponse(username, userType, role, token.value));
  }

  /** The login claims hold exactly the user type and role names, none of them
      a registered claim name the builder would overwrite or be overwritten by. */
  lemma LoginClaimsShape()
    ensures LoginClaims.Keys == {"userType", "role"}
    ensures LoginClaims["userType"] == LoginUserType.Name() && LoginClaims["role"] == LoginRole.Name()
    ensures forall k :: k in LoginClaims ==> !IsLateRegistered(k) && k != "sub" && k != "jti"
  {
  }
}
