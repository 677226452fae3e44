/**
 * `POST /api/auth/register` (app/api/auth/register/route.ts): validate, reject a taken email,
 * create the user, issue the first token pair, store the refresh token's digest and set the
 * cookies.
 */
module RegisterRoute {
  import opened Wrappers
  import opened Text
  import opened Password
  import opened Jwt
  import opened AuthUtils
  import opened Users
  import opened AuthState

  /** The request body `{ email, password, name }`. */
  datatype Body = Body(email: Option<string>, password: Option<string>, name: Option<string>)

  const MinPasswordLength: nat := 6

  /** The first validation message that applies to the body, if any. */
  function InputError(b: Body): (e: Option<string>)
    ensures e.None? <==> !Missing(b.email) && !Missing(b.password) &&
                         IsEmailShape(b.email.value) && |b.password.value| >= MinPasswordLength
    ensures Missing(b.email) || Missing(b.password) ==> e == Some("Email and password are required")
    ensures !Missing(b.email) && !Missing(b.password) && !IsEmailShape(b.email.value) ==>
              e == Some("Invalid email format")
    ensures !Missing(b.email) && !Missing(b.password) && IsEmailShape(b.email.value) && |b.password.value| < MinPasswordLength ==>
              e == Some("Password must be at least 6 characters")
  {
    if Missing(b.email) || Missing(b.password) then Some("Email and password are required")
    else if !IsEmailShape(b.email.value) then Some("Invalid email format")
    else if |b.password.value| < MinPasswordLength then Some("Password must be at least 6 characters")
    else None
  }

  /** `name || null`. */
  function NameOrNull(name: Option<string>): (n: Option<string>)
    ensures n.None? <==> Missing(name)
    ensures n.Some? ==> n == name
  {
    if Missing(name) then None else name
  }

  /** The body passes validation and its lower-cased email is free. */
  ghost predicate Accepted(s: State, b: Body)
    requires Valid(s)
  {
    InputError(b).None? && FindByEmail(s.users, Lower(b.email.value)).None?
  }

  /**
   * What a successful registration leaves: one new row under a fresh id holding the
   * lower-cased email, the password only as a digest, `name || null` and no other change to
   * the store; cookies holding the pair `generateTokens` issues now for `{id, email}` (15 minutes
   * and 7 days), whose refresh token is the one the stored digest accepts; and a 201 with the
   * public projection only.
   */
  ghost predicate Registered(env: Env, s: State, b: Body, o: Step)
    requires InputError(b).None?
  {
    var id := s.nextId;
    var email := Lower(b.email.value);
    var cookies := GetAuthCookies(o.post.jar);
    && id !in s.users
    && o.post.users.Keys == s.users.Keys + {id}
    && (forall other :: other in s.users ==> o.post.users[other] == s.users[other])
    && o.post.users[id].email == email
    && o.post.users[id].passwordHash == Hash(b.password.value)
    && o.post.users[id].name == NameOrNull(b.name)
    && o.post.users[id].createdAt == s.now
    && cookies.accessToken.Some? && cookies.refreshToken.Some?
    && o.post.jar == WithAuthCookies(env.production, s.jar, cookies.accessToken.value, cookies.refreshToken.value)
    && VerifyAccessToken(env.secrets, cookies.accessToken.value, s.now) == Some(TokenPayload(id, email))
    && VerifyRefreshToken(env.secrets, cookies.refreshToken.value, s.now) == Some(TokenPayload(id, email))
    && cookies.accessToken.value == GenerateAccessToken(env.secrets, TokenPayload(id, email), s.now)
    && cookies.refreshToken.value == GenerateRefreshToken(env.secrets, TokenPayload(id, email), s.now)
    && o.post.users[id].refreshHash.Some?
    && Verify(cookies.refreshToken.value, o.post.users[id].refreshHash.value)
    && o.response == JsonResponse(UserMessage("Registration successful", PublicUser(id, email, NameOrNull(b.name))), 201)
    && o.post.now == s.now && o.post.nextId == id + 1
  }

  function Post(env: Env, s: State, b: Body): (o: Step)
    requires Valid(s)
    ensures Valid(o.post)
    ensures InputError(b).Some? ==> o == Step(ErrorResponse(InputError(b).value, 400), s)
    ensures InputError(b).None? && !Accepted(s, b) ==>
              o == Step(ErrorResponse("User with this email already exists", 409), s)
    ensures o.response.status == 201 <==> Accepted(s, b)
    ensures Accepted(s, b) ==> Registered(env, s, b, o)
  {
    match InputError(b)
    case Some(message) => Step(ErrorResponse(message, 400), s)
    case None =>
      var email := Lower(b.email.value);
      if FindByEmail(s.users, email).Some? then
        Step(ErrorResponse("User with this email already exists", 409), s)
      else
        var id := s.nextId;
        var created := s.users[id := User(email, Hash(b.password.value), NameOrNull(b.name), None, s.now)];
        var tokens := GenerateTokens(env.secrets, TokenPayload(id, email), s.now);
        var users := WithRefreshHash(created, id, Some(Hash(tokens.refreshToken)));
        Step(JsonResponse(UserMessage("Registration successful", Public(id, users[id])), 201),
             State(users, WithAuthCookies(env.production, s.jar, tokens.accessToken, tokens.refreshToken), s.now, id + 1))
  }
}
