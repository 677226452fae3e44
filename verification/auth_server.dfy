/**
 * The authentication route handlers as one server object. Its fields are the user store, the
 * clock and the id allocator; the client's cookies live in a `CookieStore` it holds. Each
 * handler runs the source's steps in order, with its early returns, and is proved to produce
 * exactly the response and state its route function in `RegisterRoute`, `LoginRoute`,
 * `RefreshRoute` and `LogoutRoute` describes. The read-only "who am I" query is the function
 * `MeRoute.Get` of `State()`.
 */
module Server {
  import opened Wrappers
  import opened Text
  import opened Password
  import opened Jwt
  import opened AuthUtils
  import opened Users
  import opened AuthState
  import RegisterRoute
  import LoginRoute
  import RefreshRoute
  import LogoutRoute

  class AuthServer {
    const env: Env
    const cookies: CookieStore
    var users: UserStore
    var now: nat
    var nextId: UserId

    ghost predicate Valid()
      reads this
    {
      StoreValid(users, nextId)
    }

    /** The server's state as a value. */
    function State(): AuthState.State
      reads this, cookies
    {
      AuthState.State(users, cookies.entries, now, nextId)
    }

    /** A server configured from `ACCESS_TOKEN_SECRET`, `REFRESH_TOKEN_SECRET` and `NODE_ENV`, with
        an empty store, a client holding `jar`, and the clock at `start`. */
    constructor(accessEnv: Option<string>, refreshEnv: Option<string>, nodeEnv: Option<string>, jar: Jar, start: nat)
      ensures Valid() && this.env == EnvFrom(accessEnv, refreshEnv, nodeEnv) && fresh(cookies)
      ensures State() == AuthState.State(map[], jar, start, 0)
    {
      this.env := EnvFrom(accessEnv, refreshEnv, nodeEnv);
      cookies := new CookieStore(jar);
      users := map[];
      now := start;
      nextId := 0;
    }

    /** Time passes between requests. */
    method AdvanceClock(seconds: nat)
      modifies this
      ensures Valid() <==> old(Valid())
      ensures State() == Tick(old(State()), seconds)
    {
      now := now + seconds;
    }

    method Register(b: RegisterRoute.Body) returns (r: Response<AuthBody>)
      requires Valid()
      modifies this, cookies
      ensures Valid()
      ensures RegisterRoute.Post(env, old(State()), b) == Step(r, State())
    {
      if Missing(b.email) || Missing(b.password) {
        return ErrorResponse("Email and password are required", 400);
      }
      if !IsEmailShape(b.email.value) {
        return ErrorResponse("Invalid email format", 400);
      }
      if |b.password.value| < RegisterRoute.MinPasswordLength {
        return ErrorResponse("Password must be at least 6 characters", 400);
      }
      var email := Lower(b.email.value);
      if FindByEmail(users, email).Some? {
        return ErrorResponse("User with this email already exists", 409);
      }
      var hashed := Hash(b.password.value);
      var id := nextId;
      users := users[id := User(email, hashed, RegisterRoute.NameOrNull(b.name), None, now)];
      nextId := nextId + 1;
      var tokens := GenerateTokens(env.secrets, TokenPayload(id, users[id].email), now);
      users := users[id := users[id].(refreshHash := Some(Hash(tokens.refreshToken)))];
      SetAuthCookies(cookies, env.production, tokens.accessToken, tokens.refreshToken);
      r := JsonResponse(UserMessage("Registration successful", PublicUser(id, users[id].email, users[id].name)), 201);
    }

    method Login(b: LoginRoute.Body) returns (r: Response<AuthBody>)
      requires Valid()
      modifies this, cookies
      ensures Valid()
      ensures LoginRoute.Post(env, old(State()), b) == Step(r, State())
    {
      if Missing(b.email) || Missing(b.password) {
        return ErrorResponse("Email and password are required", 400);
      }
      var found := FindByEmail(users, Lower(b.email.value));
      if found.None? {
        return ErrorResponse(LoginRoute.InvalidCredentials, 401);
      }
      var id := found.value;
      var user := users[id];
      if !Verify(b.password.value, user.passwordHash) {
        return ErrorResponse(LoginRoute.InvalidCredentials, 401);
      }
      var tokens := GenerateTokens(env.secrets, TokenPayload(id, user.email), now);
      WithRefreshHashValid(users, nextId, id, Some(Hash(tokens.refreshToken)));
      users := users[id := users[id].(refreshHash := Some(Hash(tokens.refreshToken)))];
      SetAuthCookies(cookies, env.production, tokens.accessToken, tokens.refreshToken);
      r := JsonResponse(UserMessage("Login successful", PublicUser(id, user.email, user.name)));
    }

    method Refresh() returns (r: Response<AuthBody>)
      requires Valid()
      modifies this, cookies
      ensures Valid()
      ensures RefreshRoute.Post(env, old(State())) == Step(r, State())
    {
      var presented := GetAuthCookies(cookies.entries).refreshToken;
      if !Truthy(presented) {
        return ErrorResponse(RefreshRoute.NotFound, 401);
      }
      var payload := VerifyRefreshToken(env.secrets, presented.value, now);
      if payload.None? {
        ClearAuthCookies(cookies);
        return ErrorResponse(RefreshRoute.InvalidOrExpired, 401);
      }
      var id := payload.value.userId;
      if id !in users || users[id].refreshHash.None? {
        ClearAuthCookies(cookies);
        return ErrorResponse(RefreshRoute.NoSession, 401);
      }
      var user := users[id];
      if !Verify(presented.value, user.refreshHash.value) {
        ClearAuthCookies(cookies);
        return ErrorResponse(RefreshRoute.Mismatch, 401);
      }
      var tokens := GenerateTokens(env.secrets, TokenPayload(id, user.email), now);
      WithRefreshHashValid(users, nextId, id, Some(Hash(tokens.refreshToken)));
      users := users[id := users[id].(refreshHash := Some(Hash(tokens.refreshToken)))];
      SetAuthCookies(cookies, env.production, tokens.accessToken, tokens.refreshToken);
      r := JsonResponse(Message("Tokens refreshed successfully"));
    }

    method Logout() returns (r: Response<AuthBody>)
      requires Valid()
      modifies this, cookies
      ensures Valid()
      ensures LogoutRoute.Post(env, old(State())) == Step(r, State())
    {
      LogoutRoute.PreservesValid(env, State());
      var access := GetAuthCookies(cookies.entries).accessToken;
      if Truthy(access) {
        var payload := VerifyAccessToken(env.secrets, access.value, now);
        if payload.Some? {
          var id := payload.value.userId;
          if id !in users {
            // `prisma.user.update` throws for a missing row; the catch path clears the cookies
            // and reports success all the same
            ClearAuthCookies(cookies);
            return JsonResponse(Message(LogoutRoute.LoggedOut));
          }
          users := users[id := users[id].(refreshHash := None)];
        }
      }
      ClearAuthCookies(cookies);
      r := JsonResponse(Message(LogoutRoute.LoggedOut));
    }
  }
}
