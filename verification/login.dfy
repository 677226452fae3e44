/**
 * `POST /api/auth/login` (app/api/auth/login/route.ts): check the credentials, then start a new
 * session that replaces whatever session the user had.
 */
module LoginRoute {
  import opened Wrappers
  import opened Text
  import opened Password
  import opened Jwt
  import opened AuthUtils
  import opened Users
  import opened AuthState

  /** The request body `{ email, password }`. */
  datatype Body = Body(email: Option<string>, password: Option<string>)

  /** The one message for an unknown email and for a wrong password alike. */
  const InvalidCredentials := "Invalid email or password"

  /** The user the credentials identify: the row under the lower-cased email, when the password
      verifies against its digest. */
  function Authenticate(users: UserStore, email: string, password: string): (r: Option<UserId>)
    requires UniqueEmails(users)
    ensures r.Some? <==> exists id :: id in users && users[id].email == Lower(email) &&
                                      Verify(password, users[id].passwordHash)
    ensures r.Some? ==> r.value in users && users[r.value].email == Lower(email)
  {
    match FindByEmail(users, Lower(email))
    case None => None
    case Some(id) => if Verify(password, users[id].passwordHash) then Some(id) else None
  }

  /**
   * What a successful login leaves: only the user's `refreshHash` changed, now the digest of
   * the refresh cookie just set; both cookies hold the pair `generateTokens` issues now for
   * `{id, email}` of the stored row (15 minutes and 7 days); 200 with the public projection.
   */
  ghost predicate LoggedIn(env: Env, s: State, id: UserId, o: Step)
    requires id in s.users
  {
    var u := s.users[id];
    var cookies := GetAuthCookies(o.post.jar);
    && cookies.accessToken.Some? && cookies.refreshToken.Some?
    && o.post.jar == WithAuthCookies(env.production, s.jar, cookies.accessToken.value, cookies.refreshToken.value)
    && VerifyAccessToken(env.secrets, cookies.accessToken.value, s.now) == Some(TokenPayload(id, u.email))
    && VerifyRefreshToken(env.secrets, cookies.refreshToken.value, s.now) == Some(TokenPayload(id, u.email))
    && cookies.accessToken.value == GenerateAccessToken(env.secrets, TokenPayload(id, u.email), s.now)
    && cookies.refreshToken.value == GenerateRefreshToken(env.secrets, TokenPayload(id, u.email), s.now)
    && o.post.users == WithRefreshHash(s.users, id, Some(Hash(cookies.refreshToken.value)))
    && o.response == JsonResponse(UserMessage("Login successful", PublicUser(id, u.email, u.name)))
    && o.post.now == s.now && o.post.nextId == s.nextId
  }

  function Post(env: Env, s: State, b: Body): (o: Step)
    requires Valid(s)
    ensures Valid(o.post)
    ensures o.response.status != 200 ==> o.post == s
    ensures Missing(b.email) || Missing(b.password) ==>
              o.response == ErrorResponse("Email and password are required", 400)
    ensures !Missing(b.email) && !Missing(b.password) && Authenticate(s.users, b.email.value, b.password.value).None? ==>
              o.response == ErrorResponse(InvalidCredentials, 401)
    ensures o.response.status == 200 <==>
              !Missing(b.email) && !Missing(b.password) && Authenticate(s.users, b.email.value, b.password.value).Some?
    ensures o.response.status == 200 ==> LoggedIn(env, s, Authenticate(s.users, b.email.value, b.password.value).value, o)
  {
    if Missing(b.email) || Missing(b.password) then
      Step(ErrorResponse("Email and password are required", 400), s)
    else
      match FindByEmail(s.users, Lower(b.email.value))
      case None => Step(ErrorResponse(InvalidCredentials, 401), s)
      case Some(id) =>
        if !Verify(b.password.value, s.users[id].passwordHash) then
          Step(ErrorResponse(InvalidCredentials, 401), s)
        else
          var u := s.users[id];
          var tokens := GenerateTokens(env.secrets, TokenPayload(id, u.email), s.now);
          WithRefreshHashValid(s.users, s.nextId, id, Some(Hash(tokens.refreshToken)));
          Step(JsonResponse(UserMessage("Login successful", Public(id, u))),
               s.(users := WithRefreshHash(s.users, id, Some(Hash(tokens.refreshToken))),
                  jar := WithAuthCookies(env.production, s.jar, tokens.accessToken, tokens.refreshToken)))
  }

  /** Enumeration resistance: an unknown email and a wrong password for a known one get the very
      same response, and neither changes anything. */
  lemma UnknownEmailAndWrongPasswordAlike(env: Env, s: State, unknown: Body, wrong: Body)
    requires Valid(s)
    requires !Missing(unknown.email) && !Missing(unknown.password)
    requires FindByEmail(s.users, Lower(unknown.email.value)).None?
    requires !Missing(wrong.email) && !Missing(wrong.password)
    requires FindByEmail(s.users, Lower(wrong.email.value)).Some?
    requires !Verify(wrong.password.value, s.users[FindByEmail(s.users, Lower(wrong.email.value)).value].passwordHash)
    ensures Post(env, s, unknown) == Post(env, s, wrong) == Step(ErrorResponse(InvalidCredentials, 401), s)
  {
  }
}
