/**
 * `POST /api/auth/refresh` (app/api/auth/refresh/route.ts): the refresh-token rotation
 * protocol. The presented refresh token must be signed, unexpired, belong to an existing user
 * with a session, and be the very token whose digest that user holds; then a new pair replaces
 * it. Every rejection after the first check clears both cookies.
 */
module RefreshRoute {
  import opened Wrappers
  import opened Password
  import opened Jwt
  import opened AuthUtils
  import opened Users
  import opened AuthState

  const NotFound := "Refresh token not found"
  const InvalidOrExpired := "Invalid or expired refresh token"
  const NoSession := "User not found or session expired"
  const Mismatch := "Invalid refresh token"

  /** The refresh cookie as presented. */
  function Presented(s: State): Option<Wire> {
    GetAuthCookies(s.jar).refreshToken
  }

  /** A refresh cookie is present and passes signature and expiry verification. */
  ghost predicate Verified(env: Env, s: State) {
    Truthy(Presented(s)) && VerifyRefreshToken(env.secrets, Presented(s).value, s.now).Some?
  }

  /** The verified token names an existing user who holds a refresh digest. */
  ghost predicate HasSession(s: State)
    requires Presented(s).Some? && Presented(s).value.Signed?
  {
    var id := Presented(s).value.token.payload.userId;
    id in s.users && s.users[id].refreshHash.Some?
  }

  /** The presented token is accepted: verified, for a user with a session, and the token that
      user's stored digest was made from. */
  ghost predicate Accepted(env: Env, s: State) {
    && Verified(env, s)
    && HasSession(s)
    && Verify(Presented(s).value, s.users[Presented(s).value.token.payload.userId].refreshHash.value)
  }

  /** The state after a rejection that clears the cookies. */
  function Rejected(s: State): State {
    s.(jar := WithoutAuthCookies(s.jar))
  }

  function Post(env: Env, s: State): (o: Step)
    requires Valid(s)
    ensures Valid(o.post)
    ensures o.response.status == 200 <==> Accepted(env, s)
    ensures o.response.status != 200 ==> o.response.status == 401 && o.post.users == s.users
    ensures !Truthy(Presented(s)) ==> o == Step(ErrorResponse(NotFound, 401), s)
    ensures Truthy(Presented(s)) && !Accepted(env, s) ==> o.post == Rejected(s)
    ensures Truthy(Presented(s)) && !Verified(env, s) ==> o.response == ErrorResponse(InvalidOrExpired, 401)
    ensures Verified(env, s) && !HasSession(s) ==> o.response == ErrorResponse(NoSession, 401)
    ensures Verified(env, s) && HasSession(s) && !Accepted(env, s) ==> o.response == ErrorResponse(Mismatch, 401)
    ensures Accepted(env, s) ==> Rotated(env, s, o)
  {
    var presented := Presented(s);
    if !Truthy(presented) then
      Step(ErrorResponse(NotFound, 401), s)
    else
      match VerifyRefreshToken(env.secrets, presented.value, s.now)
      case None => Step(ErrorResponse(InvalidOrExpired, 401), Rejected(s))
      case Some(payload) =>
        if payload.userId !in s.users || s.users[payload.userId].refreshHash.None? then
          Step(ErrorResponse(NoSession, 401), Rejected(s))
        else if !Verify(presented.value, s.users[payload.userId].refreshHash.value) then
          Step(ErrorResponse(Mismatch, 401), Rejected(s))
        else
          var id := payload.userId;
          var tokens := GenerateTokens(env.secrets, TokenPayload(id, s.users[id].email), s.now);
          WithRefreshHashValid(s.users, s.nextId, id, Some(Hash(tokens.refreshToken)));
          Step(JsonResponse(Message("Tokens refreshed successfully")),
               s.(users := WithRefreshHash(s.users, id, Some(Hash(tokens.refreshToken))),
                  jar := WithAuthCookies(env.production, s.jar, tokens.accessToken, tokens.refreshToken)))
  }

  /**
   * What a successful refresh leaves: the pair `generateTokens` issues now (15 minutes and 7 days)
   * for the stored user's id and email (not the email inside the presented token), the new refresh token's digest in place of the old one
   * and nothing else in the store changed, both cookies reset, and a 200 carrying only a message.
   */
  ghost predicate Rotated(env: Env, s: State, o: Step)
    requires Accepted(env, s)
  {
    var id := Presented(s).value.token.payload.userId;
    var u := s.users[id];
    var cookies := GetAuthCookies(o.post.jar);
    && cookies.accessToken.Some? && cookies.refreshToken.Some?
    && o.post.jar == WithAuthCookies(env.production, s.jar, cookies.accessToken.value, cookies.refreshToken.value)
    && VerifyAccessToken(env.secrets, cookies.accessToken.value, s.now) == Some(TokenPayload(id, u.email))
    && VerifyRefreshToken(env.secrets, cookies.refreshToken.value, s.now) == Some(TokenPayload(id, u.email))
    && cookies.accessToken.value == GenerateAccessToken(env.secrets, TokenPayload(id, u.email), s.now)
    && cookies.refreshToken.value == GenerateRefreshToken(env.secrets, TokenPayload(id, u.email), s.now)
    && o.post.users == WithRefreshHash(s.users, id, Some(Hash(cookies.refreshToken.value)))
    && o.response == JsonResponse(Message("Tokens refreshed successfully"))
    && o.post.now == s.now && o.post.nextId == s.nextId
  }
}
