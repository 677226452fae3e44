/**
 * Properties of sequences of requests: what one handler leaves behind, as seen by the next.
 * These are the session guarantees of the design: registration and login start a session the
 * "who am I" query sees, a refresh keeps it alive and retires the presented refresh token, a
 * login retires every earlier one, and logout clears the cookies and the stored digest, so no
 * later refresh succeeds. An access token copied before logout is not revoked: it works until
 * it expires.
 */
module Sessions {
  import opened Wrappers
  import opened Text
  import opened Password
  import opened Jwt
  import opened AuthUtils
  import opened Users
  import opened AuthState
  import RegisterRoute
  import LoginRoute
  import RefreshRoute
  import LogoutRoute
  import MeRoute

  /** Right after registering, and until the access token expires, "who am I" reports the new
      user with the lower-cased email. */
  lemma RegisterThenMe(env: Env, s: State, b: RegisterRoute.Body, later: nat)
    requires Valid(s) && RegisterRoute.Accepted(s, b)
    requires later < AccessTokenExpiry
    ensures var after := RegisterRoute.Post(env, s, b).post;
            MeRoute.Get(env, Tick(after, later)) ==
            JsonResponse(SessionStatus(true, Some(ProfileUser(s.nextId, Lower(b.email.value), RegisterRoute.NameOrNull(b.name), s.now))))
  {
  }

  /** Registering the same email again, in any letter case, is a conflict that changes nothing. */
  lemma RegisterTwiceConflicts(env: Env, s: State, first: RegisterRoute.Body, second: RegisterRoute.Body)
    requires Valid(s) && RegisterRoute.Accepted(s, first)
    requires RegisterRoute.InputError(second).None?
    requires Lower(second.email.value) == Lower(first.email.value)
    ensures var after := RegisterRoute.Post(env, s, first).post;
            RegisterRoute.Post(env, after, second) ==
            Step(ErrorResponse("User with this email already exists", 409), after)
  {
    var after := RegisterRoute.Post(env, s, first).post;
    assert after.users[s.nextId].email == Lower(second.email.value);
  }

  /** The credentials just registered log in, whatever the letter case of the email. */
  lemma RegisterThenLogin(env: Env, s: State, b: RegisterRoute.Body, email: string)
    requires Valid(s) && RegisterRoute.Accepted(s, b)
    requires Lower(email) == Lower(b.email.value)
    ensures var after := RegisterRoute.Post(env, s, b).post;
            var o := LoginRoute.Post(env, after, LoginRoute.Body(Some(email), b.password));
            o.response == JsonResponse(UserMessage("Login successful",
                            PublicUser(s.nextId, Lower(email), RegisterRoute.NameOrNull(b.name))))
  {
    var after := RegisterRoute.Post(env, s, b).post;
    assert email != "" by {
      assert |Lower(email)| == |email| && |Lower(b.email.value)| == |b.email.value|;
    }
    assert after.users[s.nextId].email == Lower(email);
  }

  /**
   * Login, then a refresh within the refresh token's lifetime, then "who am I": the refresh
   * succeeds for the same user, the session still reports that user, and once the clock has
   * moved the access token is a new one.
   */
  lemma LoginRefreshMe(env: Env, s: State, b: LoginRoute.Body, later: nat)
    requires Valid(s)
    requires LoginRoute.Post(env, s, b).response.status == 200
    requires later < RefreshTokenExpiry
    ensures var id := LoginRoute.Authenticate(s.users, b.email.value, b.password.value).value;
            var loggedIn := LoginRoute.Post(env, s, b).post;
            var refreshed := RefreshRoute.Post(env, Tick(loggedIn, later));
            && refreshed.response == JsonResponse(Message("Tokens refreshed successfully"))
            && MeRoute.Get(env, refreshed.post) ==
               JsonResponse(SessionStatus(true, Some(Profile(id, s.users[id]))))
            && (later > 0 ==> ValueOf(refreshed.post.jar, AccessCookie) != ValueOf(loggedIn.jar, AccessCookie))
  {
    var id := LoginRoute.Authenticate(s.users, b.email.value, b.password.value).value;
    var loggedIn := LoginRoute.Post(env, s, b).post;
    var t := Tick(loggedIn, later);
    assert RefreshRoute.Accepted(env, t);
    var refreshed := RefreshRoute.Post(env, t);
    assert refreshed.post.users[id] == s.users[id].(refreshHash := refreshed.post.users[id].refreshHash);
  }

  /**
   * Rotation: once a refresh has succeeded, presenting the refresh token it consumed again
   * fails, at any later time, and clears the cookies. The premise is that the token was issued
   * before the second of the refresh: tokens issued in the same second for the same payload are
   * identical (see `SameSecondRefreshKeepsPresentedToken`).
   */
  lemma RotationRetiresPresentedToken(env: Env, s: State, later: nat, options: CookieOptions)
    requires Valid(s) && RefreshRoute.Accepted(env, s)
    requires RefreshRoute.Presented(s).value.token.iat < s.now
    ensures var consumed := RefreshRoute.Presented(s).value;
            var replay := Present(Tick(RefreshRoute.Post(env, s).post, later), RefreshCookie, Cookie(consumed, options));
            var o := RefreshRoute.Post(env, replay);
            && o.response.status == 401
            && o.post == RefreshRoute.Rejected(replay)
            && (VerifyRefreshToken(env.secrets, consumed, replay.now).Some? ==>
                  o.response == ErrorResponse(RefreshRoute.Mismatch, 401))
  {
    var consumed := RefreshRoute.Presented(s).value;
    var after := RefreshRoute.Post(env, s).post;
    var issued := GetAuthCookies(after.jar).refreshToken.value;
    assert issued.token.iat == s.now;
    assert consumed != issued;
    var replay := Present(Tick(after, later), RefreshCookie, Cookie(consumed, options));
    assert RefreshRoute.Presented(replay) == Some(consumed);
    assert !RefreshRoute.Accepted(env, replay);
  }

  /**
   * The caveat of rotation, as the code is written: a refresh performed in the same second the
   * presented token was issued re-issues that very token, so the token it consumed is accepted
   * again afterwards.
   */
  lemma SameSecondRefreshKeepsPresentedToken(env: Env, s: State, options: CookieOptions)
    requires Valid(s) && RefreshRoute.Accepted(env, s)
    requires var w := RefreshRoute.Presented(s).value;
             var id := w.token.payload.userId;
             w == GenerateRefreshToken(env.secrets, TokenPayload(id, s.users[id].email), s.now)
    ensures var consumed := RefreshRoute.Presented(s).value;
            var replay := Present(RefreshRoute.Post(env, s).post, RefreshCookie, Cookie(consumed, options));
            RefreshRoute.Post(env, replay).response.status == 200
  {
    var consumed := RefreshRoute.Presented(s).value;
    var after := RefreshRoute.Post(env, s).post;
    var replay := Present(after, RefreshCookie, Cookie(consumed, options));
    assert RefreshRoute.Presented(replay) == Some(consumed);
    assert RefreshRoute.Accepted(env, replay);
  }

  /**
   * Single active session: after a successful login, a refresh token of the same user issued
   * before that second is refused, even one that is signed and unexpired, and the cookies are
   * cleared.
   */
  lemma LoginRetiresEarlierRefreshTokens(env: Env, s: State, b: LoginRoute.Body, earlier: Token, later: nat, options: CookieOptions)
    requires Valid(s)
    requires LoginRoute.Post(env, s, b).response.status == 200
    requires earlier.payload.userId == LoginRoute.Authenticate(s.users, b.email.value, b.password.value).value
    requires earlier.iat < s.now
    ensures var replay := Present(Tick(LoginRoute.Post(env, s, b).post, later), RefreshCookie, Cookie(Signed(earlier), options));
            var o := RefreshRoute.Post(env, replay);
            o.response.status == 401 && o.post == RefreshRoute.Rejected(replay)
  {
    var id := LoginRoute.Authenticate(s.users, b.email.value, b.password.value).value;
    var after := LoginRoute.Post(env, s, b).post;
    var issued := GetAuthCookies(after.jar).refreshToken.value;
    assert issued.token.iat == s.now;
    var replay := Present(Tick(after, later), RefreshCookie, Cookie(Signed(earlier), options));
    assert RefreshRoute.Presented(replay) == Some(Signed(earlier));
    assert replay.users[id].refreshHash == Some(Hash(issued));
    assert !RefreshRoute.Accepted(env, replay);
  }

  /**
   * Logout with a valid access token ends the server-side session: a refresh token of that user
   * presented afterwards, even a signed and unexpired one, fails at the session check.
   */
  lemma LogoutEndsSession(env: Env, s: State, later: nat, refresh: Cookie)
    requires Valid(s)
    requires AccessPayload(env, s.jar, s.now).Some?
    requires AccessPayload(env, s.jar, s.now).value.userId in s.users
    requires VerifyRefreshToken(env.secrets, refresh.value, s.now + later).Some?
    requires refresh.value.token.payload.userId == AccessPayload(env, s.jar, s.now).value.userId
    ensures var replay := Present(Tick(LogoutRoute.Post(env, s).post, later), RefreshCookie, refresh);
            RefreshRoute.Post(env, replay) ==
            Step(ErrorResponse(RefreshRoute.NoSession, 401), RefreshRoute.Rejected(replay))
  {
    LogoutRoute.PreservesValid(env, s);
    var replay := Present(Tick(LogoutRoute.Post(env, s).post, later), RefreshCookie, refresh);
    assert RefreshRoute.Presented(replay) == Some(refresh.value);
  }

  /** After logout, at any later time, "who am I" reports no session. */
  lemma LogoutThenMe(env: Env, s: State, later: nat)
    ensures MeRoute.Get(env, Tick(LogoutRoute.Post(env, s).post, later)) == MeRoute.Anonymous()
  {
    GetAfterClear(s.jar);
  }
}
