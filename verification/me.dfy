/**
 * `GET /api/auth/me` (app/api/auth/me/route.ts): the read-only "who am I" query. It never fails
 * for lack of a session; it answers `{ authenticated: false, user: null }` instead.
 */
module MeRoute {
  import opened Wrappers
  import opened Jwt
  import opened AuthUtils
  import opened Users
  import opened AuthState

  function Anonymous(): Response<AuthBody> {
    JsonResponse(SessionStatus(false, None))
  }

  function Get(env: Env, s: State): (r: Response<AuthBody>)
    ensures r.Json? && r.status == 200 && r.data.SessionStatus?
    ensures AccessPayload(env, s.jar, s.now).None? ==> r == Anonymous()
    ensures AccessPayload(env, s.jar, s.now).Some? && AccessPayload(env, s.jar, s.now).value.userId !in s.users ==>
              r == Anonymous()
    ensures r.data.authenticated <==>
              AccessPayload(env, s.jar, s.now).Some? && AccessPayload(env, s.jar, s.now).value.userId in s.users
    ensures r.data.authenticated ==>
              var id := AccessPayload(env, s.jar, s.now).value.userId;
              r.data.profile == Some(Profile(id, s.users[id]))
  {
    var access := GetAuthCookies(s.jar).accessToken;
    if !Truthy(access) then
      Anonymous()
    else
      match VerifyAccessToken(env.secrets, access.value, s.now)
      case None => Anonymous()
      case Some(payload) =>
        if payload.userId !in s.users then Anonymous()
        else JsonResponse(SessionStatus(true, Some(Profile(payload.userId, s.users[payload.userId]))))
  }

  /** The answer depends on the access cookie, the store and the clock only: the refresh cookie
      and every other cookie are never read. */
  lemma ReadsOnlyAccessCookie(env: Env, s: State, t: State)
    requires ValueOf(s.jar, AccessCookie) == ValueOf(t.jar, AccessCookie)
    requires s.users == t.users && s.now == t.now
    ensures Get(env, s) == Get(env, t)
  {
  }
}
