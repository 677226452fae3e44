/**
 * `POST /api/auth/logout` (app/api/auth/logout/route.ts): end the server-side session named by
 * a valid access token, then clear both cookies. It reports success on every path: the store
 * update for a user that no longer exists throws, and the handler's `catch` clears the cookies
 * and answers exactly as the normal path does.
 */
module LogoutRoute {
  import opened Wrappers
  import opened Jwt
  import opened AuthUtils
  import opened Users
  import opened AuthState

  const LoggedOut := "Logout successful"

  function Post(env: Env, s: State): (o: Step)
    ensures o.response == JsonResponse(Message(LoggedOut)) && o.response.status == 200
    ensures o.post.jar == WithoutAuthCookies(s.jar)
    ensures o.post.now == s.now && o.post.nextId == s.nextId
    ensures o.post.users.Keys == s.users.Keys
    ensures AccessPayload(env, s.jar, s.now).None? ==> o.post.users == s.users
    ensures AccessPayload(env, s.jar, s.now).Some? ==>
              var id := AccessPayload(env, s.jar, s.now).value.userId;
              && (id in s.users ==> o.post.users == WithRefreshHash(s.users, id, None))
              && (id !in s.users ==> o.post.users == s.users)
  {
    var payload := AccessPayload(env, s.jar, s.now);
    var users :=
      if payload.Some? && payload.value.userId in s.users then
        WithRefreshHash(s.users, payload.value.userId, None)
      else
        // no valid token, or `prisma.user.update` throws for a missing row and the catch path runs
        s.users;
    Step(JsonResponse(Message(LoggedOut)), s.(users := users, jar := WithoutAuthCookies(s.jar)))
  }

  lemma PreservesValid(env: Env, s: State)
    requires Valid(s)
    ensures Valid(Post(env, s).post)
  {
    var payload := AccessPayload(env, s.jar, s.now);
    if payload.Some? && payload.value.userId in s.users {
      WithRefreshHashValid(s.users, s.nextId, payload.value.userId, None);
    }
  }

  /** Logging out twice answers the same and ends in the same state as logging out once. */
  lemma Idempotent(env: Env, s: State)
    ensures Post(env, Post(env, s).post) == Step(Post(env, s).response, Post(env, s).post)
  {
    GetAfterClear(s.jar);
    ClearIdempotent(s.jar);
  }
}
