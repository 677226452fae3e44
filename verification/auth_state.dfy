/**
 * The state the authentication handlers work on, as a value: the user store, the cookie jar
 * of the client making the requests, the clock and the next user id. The handlers' results
 * are a response plus the state they leave behind.
 */
module AuthState {
  import opened Wrappers
  import opened Jwt
  import opened AuthUtils
  import opened Users

  /** Process-wide configuration: the signing secrets and whether `NODE_ENV` is "production". */
  datatype Env = Env(secrets: Secrets, production: bool)

  /** The configuration read from `ACCESS_TOKEN_SECRET`, `REFRESH_TOKEN_SECRET` and `NODE_ENV`. */
  function EnvFrom(accessEnv: Option<string>, refreshEnv: Option<string>, nodeEnv: Option<string>): (e: Env)
    ensures e.production <==> nodeEnv == Some("production")
    ensures e.secrets.access == EnvOr(accessEnv, DefaultAccessSecret)
    ensures e.secrets.refresh == EnvOr(refreshEnv, DefaultRefreshSecret)
  {
    Env(SecretsFrom(accessEnv, refreshEnv), nodeEnv == Some("production"))
  }

  datatype State = State(users: UserStore, jar: Jar, now: nat, nextId: UserId)

  ghost predicate Valid(s: State) {
    StoreValid(s.users, s.nextId)
  }

  /** The JSON bodies of the authentication routes. */
  datatype AuthBody =
    | Message(message: string)
    | UserMessage(message: string, user: PublicUser)
    | SessionStatus(authenticated: bool, profile: Option<ProfileUser>)

  datatype Step = Step(response: Response<AuthBody>, post: State)

  /** The clock moves on by `seconds`. */
  function Tick(s: State, seconds: nat): (t: State)
    ensures t.now == s.now + seconds
    ensures t == s.(now := t.now)
  {
    s.(now := s.now + seconds)
  }

  /** The client presents cookie `c` under `name`, as a browser replaying a saved cookie would. */
  function Present(s: State, name: string, c: Cookie): (t: State)
    ensures ValueOf(t.jar, name) == Some(c.value)
    ensures forall n :: n != name ==> ValueOf(t.jar, n) == ValueOf(s.jar, n)
    ensures t.users == s.users && t.now == s.now && t.nextId == s.nextId
  {
    s.(jar := s.jar[name := c])
  }

  /**
   * The step every protected handler starts with: read the access cookie and, when it is
   * present, verify it. `None` when the cookie is absent, empty, forged or expired.
   */
  function AccessPayload(env: Env, jar: Jar, now: nat): (p: Option<TokenPayload>)
    ensures p.Some? <==> Truthy(ValueOf(jar, AccessCookie)) &&
                         VerifyAccessToken(env.secrets, ValueOf(jar, AccessCookie).value, now).Some?
    ensures p.Some? ==> ValueOf(jar, AccessCookie).value.Signed? &&
                        p.value == ValueOf(jar, AccessCookie).value.token.payload
  {
    var access := GetAuthCookies(jar).accessToken;
    if Truthy(access) then VerifyAccessToken(env.secrets, access.value, now) else None
  }
}
