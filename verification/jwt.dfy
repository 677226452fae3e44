/**
 * The token service (lib/jwt.ts). A signed JWT is modelled by the claims it carries and the
 * secret it was signed with; `jwt.verify` accepts a token exactly when it was signed with the
 * expected secret and its `exp` claim (section 4.1.4 of RFC 7519) lies after the current time.
 * Time is in whole seconds, as in the `iat` and `exp` claims.
 */
module Jwt {
  import opened Wrappers

  /** Users are identified by a number allocated when the user row is created. */
  type UserId = nat

  datatype TokenPayload = TokenPayload(userId: UserId, email: string)

  /** The decoded content of an HS256 token: signing secret, payload, `iat` and `exp` claims. */
  datatype Token = Token(secret: string, payload: TokenPayload, iat: nat, exp: nat)

  /** What a client can present in a cookie. Every properly signed token is `Signed`, under the
      secret that signed it. `Opaque` stands for text that is not a well-signed token: malformed
      text, or a signature that is the HMAC of its contents under no secret. `jwt.verify` refuses it. */
  datatype Wire = Signed(token: Token) | Opaque(text: string)

  /** `ACCESS_TOKEN_EXPIRY = "15m"`, in seconds. */
  const AccessTokenExpiry: nat := 15 * 60
  /** `REFRESH_TOKEN_EXPIRY = "7d"`, in seconds. */
  const RefreshTokenExpiry: nat := 7 * 24 * 60 * 60

  const DefaultAccessSecret := "access-secret-key-change-in-production"
  const DefaultRefreshSecret := "refresh-secret-key-change-in-production"

  /** The two process-wide signing secrets. */
  datatype Secrets = Secrets(access: string, refresh: string)

  /** `process.env.X || default`: an unset or empty variable falls back to the default. */
  function EnvOr(env: Option<string>, default: string): (v: string)
    ensures env.None? || env.value == "" ==> v == default
    ensures env.Some? && env.value != "" ==> v == env.value
  {
    if env.None? || env.value == "" then default else env.value
  }

  /** The secrets as read at start-up from `ACCESS_TOKEN_SECRET` and `REFRESH_TOKEN_SECRET`. */
  function SecretsFrom(accessEnv: Option<string>, refreshEnv: Option<string>): Secrets {
    Secrets(EnvOr(accessEnv, DefaultAccessSecret), EnvOr(refreshEnv, DefaultRefreshSecret))
  }

  /** With neither variable set the two secrets differ. */
  lemma DefaultSecretsDiffer()
    ensures SecretsFrom(None, None).access != SecretsFrom(None, None).refresh
  {
    assert DefaultAccessSecret[0] != DefaultRefreshSecret[0];
  }

  /** `jwt.sign(payload, secret, { expiresIn })` at time `now`. */
  function Sign(payload: TokenPayload, secret: string, now: nat, expiresIn: nat): Wire {
    Signed(Token(secret, payload, now, now + expiresIn))
  }

  /** `jwt.verify(token, secret)`, with the exception it throws turned into `None`. */
  function Decode(w: Wire, secret: string, now: nat): (r: Option<TokenPayload>)
    ensures r.Some? <==> w.Signed? && w.token.secret == secret && now < w.token.exp
    ensures r.Some? ==> r.value == w.token.payload
  {
    match w
    case Signed(t) => if t.secret == secret && now < t.exp then Some(t.payload) else None
    case Opaque(_) => None
  }

  /** `generateAccessToken`: signed with the access secret, expiring 15 minutes after issue. */
  function GenerateAccessToken(k: Secrets, payload: TokenPayload, now: nat): (w: Wire)
    ensures w.Signed? && w.token.secret == k.access && w.token.payload == payload
    ensures w.token.iat == now && w.token.exp == now + AccessTokenExpiry
  {
    Sign(payload, k.access, now, AccessTokenExpiry)
  }

  /** `generateRefreshToken`: signed with the refresh secret, expiring 7 days after issue. */
  function GenerateRefreshToken(k: Secrets, payload: TokenPayload, now: nat): (w: Wire)
    ensures w.Signed? && w.token.secret == k.refresh && w.token.payload == payload
    ensures w.token.iat == now && w.token.exp == now + RefreshTokenExpiry
  {
    Sign(payload, k.refresh, now, RefreshTokenExpiry)
  }

  /** `verifyAccessToken`: the payload of an unexpired token signed with the access secret. */
  function VerifyAccessToken(k: Secrets, w: Wire, now: nat): (r: Option<TokenPayload>)
    ensures r.Some? <==> w.Signed? && w.token.secret == k.access && now < w.token.exp
    ensures r.Some? ==> r.value == w.token.payload
  {
    Decode(w, k.access, now)
  }

  /** `verifyRefreshToken`: the payload of an unexpired token signed with the refresh secret. */
  function VerifyRefreshToken(k: Secrets, w: Wire, now: nat): (r: Option<TokenPayload>)
    ensures r.Some? <==> w.Signed? && w.token.secret == k.refresh && now < w.token.exp
    ensures r.Some? ==> r.value == w.token.payload
  {
    Decode(w, k.refresh, now)
  }

  datatype TokenPair = TokenPair(accessToken: Wire, refreshToken: Wire)

  /** An access and a refresh token for the same payload, issued at the same second. */
  function GenerateTokens(k: Secrets, payload: TokenPayload, now: nat): (pair: TokenPair)
    ensures VerifyAccessToken(k, pair.accessToken, now) == Some(payload)
    ensures VerifyRefreshToken(k, pair.refreshToken, now) == Some(payload)
  {
    TokenPair(GenerateAccessToken(k, payload, now), GenerateRefreshToken(k, payload, now))
  }

  /** Round trip: a fresh access token verifies to its payload until 15 minutes have passed, and
      not afterwards. */
  lemma AccessTokenRoundTrip(k: Secrets, p: TokenPayload, issued: nat, now: nat)
    ensures VerifyAccessToken(k, GenerateAccessToken(k, p, issued), now) ==
            if now < issued + AccessTokenExpiry then Some(p) else None
  {
  }

  /** Round trip: a fresh refresh token verifies to its payload until 7 days have passed, and
      not afterwards. */
  lemma RefreshTokenRoundTrip(k: Secrets, p: TokenPayload, issued: nat, now: nat)
    ensures VerifyRefreshToken(k, GenerateRefreshToken(k, p, issued), now) ==
            if now < issued + RefreshTokenExpiry then Some(p) else None
  {
  }

  /** With distinct secrets neither kind of token passes for the other. */
  lemma TokenKindsDoNotMix(k: Secrets, p: TokenPayload, issued: nat, now: nat)
    requires k.access != k.refresh
    ensures VerifyAccessToken(k, GenerateRefreshToken(k, p, issued), now) == None
    ensures VerifyRefreshToken(k, GenerateAccessToken(k, p, issued), now) == None
  {
  }

  /** A token whose `exp` has been reached is rejected whatever it was signed with. */
  lemma ExpiredTokenRejected(k: Secrets, t: Token, now: nat)
    requires t.exp <= now
    ensures VerifyAccessToken(k, Signed(t), now) == None
    ensures VerifyRefreshToken(k, Signed(t), now) == None
  {
  }

  /** Refresh tokens for one payload differ exactly when they were issued at different
      seconds: a token issued in the same second as an earlier one is that same token. */
  lemma RefreshTokensDifferByIssueTime(k: Secrets, p: TokenPayload, t1: nat, t2: nat)
    ensures GenerateRefreshToken(k, p, t1) == GenerateRefreshToken(k, p, t2) <==> t1 == t2
  {
  }
}
