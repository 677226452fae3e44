/**
 * The session cookie manager and response helpers (lib/auth-utils.ts). The request's cookie
 * store is a `CookieStore` object whose entries `setAuthCookies` and `clearAuthCookies` change
 * in place; `getAuthCookies` and the response constructors are pure.
 */
module AuthUtils {
  import opened Wrappers
  import opened Jwt

  const AccessCookie := "accessToken"
  const RefreshCookie := "refreshToken"

  /** `maxAge` of the access cookie: 15 minutes. */
  const AccessCookieMaxAge: nat := 15 * 60
  /** `maxAge` of the refresh cookie: 7 days. */
  const RefreshCookieMaxAge: nat := 7 * 24 * 60 * 60

  datatype CookieOptions = CookieOptions(httpOnly: bool, secure: bool, sameSite: string, path: string, maxAge: nat)

  /** `COOKIE_OPTIONS` spread with a `maxAge`; `production` is `NODE_ENV === "production"`. */
  function Options(production: bool, maxAge: nat): (o: CookieOptions)
    ensures o.httpOnly && o.sameSite == "lax" && o.path == "/"
    ensures o.secure <==> production
    ensures o.maxAge == maxAge
  {
    CookieOptions(httpOnly := true, secure := production, sameSite := "lax", path := "/", maxAge := maxAge)
  }

  datatype Cookie = Cookie(value: Wire, options: CookieOptions)

  /** Cookies by name. */
  type Jar = map<string, Cookie>

  /** The jar after `setAuthCookies(access, refresh)`. */
  function WithAuthCookies(production: bool, jar: Jar, access: Wire, refresh: Wire): (j: Jar)
    ensures AccessCookie in j && j[AccessCookie] == Cookie(access, Options(production, AccessCookieMaxAge))
    ensures RefreshCookie in j && j[RefreshCookie] == Cookie(refresh, Options(production, RefreshCookieMaxAge))
    ensures forall n :: n != AccessCookie && n != RefreshCookie ==> (n in j <==> n in jar)
    ensures forall n :: n in jar && n != AccessCookie && n != RefreshCookie ==> j[n] == jar[n]
  {
    jar[AccessCookie := Cookie(access, Options(production, AccessCookieMaxAge))]
       [RefreshCookie := Cookie(refresh, Options(production, RefreshCookieMaxAge))]
  }

  /** The jar after `clearAuthCookies()`. */
  function WithoutAuthCookies(jar: Jar): (j: Jar)
    ensures AccessCookie !in j && RefreshCookie !in j
    ensures forall n :: n != AccessCookie && n != RefreshCookie ==> (n in j <==> n in jar)
    ensures forall n :: n in j ==> j[n] == jar[n]
  {
    jar - {AccessCookie, RefreshCookie}
  }

  /** The request's cookie store (`await cookies()`). */
  class CookieStore {
    var entries: Jar

    constructor(initial: Jar)
      ensures entries == initial
    {
      entries := initial;
    }

    /** `cookieStore.set(name, value, options)`. */
    method Set(name: string, value: Wire, options: CookieOptions)
      modifies this
      ensures entries == old(entries)[name := Cookie(value, options)]
    {
      entries := entries[name := Cookie(value, options)];
    }

    /** `cookieStore.delete(name)`: the cookie is gone, whether or not it was there. */
    method Delete(name: string)
      modifies this
      ensures entries == old(entries) - {name}
    {
      entries := entries - {name};
    }
  }

  method SetAuthCookies(store: CookieStore, production: bool, access: Wire, refresh: Wire)
    modifies store
    ensures store.entries == WithAuthCookies(production, old(store.entries), access, refresh)
  {
    store.Set(AccessCookie, access, Options(production, AccessCookieMaxAge));
    store.Set(RefreshCookie, refresh, Options(production, RefreshCookieMaxAge));
  }

  method ClearAuthCookies(store: CookieStore)
    modifies store
    ensures store.entries == WithoutAuthCookies(old(store.entries))
  {
    store.Delete(AccessCookie);
    store.Delete(RefreshCookie);
  }

  /** The result of `getAuthCookies()`: each value, or `undefined`. */
  datatype AuthCookies = AuthCookies(accessToken: Option<Wire>, refreshToken: Option<Wire>)

  function ValueOf(jar: Jar, name: string): Option<Wire> {
    if name in jar then Some(jar[name].value) else None
  }

  /** `getAuthCookies`: the value of each auth cookie the jar holds, absent where it holds none. */
  function GetAuthCookies(jar: Jar): (c: AuthCookies)
    ensures c.accessToken.Some? <==> AccessCookie in jar
    ensures c.accessToken.Some? ==> c.accessToken.value == jar[AccessCookie].value
    ensures c.refreshToken.Some? <==> RefreshCookie in jar
    ensures c.refreshToken.Some? ==> c.refreshToken.value == jar[RefreshCookie].value
  {
    AuthCookies(ValueOf(jar, AccessCookie), ValueOf(jar, RefreshCookie))
  }

  /** JavaScript truthiness of a cookie value: absent and empty are both false. */
  predicate Truthy(v: Option<Wire>) {
    v.Some? && v.value != Opaque("")
  }

  /** `getAuthCookies` after `setAuthCookies(a, r)` returns `{a, r}`. */
  lemma GetAfterSet(production: bool, jar: Jar, a: Wire, r: Wire)
    ensures GetAuthCookies(WithAuthCookies(production, jar, a, r)) == AuthCookies(Some(a), Some(r))
  {
  }

  /** `getAuthCookies` after `clearAuthCookies()` returns both absent, whatever was there. */
  lemma GetAfterClear(jar: Jar)
    ensures GetAuthCookies(WithoutAuthCookies(jar)) == AuthCookies(None, None)
    ensures !Truthy(GetAuthCookies(WithoutAuthCookies(jar)).accessToken)
    ensures !Truthy(GetAuthCookies(WithoutAuthCookies(jar)).refreshToken)
  {
  }

  /** Clearing twice leaves the same jar as clearing once. */
  lemma ClearIdempotent(jar: Jar)
    ensures WithoutAuthCookies(WithoutAuthCookies(jar)) == WithoutAuthCookies(jar)
  {
  }

  /** Setting the cookies is last-writer-wins: a second set replaces the first entirely. */
  lemma SetOverwrites(production: bool, jar: Jar, a1: Wire, r1: Wire, a2: Wire, r2: Wire)
    ensures WithAuthCookies(production, WithAuthCookies(production, jar, a1, r1), a2, r2) ==
            WithAuthCookies(production, jar, a2, r2)
  {
  }

  /** A JSON response, or the `{ error }` body that `errorResponse` builds. */
  datatype Response<B> = Json(data: B, status: int) | Error(message: string, status: int)

  /** `jsonResponse(data, status = 200)`. */
  function JsonResponse<B>(data: B, status: int := 200): (r: Response<B>)
    ensures r.Json? && r.data == data && r.status == status
  {
    Json(data, status)
  }

  /** `errorResponse(message, status = 400)`. */
  function ErrorResponse<B>(message: string, status: int := 400): (r: Response<B>)
    ensures r.Error? && r.message == message && r.status == status
  {
    Error(message, status)
  }

  /** The default statuses: 200 for data, 400 for an error. */
  lemma ResponseDefaults<B>(data: B, message: string)
    ensures JsonResponse(data).status == 200
    ensures ErrorResponse<B>(message).status == 400 && ErrorResponse<B>(message).message == message
  {
  }
}
