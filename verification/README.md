# Task manager authentication and task rules, in Dafny

This project models the server side of a Next.js task manager.

- **Authentication state machine.** Five route handlers (register, login, refresh, logout and
  "who am I") share a user store, the client's cookie jar and a clock. A session is a pair of
  JWTs kept in two cookies: an access token that lives 15 minutes and a refresh token that
  lives 7 days. The user row holds a digest of the one refresh token currently accepted.
  Refresh rotates the pair. Login replaces the stored digest. Logout nulls it.
- **Task request rules.** The task list handler checks the access token and builds a `where`
  clause scoped to the caller, with whitelisted status and priority filters and a
  case-insensitive title search. It then pages through the matches. The task create handler
  validates its input and fills in defaults. The dashboard's `fetchTasks` builds the query
  parameters the list handler reads.

Layout, following the source:

| file | module | models |
|---|---|---|
| `wrappers.dfy` | `Wrappers` | `Option` and `Result` |
| `text.dfy` | `Text` | JavaScript `\s`, `trim`, ASCII `toLowerCase`, the email pattern, `contains`, number rendering |
| `password.dfy` | `Password` | the password/refresh-token digest as an ideal hash |
| `jwt.dfy` | `Jwt` | lib/jwt.ts |
| `compact_token.dfy` | `CompactToken` | the text of a token and bcrypt's 72-byte input limit, for the refresh-token check |
| `auth_utils.dfy` | `AuthUtils` | lib/auth-utils.ts: a `CookieStore` class changed in place, pure readers and response constructors |
| `users.dfy` | `Users` | the user table with its unique email index |
| `auth_state.dfy` | `AuthState` | the handlers' state as a value; the access-token gate |
| `register.dfy`, `login.dfy`, `refresh.dfy`, `logout.dfy`, `me.dfy` | `RegisterRoute` … `MeRoute` | each route as a function from state to response and next state |
| `auth_server.dfy` | `Server` | the `AuthServer` class: imperative handlers, each proved equal to its route function |
| `sessions.dfy` | `Sessions` | properties of request sequences (rotation, single session, logout) |
| `task_types.dfy` | `TaskTypes` | lib/types.ts |
| `tasks_route.dfy` | `TasksRoute` | `GET`/`POST /api/tasks`, with the table as a `TaskStore` class |
| `api_client.dfy` | `ApiClient` | the query-parameter building of `fetchTasks` |

Modelling choices:

- **Handlers.** Each auth handler is written twice, with the same steps and early returns in
  both:
  - as a method of `Server.AuthServer` that changes the object's fields and its cookie store;
  - as a pure `Post`/`Get` function returning `Step(response, post-state)`.

  Each method's `ensures` states that it produces exactly what the function says. The
  cross-request properties are lemmas about the functions.
- **Tokens.** A JWT is the datatype `Token(secret, payload, iat, exp)`. A cookie may also hold
  text that is not a well-signed token (`Opaque`). Every properly signed token is `Signed`,
  under whatever secret signed it. `Opaque` is malformed text, or text whose signature is the
  HMAC of its contents under no secret; `jwt.verify` refuses it. Verification succeeds exactly
  when the secret matches and the current time is before `exp`. This is the `exp` claim of section 4.1.4 of RFC 7519. Time is
  in whole seconds.
- **Hashes.** `hashPassword`/`comparePassword` are an ideal hash: `Verify(y, Hash(x))` holds
  exactly when `y == x`. lib/password.ts is not part of this model. The handlers use this
  ideal hash. `CompactToken` separately models what bcrypt really compares: only the first 72
  bytes of a token. The consequence is under "## Findings".
- **Email case.** Emails are stored lower-cased. The store's invariant (`Users.StoreValid`) is
  unique emails, every email lower case, and every id below the next id to allocate.

## Model

| member | source | states |
|---|---|---|
| Text.LowerChar | app/api/auth/register/route.ts:26 | an ASCII upper-case letter maps to its lower-case letter; every other character is kept; the result is never upper case |
| Text.Lower | app/api/auth/register/route.ts:26 | `toLowerCase`: same length, no upper-case ASCII letter in the result, each upper-case letter replaced by its lower-case partner and every other character kept |
| Text.LowerOfLower | app/api/auth/login/route.ts:17 | lower-casing an already lower-case email leaves it unchanged |
| Text.TrimStart | app/api/tasks/route.ts:128 | the result is a suffix of the input, the removed prefix is whitespace, and the result does not start with whitespace |
| Text.TrimEnd | app/api/tasks/route.ts:128 | the result is a prefix of the input, the removed suffix is whitespace, and the result does not end with whitespace |
| Text.Trim | app/api/tasks/route.ts:128 | the input is whitespace, then the result, then whitespace; the result neither starts nor ends with whitespace |
| Text.TrimEmptyIffAllSpace | app/api/tasks/route.ts:104 | `title.trim().length === 0` holds exactly when the title is all whitespace |
| Text.IsEmailShape | app/api/auth/register/route.ts:16-17 | an address the pattern accepts has at least five characters, contains no whitespace, and neither starts nor ends with `@` |
| Text.EmailShapeExamples | app/api/auth/register/route.ts:16-19 | `a@b.com` matches the email pattern; an address without a dot after the `@`, without a local part, or with a space does not |
| Text.NatToDecimal | lib/api.ts:17-18 | `toString` of a number gives non-empty decimal digits without a leading zero |
| Text.DecimalRoundTrip | lib/api.ts:17-18 | reading back the digits `toString` produced gives the original number |
| Password.Hash | app/api/auth/register/route.ts:33 | the stored digest verifies against the value it was made from |
| Password.VerifyHash | app/api/auth/refresh/route.ts:35-38 | a digest verifies a value exactly when it was made from that value |
| Jwt.EnvOr | lib/jwt.ts:3-6 | an unset or empty environment variable yields the default secret; a non-empty one is used as it is |
| Jwt.DefaultSecretsDiffer | lib/jwt.ts:3-6 | the default access and refresh secrets differ |
| Jwt.Decode | lib/jwt.ts:28-42 | verification returns the payload exactly for a token signed with the expected secret whose `exp` is in the future; forged, malformed and expired tokens give null |
| Jwt.GenerateAccessToken | lib/jwt.ts:16-20 | the token is signed with the access secret, carries the payload, is issued now and expires 15 minutes later |
| Jwt.GenerateRefreshToken | lib/jwt.ts:22-26 | the token is signed with the refresh secret, carries the payload, is issued now and expires 7 days later |
| Jwt.VerifyAccessToken | lib/jwt.ts:28-34 | a payload exactly for a token signed with the access secret whose `exp` is still ahead, and then it is the token's payload; null otherwise |
| Jwt.VerifyRefreshToken | lib/jwt.ts:36-42 | a payload exactly for a token signed with the refresh secret whose `exp` is still ahead, and then it is the token's payload; null otherwise |
| Jwt.GenerateTokens | lib/jwt.ts:44-49 | both tokens of the pair verify, each under its own secret, to the same payload |
| Jwt.AccessTokenRoundTrip | lib/jwt.ts:16-34 | a fresh access token verifies to its payload before 15 minutes have passed and to null afterwards |
| Jwt.RefreshTokenRoundTrip | lib/jwt.ts:22-42 | a fresh refresh token verifies to its payload before 7 days have passed and to null afterwards |
| Jwt.TokenKindsDoNotMix | lib/jwt.ts:28-42 | with distinct secrets a refresh token fails access verification and an access token fails refresh verification |
| Jwt.ExpiredTokenRejected | lib/jwt.ts:28-42 | a token whose `exp` has been reached fails both verifications |
| Jwt.RefreshTokensDifferByIssueTime | lib/jwt.ts:22-26 | two refresh tokens for one payload are equal exactly when issued in the same second |
| AuthUtils.Options | lib/auth-utils.ts:4-9 | cookies are httpOnly, sameSite "lax", path "/", secure exactly in production, with the given maxAge |
| AuthUtils.WithAuthCookies | lib/auth-utils.ts:11-26 | the access cookie holds the access token with maxAge 900; the refresh cookie holds the refresh token with maxAge 604800; other cookies are untouched |
| AuthUtils.WithoutAuthCookies | lib/auth-utils.ts:28-32 | neither auth cookie remains; every other cookie is kept unchanged |
| AuthUtils.CookieStore.Set | lib/auth-utils.ts:17-25 | `cookieStore.set` puts the named cookie and changes nothing else |
| AuthUtils.CookieStore.Delete | lib/auth-utils.ts:30-31 | `cookieStore.delete` removes the named cookie, present or not |
| AuthUtils.SetAuthCookies | lib/auth-utils.ts:11-26 | the store afterwards is `WithAuthCookies` of the store before |
| AuthUtils.ClearAuthCookies | lib/auth-utils.ts:28-32 | the store afterwards is `WithoutAuthCookies` of the store before |
| AuthUtils.GetAuthCookies | lib/auth-utils.ts:34-40 | each auth cookie's value when the jar holds that cookie, absent exactly when it does not |
| AuthUtils.GetAfterSet | lib/auth-utils.ts:34-40 | reading the cookies after setting `a`, `r` gives `{a, r}` |
| AuthUtils.GetAfterClear | lib/auth-utils.ts:34-40 | reading the cookies after clearing gives both absent (and falsy), whatever was there |
| AuthUtils.ClearIdempotent | lib/auth-utils.ts:28-32 | clearing twice gives the same jar as clearing once |
| AuthUtils.SetOverwrites | lib/auth-utils.ts:11-26 | a second set replaces the first entirely |
| AuthUtils.JsonResponse | lib/auth-utils.ts:42-44 | a JSON body with the given data and status |
| AuthUtils.ErrorResponse | lib/auth-utils.ts:46-48 | an `{ error }` body with the given message and status |
| AuthUtils.ResponseDefaults | lib/auth-utils.ts:42-48 | the status defaults to 200 for data and to 400 for an error |
| Users.FindByEmail | app/api/auth/register/route.ts:25-27 | finds the one user with that email, or reports that no user has it |
| Users.WithRefreshHash | app/api/auth/login/route.ts:33-36 | the update changes that user's refresh hash only; every other row and field stays |
| Users.WithRefreshHashValid | app/api/auth/refresh/route.ts:49-52 | replacing a refresh hash keeps emails unique and lower case and ids allocated |
| AuthState.EnvFrom | lib/auth-utils.ts:6 | cookies are secure exactly when `NODE_ENV` is "production"; each signing secret is its variable, or the default when unset or empty |
| AuthState.AccessPayload | app/api/auth/me/route.ts:7-16 | a payload exactly when the access cookie is present, non-empty and verifies; the payload is the token's |
| RegisterRoute.InputError | app/api/auth/register/route.ts:12-23 | "Email and password are required" for a missing field; "Invalid email format" for an address the pattern rejects; then "Password must be at least 6 characters" for a shorter password; none exactly when all three checks pass |
| RegisterRoute.NameOrNull | app/api/auth/register/route.ts:39 | the name, or null exactly for a missing or empty name |
| RegisterRoute.Post | app/api/auth/register/route.ts:12-64 | 400 with the validation message or 409 for a taken lower-cased email, both with no state change; 201 exactly when accepted, creating one user under a fresh id with the lower-cased email, the password only as a digest and the name or null; the cookies hold the pair `generateTokens` issues now for `{id, email}`, expiring after 15 minutes and 7 days; the stored digest verifies the refresh cookie; the body exposes only `{id, email, name}`; the store stays valid |
| LoginRoute.Authenticate | app/api/auth/login/route.ts:16-27 | a user exactly when a row with the lower-cased email exists and the password verifies against its digest |
| LoginRoute.Post | app/api/auth/login/route.ts:12-47 | 400 for a missing field and 401 "Invalid email or password" for bad credentials, with the store and jar unchanged on every failure; 200 exactly for valid credentials: only that user's refresh hash changes, to the digest of the new refresh cookie; the cookies hold the pair `generateTokens` issues now for `{id, email}`, expiring after 15 minutes and 7 days; the body is `{id, email, name}` |
| LoginRoute.UnknownEmailAndWrongPasswordAlike | app/api/auth/login/route.ts:20-27 | an unknown email and a wrong password produce the identical 401 and leave the state as it was |
| RefreshRoute.Post | app/api/auth/refresh/route.ts:14-58 | no cookie: 401 "Refresh token not found" with the state unchanged; then failed verification, no user or no session, and a digest mismatch give their own 401 messages and clear both cookies; no failure touches the store; 200 exactly when all checks pass, with the pair `generateTokens` issues now for the stored id and email, expiring after 15 minutes and 7 days, the new digest in place of the old, both cookies reset and a message-only body |
| LogoutRoute.Post | app/api/auth/logout/route.ts:9-35 | always 200 "Logout successful" with both cookies cleared; a valid access token for an existing user nulls that user's refresh hash; otherwise (no token, invalid token, or a missing user whose update throws into the catch) the store is unchanged |
| LogoutRoute.PreservesValid | app/api/auth/logout/route.ts:17-20 | logout keeps the store valid |
| LogoutRoute.Idempotent | app/api/auth/logout/route.ts:9-35 | a second logout gives the same response and the same end state |
| MeRoute.Get | app/api/auth/me/route.ts:5-40 | always a 200 session status; authenticated exactly when the access token verifies and its user exists, then with `{id, email, name, createdAt}` of that user; otherwise `{authenticated: false, user: null}` |
| MeRoute.ReadsOnlyAccessCookie | app/api/auth/me/route.ts:7 | the answer depends only on the access cookie, the store and the clock |
| Server.AuthServer.Register | app/api/auth/register/route.ts:7-69 | the imperative handler yields exactly `RegisterRoute.Post`'s response and state and keeps the store valid |
| Server.AuthServer.Login | app/api/auth/login/route.ts:7-52 | the imperative handler yields exactly `LoginRoute.Post`'s response and state and keeps the store valid |
| Server.AuthServer.Refresh | app/api/auth/refresh/route.ts:12-63 | the imperative handler yields exactly `RefreshRoute.Post`'s response and state and keeps the store valid |
| Server.AuthServer.Logout | app/api/auth/logout/route.ts:9-36 | the imperative handler, including its catch path, yields exactly `LogoutRoute.Post`'s response and state |
| Sessions.RegisterThenMe | app/api/auth/register/route.ts:43-52 | right after registering, and for 15 minutes, "who am I" reports the new user |
| Sessions.RegisterTwiceConflicts | app/api/auth/register/route.ts:25-31 | registering the same email again, in any letter case, gives 409 and changes nothing |
| Sessions.RegisterThenLogin | app/api/auth/login/route.ts:16-27 | the registered credentials log in, whatever the letter case of the email |
| Sessions.LoginRefreshMe | app/api/auth/refresh/route.ts:45-58 | a refresh within 7 days of login succeeds, "who am I" still reports the user, and the access token is new once the clock has moved |
| Sessions.RotationRetiresPresentedToken | app/api/auth/refresh/route.ts:35-52 | after a successful refresh, presenting the consumed refresh token again fails, with "Invalid refresh token" while it is unexpired, and clears the cookies, provided it was issued before the second of the refresh |
| Sessions.SameSecondRefreshKeepsPresentedToken | app/api/auth/refresh/route.ts:45-52 | a refresh in the very second its token was issued re-issues that same token, so the consumed token is accepted again |
| Sessions.LoginRetiresEarlierRefreshTokens | app/api/auth/login/route.ts:29-36 | after a login, an earlier refresh token of that user is refused even when signed and unexpired, and the cookies are cleared |
| Sessions.LogoutEndsSession | app/api/auth/refresh/route.ts:30-33 | after logout with a valid access token, a refresh token of that user fails with "User not found or session expired" |
| Sessions.LogoutThenMe | app/api/auth/logout/route.ts:24 | after logout, at any later time, "who am I" reports no session |
| TaskTypes.ParseStatus | app/api/tasks/route.ts:36 | a status exactly for the names TODO, IN_PROGRESS, COMPLETED, and it is the status so named |
| TaskTypes.ParsePriority | app/api/tasks/route.ts:40 | a priority exactly for the names low, medium, high, and it is the priority so named |
| TaskTypes.WhitelistsAreTheNames | lib/types.ts:1-2 | the handlers' whitelists hold exactly the names of the two enumerations |
| TaskTypes.StatusNamesRoundTrip | lib/types.ts:1 | parsing a status's name gives that status back |
| TaskTypes.PriorityNamesRoundTrip | lib/types.ts:2 | parsing a priority's name gives that priority back |
| TasksRoute.BuildWhere | app/api/tasks/route.ts:27-49 | `userId` is the token's; status and priority are set exactly for whitelisted values; the title filter is set exactly for a non-empty search; a row matches exactly when it is one of the caller's tasks that the query asks for |
| TasksRoute.Filter | app/api/tasks/route.ts:52 | a row is in the result exactly when it is in the table and the `where` clause accepts it; the result is no longer than the table |
| TasksRoute.FilterCounts | app/api/tasks/route.ts:52 | every copy of an accepted row is kept and every copy of a refused row dropped |
| TasksRoute.FilterAppend | app/api/tasks/route.ts:52 | store order is kept: the accepted rows of an earlier part of the table come before those of a later part |
| TasksRoute.Window | app/api/tasks/route.ts:59-60 | `skip`/`take`: at most `limit` rows, the run starting at `skip`, empty past the end |
| TasksRoute.Views | app/api/tasks/route.ts:61-70 | each listed row appears as its selected columns, in order |
| TasksRoute.CeilDiv | app/api/tasks/route.ts:79 | `Math.ceil(total / limit)`: the fewest pages of `limit` rows that hold `total` rows |
| TasksRoute.SkipNonNegative | app/api/tasks/route.ts:51 | `(page - 1) * limit` is a valid offset exactly for pages 1 and up |
| TasksRoute.PageNonEmptyIffWithinTotal | app/api/tasks/route.ts:51-79 | a page holds rows exactly when its number is at most `totalPages` |
| TasksRoute.Paginate | app/api/tasks/route.ts:75-81 | the block echoes `page`, `limit` and `total`; `totalPages` is the fewest pages of `limit` rows that hold `total`; `hasMore` holds exactly when rows remain beyond the offset plus those returned |
| TasksRoute.HasMoreIffLaterPage | app/api/tasks/route.ts:79-80 | `hasMore` holds exactly when the page number is below `totalPages` |
| TasksRoute.TrimmedOrNull | app/api/tasks/route.ts:129 | the description trimmed, or null exactly for an absent or all-whitespace description, otherwise the non-empty trimmed text |
| TasksRoute.TitleError | app/api/tasks/route.ts:104-110 | "Title is required" for a missing or blank title, then "Title must be less than 200 characters" for one longer than 200; none exactly when both checks pass |
| TasksRoute.StatusOrDefault | app/api/tasks/route.ts:130 | TODO for a missing status, otherwise the whitelist's reading of it |
| TasksRoute.PriorityOrDefault | app/api/tasks/route.ts:131 | medium for a missing priority, otherwise the whitelist's reading of it |
| TasksRoute.ValidateCreate | app/api/tasks/route.ts:104-132 | fails exactly for a missing or blank title ("Title is required"), a title over 200 characters ("Title must be less than 200 characters"), a status outside the whitelist ("Invalid status. …", exactly when the title passes) or a priority outside it ("Invalid priority. …", exactly when title and status pass); otherwise the title is trimmed, the description trimmed or null, status defaults to TODO, priority to medium, and a non-empty due date is kept |
| TasksRoute.TaskStore.List | app/api/tasks/route.ts:6-87 | 401 "Unauthorized" without an access cookie; 401 "Invalid or expired token" for a bad one; otherwise the page at `(page - 1) * limit` of the caller's requested tasks, only the caller's rows, with `total`, `totalPages` and `hasMore` |
| TasksRoute.TaskStore.Create | app/api/tasks/route.ts:89-147 | the same two 401s, then 400 with the validation message, none of which changes the table; 201 exactly when authenticated and valid: one row appended with the validated fields, the token's user id and fresh timestamps |
| CompactToken.Digit | lib/jwt.ts:22-26 | a six-bit value's digit in the base64url alphabet of section 5 of RFC 4648 is never `.`, the separator of the token's parts |
| CompactToken.Group | lib/jwt.ts:22-26 | three bytes encode to four characters |
| CompactToken.Base64Url | lib/jwt.ts:22-26 | the unpadded encoding of `n` bytes has `4 * (n / 3)` characters, plus one more than the bytes left over |
| CompactToken.Base64UrlAppend | lib/jwt.ts:22-26 | bytes filling whole groups encode on their own, and what follows them encodes after |
| CompactToken.PayloadJson | lib/jwt.ts:22-26 | the claims' JSON starts with the payload's `userId` and `email` |
| CompactToken.ClaimsStart | lib/jwt.ts:22-26 | for an email of four or more characters, the first 36 characters of the encoded claims depend on the payload only |
| CompactToken.First72FixedByPayload | lib/jwt.ts:22-26 | two tokens for one payload agree on their first 72 characters, whatever their `iat`, `exp` and signature |
| CompactToken.Truncate72 | app/api/auth/refresh/route.ts:35-38 | bcrypt reads a secret whole up to 72 bytes and only its first 72 bytes beyond that |
| CompactToken.BcryptHash | app/api/auth/refresh/route.ts:48 | a digest made by bcrypt accepts the value it was made from |
| CompactToken.BcryptAcceptsOtherRefreshTokens | app/api/auth/refresh/route.ts:35-38 | the bcrypt digest stored for one refresh token of a user accepts every other refresh token of that user, though the tokens differ |
| CompactToken.WholeTokenDigestRefusesOtherRefreshTokens | app/api/auth/refresh/route.ts:35-38 | a digest of the whole token accepts a refresh token of the user exactly when it is the same token |
| ApiClient.Without | lib/api.ts:22 | no pair with the name remains; lookups of other names are unchanged |
| ApiClient.Set | lib/api.ts:22 | `params.set`: the name then reads as the new value; every other name reads as before |
| ApiClient.TaskQueryParams | lib/api.ts:16-35 | `page` and `limit` always; `status` and `priority` only when set and not "ALL"; `search` only when non-empty; `sortBy` and `sortOrder` as given; no other name |
| ApiClient.ServerSelectsWhatFiltersDescribe | lib/api.ts:21-26 | the list handler, reading the parameters the dashboard built, selects exactly the caller's tasks the dashboard's filters describe |

## Findings

| source | as written | input that shows it | evidently intended | confidence | as-written member | corrected member |
|---|---|---|---|---|---|---|
| app/api/auth/refresh/route.ts:35-38 | the refresh token is checked with bcrypt `comparePassword`, which reads only the first 72 bytes: the 36-character header, the `.` and 35 characters encoding the start of the claims, `{"userId":"` and the user's id, the same for every refresh token of that user | a refresh token of a user issued at an earlier second (rotated away by a later refresh or login), presented while unexpired | only the refresh token whose digest is stored is accepted | not executed | CompactToken.BcryptAcceptsOtherRefreshTokens | CompactToken.WholeTokenDigestRefusesOtherRefreshTokens |

The handlers use the corrected comparison: the ideal hash of the whole token. With it,
`Sessions.RotationRetiresPresentedToken` and `Sessions.LoginRetiresEarlierRefreshTokens` hold.
Under the code as written, neither holds: while a digest is stored, any signed, unexpired
refresh token of the user passes the check.

## Left out

- Signing and verifying with the jsonwebtoken library. In the handlers a token is the datatype of its claims and secret. `CompactToken` gives its text only as far as the bcrypt finding needs it:
  - the signature is a parameter, not computed;
  - the encoded header is given as its text, not computed from its JSON;
  - JSON escaping covers `"` and `\` only, not control characters;
  - each character is one byte, which is exact for ASCII only.
- Password.Hash: bcrypt is modelled as an ideal hash. Three things follow:
  - Salt is not modelled, so equal inputs give equal digests.
  - bcrypt reads at most 72 bytes. Every refresh token of a user has the same first 72 bytes. So while a digest is stored, the real refresh check accepts any signed, unexpired refresh token of that user, not only the latest (see "## Findings"). The handlers' digest compares whole tokens. `Sessions.RotationRetiresPresentedToken` and `Sessions.LoginRetiresEarlierRefreshTokens` hold for that digest only. The same limit lets two passwords that share their first 72 bytes both log in.
  - lib/password.ts is not part of this model.
- JSON fields of non-string type are not modelled: every body field is text or absent. What the source answers depends on the field and the handler:
  - 400 where a check reads a value of any type without throwing and rejects it: the register email pattern (app/api/auth/register/route.ts:17 tests the value's string form); the password length (line 21 reads `length`, so a short array fails it); the task status and priority whitelists (app/api/tasks/route.ts:112, 119, where `includes` of a non-string is false);
  - 500 where a string method throws a TypeError that the handler catches: `email.toLowerCase()` in login (app/api/auth/login/route.ts:17) and in register once the checks pass, and `title.trim()` in the task create handler (app/api/tasks/route.ts:104).
- `request.json()` failing and database faults take the handlers' `catch` path to a 500 and are not modelled. The exceptions are the two database errors the code reaches by design:
  - the update of a deleted user in logout;
  - a negative `skip` in the task list.
- TasksRoute.TaskStore.List: requires `limit > 0`. `parseInt` of the query text is left out, so `page` and `limit` arrive as integers. A zero or unparsable `limit` (NaN or Infinity page counts) is not modelled.
- TasksRoute.TaskStore.List: rows come back in store order. `orderBy` on `sortBy`/`sortOrder` is database behaviour and is not modelled. Neither is an unvalidated `sortBy`.
- TasksRoute.TaskStore.List: a `page` below 1 gives a negative `skip`. The database client rejects it and the catch answers 500; that is the model's answer.
- `new Date(dueDate)`: a due date is kept as the text the client sent.
- Text.LowerChar: `toLowerCase` and the `insensitive` title match fold ASCII letters only. Unicode case folding is not modelled.
- Lengths count Dafny characters (code points). JavaScript's `length` counts UTF-16 units, so the 6-character password minimum and the 200-character title limit can differ for text outside the Basic Multilingual Plane.
- ApiClient.TaskQueryParams: `page` and `limit` are JavaScript numbers, modelled as integers. `toString` of a number of 1e21 or more gives exponent form, which is not modelled. The dashboard passes 1 and 50 (app/dashboard/page.tsx:43-44).
- ApiClient.TaskQueryParams: the parameters are name-value pairs. `URLSearchParams.toString` percent-encoding, the `fetch` call and the other request wrappers in lib/api.ts are not modelled.
- Cookie expiry in the browser (`maxAge`) is not modelled. A cookie stays in the jar until cleared; only the tokens inside expire.
- Concurrent requests are not modelled. Handlers run one at a time, so the race between two refreshes using the same token is outside the model.
- Ids are a counter in place of database-generated ids. Times are whole seconds from a clock the caller advances.
- lib/prisma.ts, lib/auth-context.tsx (client keep-alive timer), the pages and the components are not part of this model.
- MeRoute.Get: the "who am I" query is a pure function of `Server.AuthServer.State()`. It changes nothing, so it has no method on the class.
