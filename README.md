# Product management front end: verified model of its stores and route guard

This project models the three pieces of logic in a Vue/Pinia single-page
front end for a remote product catalog, and proves properties of them in Dafny:

- **Catalog store** (`ProductStore`, `product_store.dfy`). The class
  `CatalogStore` has the fields `products`, `isLoading` and `error` and the
  five actions `fetchProducts`, `fetchProductById`, `addProduct`,
  `updateProduct` and `deleteProduct`. Each remote call is an `Outcome`
  parameter: `Success(response)` or `Failure(message)`. Each action returns a
  `Completion`: `Returned(value)` or `Threw(message)`. The list operations are
  the functions `FirstIndexOf` (`findIndex`), `ReplaceFirst` (the in-place
  replacement at the found index) and `Without` (`filter`). Lemmas prove what
  these functions do alone and in combination.
- **Session store** (`AuthStore`, `auth_store.dfy`). The class
  `SessionStore` has the fields `token`, `refreshToken` and `user`, the
  `isAuthenticated` getter, and the actions `login`, `logout` and
  `restoreSession`. The browser's `localStorage` is the class `LocalStorage`
  over a `map<string, string>`. Each action is proved to perform a pure
  transition (`LoginStep`, `LogoutStep`, `RestoreStep`) on the session and
  the storage. The lemmas about sequences of actions are stated over those
  transitions. `JSON.stringify` and `JSON.parse` form the `JsonCodec` value
  given to the store. The assumption that parse undoes stringify is the
  predicate `RoundTrips`. It is an explicit precondition of the lemmas that
  need it.
- **Navigation guard** (`Router`, `router.dfy`). `Guard` is the
  `beforeEach` decision on `(requiresAuth, path, isAuthenticated)`. `Routes`
  is the constant route table. `Navigate` applies the guard to the route a
  path resolves to, after the table's redirect. The main property is
  `NoRedirectLoop`: wherever the guard redirects, the guard allows the same
  user at the target.

`outcomes.dfy` (`Outcomes`) holds the shared `Option`, `Outcome` and
`Completion` datatypes.

The model follows the code in these places:

- `fetchProducts` records its error but does not re-raise it
  (`src/stores/product.js:21-22`). The other four actions do re-raise.
- `isAuthenticated` is the truthiness of the token
  (`src/stores/auth.js:11`), so an empty-string token is not authenticated.
- `restoreSession` parses the stored user with `JSON.parse` before it looks
  at the token (`src/stores/auth.js:40-41`), so a stored user that does not
  parse makes restore throw the parser's error even when no token is stored.
- `setItem` stores a missing (`undefined`) token as the text `"undefined"`
  and a JSON-null token as the text `"null"` (`src/stores/auth.js:22-23`).
  Both texts are truthy, so restore adopts them: a missing or null refresh
  token comes back as that text (`MissingRefreshTokenRestoredAsText`), and a
  login response with a missing or null access token leaves the user signed
  out in memory but authenticated after restore
  (`MissingAccessTokenAuthenticatesAfterRestore`). Token slots are therefore
  the three-valued `JsValue`: `Undefined`, `Null` or `Str(text)`.

## Model

| member | source | states |
|---|---|---|
| ProductStore.FirstIndexOf | src/stores/product.js:69 | the result is -1 exactly when no element has the id; otherwise the element there has the id and no earlier element does |
| ProductStore.ReplaceFirst | src/stores/product.js:69-72 | the length is unchanged; the first element with the id becomes the response and every other index keeps its element; with no such element the list is unchanged |
| ProductStore.Without | src/stores/product.js:89 | an element survives exactly when it was in the list and its id differs; the list never grows |
| ProductStore.WithoutAppend | src/stores/product.js:89 | filtering distributes over concatenation, so survivors keep their relative order |
| ProductStore.WithoutCounts | src/stores/product.js:89 | every element with another id is kept exactly as many times as it occurred; no element with the id is kept |
| ProductStore.WithoutUnchangedIff | src/stores/product.js:89 | deleting leaves the list unchanged if and only if no element has the id |
| ProductStore.WithoutIdempotent | src/stores/product.js:89 | deleting an id twice gives the same list as deleting it once |
| ProductStore.DeleteUndoesAdd | src/stores/product.js:51 | because add does not deduplicate, deleting the added id removes the added element and every older element with that id |
| ProductStore.UpdateAfterDeleteIsNoOp | src/stores/product.js:69-72 | after an id is deleted, an update for it leaves the list unchanged |
| ProductStore.UpdateAfterDuplicateAdd | src/stores/product.js:69-71 | when the added id was already present, update replaces only the older (first) element and the appended one stays |
| ProductStore.CatalogStore.constructor | src/stores/product.js:6-10 | a new store has an empty list, is not loading and has no error |
| ProductStore.CatalogStore.FetchProducts | src/stores/product.js:12-26 | never throws; loading ends false; on success the list is exactly the response and the error is null; on failure the error is the message and the list is unchanged |
| ProductStore.CatalogStore.FetchProductById | src/stores/product.js:27-42 | the list never changes; loading ends false; on success returns the response with no error; on failure records and rethrows the message |
| ProductStore.CatalogStore.AddProduct | src/stores/product.js:43-59 | on success the list is the old list plus the response at the end: length one more, old prefix kept, last element the response, no deduplication; on failure the list is unchanged and the message is recorded and rethrown; loading ends false |
| ProductStore.CatalogStore.UpdateProduct | src/stores/product.js:60-80 | the length never changes; on success the list is the old list with the first element with the id replaced by the response, or unchanged if there is none; on failure the list is unchanged and the message is recorded and rethrown; loading ends false |
| ProductStore.CatalogStore.DeleteProduct | src/stores/product.js:81-96 | on success the list is the old list without the id and no element has the id; on failure nothing is removed and the message is recorded and rethrown; loading ends false |
| AuthStore.Truthy | src/stores/auth.js:11 | JavaScript truthiness of a token slot: a string other than the empty string |
| AuthStore.Authenticated | src/stores/auth.js:11 | `!!token`: the session's token is truthy |
| AuthStore.StoredText | src/stores/auth.js:22-23 | the text setItem stores is a string itself, "null" for null and "undefined" for undefined, so it is empty exactly for the empty string |
| AuthStore.Item | src/stores/auth.js:38-39 | getItem gives the stored text itself when the key is present, and null (never undefined) otherwise |
| AuthStore.ParseStoredUser | src/stores/auth.js:40 | an absent entry parses as null, so only stored text can be a syntax error; stored text is parsed as it is |
| AuthStore.LoginMessage | src/stores/auth.js:26 | the thrown value is never empty: the server's message or "Login failed" |
| AuthStore.LoginStep | src/stores/auth.js:14-28 | login returns exactly when the call succeeds; afterwards the store is authenticated exactly when a successful response has a truthy access token, or the failed call left an authenticated store; success adds the three keys to storage, failure keeps its keys |
| AuthStore.LogoutStep | src/stores/auth.js:29-36 | logout returns, is unauthenticated, and removes exactly the three keys |
| AuthStore.RestoreStep | src/stores/auth.js:37-46 | restore only reads storage; it throws exactly when the stored user is a syntax error; when the user parses and the stored token is truthy it returns and adopts exactly the stored token, the stored refresh token (or null) and the parsed user; otherwise it keeps the session |
| AuthStore.LoginSuccessMirrorsStorage | src/stores/auth.js:19-24 | a successful login holds the tokens and the response in memory; storage holds the same tokens (as stored text) and the serialised user; no other key changes |
| AuthStore.LoginFailureKeepsState | src/stores/auth.js:25-26 | a failed login changes neither the session nor the storage, and throws the server's non-empty message or else "Login failed" |
| AuthStore.LogoutClearsAndIsIdempotent | src/stores/auth.js:29-36 | after logout all three fields are null, the three keys are absent, the other keys are kept, and logging out again changes nothing |
| AuthStore.LogoutThenRestoreSignedOut | src/stores/auth.js:29-46 | restore after logout does not throw and leaves the session signed out and unauthenticated |
| AuthStore.RestoreWithoutTokenKeepsSession | src/stores/auth.js:41 | with no stored token, or an empty one, restore leaves the in-memory session unchanged |
| AuthStore.RestoreParsesBeforeTokenCheck | src/stores/auth.js:40-41 | a stored user that does not parse makes restore throw the parse error and change nothing, whatever the token |
| AuthStore.RestoreIdempotent | src/stores/auth.js:37-46 | restoring twice from unchanged storage gives the same session, storage and completion as restoring once |
| AuthStore.LoginThenRestoreRoundTrip | src/stores/auth.js:19-44 | if parse undoes stringify, restore after a login with a non-empty access token and a refresh token reproduces the login's token, refresh token and user, authenticated, in any store |
| AuthStore.MissingRefreshTokenRestoredAsText | src/stores/auth.js:20-43 | a login response whose refresh token is missing or null keeps it so in memory, and restore brings it back as the text "undefined" or "null" |
| AuthStore.MissingAccessTokenAuthenticatesAfterRestore | src/stores/auth.js:19-42 | a login response whose access token is missing or null is unauthenticated in memory, but authenticated after restore, with token "undefined" or "null" |
| AuthStore.EmptyAccessTokenNotRestored | src/stores/auth.js:22-41 | with an empty access token, the login is unauthenticated and restore keeps the restarted store's own session |
| AuthStore.LocalStorage.GetItem | src/stores/auth.js:38-40 | returns `Get` of the current items: the stored text when the key is present and null otherwise |
| AuthStore.LocalStorage.SetItem | src/stores/auth.js:22-24 | the key now maps to the value and every other key is unchanged |
| AuthStore.LocalStorage.RemoveItem | src/stores/auth.js:33-35 | the key is absent and every other key is unchanged |
| AuthStore.SessionStore.constructor | src/stores/auth.js:5-9 | a new store has all three fields null |
| AuthStore.SessionStore.IsAuthenticated | src/stores/auth.js:11 | the getter is the truthiness of the token: present and non-empty |
| AuthStore.SessionStore.Login | src/stores/auth.js:14-28 | the fields, the storage and the thrown value are those of the login transition |
| AuthStore.SessionStore.Logout | src/stores/auth.js:29-36 | the fields and the storage are those of the logout transition |
| AuthStore.SessionStore.RestoreSession | src/stores/auth.js:37-46 | the fields and the thrown value are those of the restore transition, computed from the current storage |
| Router.Guard | src/router/index.js:16-25 | the result is exactly one of allow, redirect to /login or redirect to /products; it redirects to /login exactly when the target needs auth and there is no session; it allows exactly when the target's auth need is met and the target is not the login page for a signed-in user |
| Router.FirstMatch | src/router/index.js:6-13 | the chosen record is in the table, matches the path, and no earlier record in table order matches; there is no record exactly when no pattern matches |
| Router.PathSegments | src/router/index.js:6-13 | the segments a path is matched on: the pieces between slashes after the leading slash, one trailing slash ignored |
| Router.Lookup | src/router/index.js:6-13 | the record a path resolves to is a table record whose pattern matches the path's segments (the first such, by FirstMatch) |
| Router.TargetOf | src/router/index.js:6-13 | the route the guard sees: an unmatched path is itself without the auth flag; a record without redirect gives the path with that record's flag; a redirecting record gives its redirect path with the flag of the record that path resolves to |
| Router.Navigate | src/router/index.js:16-25 | navigating to a path redirects to /login exactly when its target needs auth and there is no session, and is allowed exactly when the target's auth need is met and it is not the login page for a signed-in user |
| Router.JoinSegments | src/router/index.js:6-13 | splitting a path at its slashes loses nothing: joining the pieces gives the path back |
| Router.SegmentsJoin | src/router/index.js:6-13 | splitting undoes joining slash-free pieces |
| Router.TablePatterns | src/router/index.js:6-13 | the table has six records whose segment patterns spell the declared paths; the five named routes have no redirect, and the unnamed root route redirects to /login without the auth flag |
| Router.RedirectTargetsResolve | src/router/index.js:7-8 | /login resolves to a route without the auth flag, /products to one with it |
| Router.ProductRoutesProtected | src/router/index.js:7-11 | every route under /products carries requiresAuth and the login route does not |
| Router.NoRedirectLoop | src/router/index.js:18-21 | for every path and auth state, the target of a redirect is allowed for the same auth state |
| Router.RootLeadsToLogin | src/router/index.js:12 | the root path resolves to /login without the auth flag, and a user without a session is allowed there |
| Router.GuardScenarios | src/router/index.js:18-23 | /products without a session goes to /login, /login with a session goes to /products, /products with a session is allowed |
| Router.ProductPageNeedsSession | src/router/index.js:10 | /products/<id> (an id other than "new") resolves to the view-product record, which needs auth, and without a session it redirects to /login |
| Router.LogoutLocksProtectedRoutes | src/router/index.js:18-23 | right after logout every protected target redirects to /login and every other target is allowed |

## Left out

- HTTP calls, URLs and the `Authorization: Bearer` header are not modelled. A call is an `Outcome` parameter. For `fetchProducts` the parameter is the already extracted `response.data.products` list.
- ProductStore.CatalogStore.FetchProductById: its `id` only forms the request URL, so the model accepts it and never uses it.
- `async`/`await` is not modelled. Each action runs as one atomic step, so the `isLoading = true` set on entry is never observed. Concurrent calls racing on `isLoading`/`error` are not modelled either.
- Error objects are reduced to their `message` string. A thrown value without a message, and a server message that is a truthy non-string, are not modelled.
- Pinia's `defineStore`, the `useAuthStore()` lookups, `createRouter`/`createWebHistory`, the lazily imported views and all Vue components are framework wiring or UI and are not modelled.
- `JSON.stringify`/`JSON.parse` are the two functions of `JsonCodec`. Parse yields only a user payload, JSON null or a syntax error; JSON text of another shape is not modelled. The round-trip is the stated precondition `RoundTrips`, not a proved fact.
- Product records and user profiles are opaque (`ProductFields`, `Profile`) apart from the product `id` and the two token fields. Ids are an abstract type compared only with equality. Whether the ids the views pass (route parameters) have the same type as the API's ids depends on views outside this model.
- The user slot is an `Option`: `null` and `undefined` are both `None` there. One absent value is enough because the slot only ever holds the login response object (`src/stores/auth.js:21`), a `JSON.parse` result (`src/stores/auth.js:40`) or `null`, and none of these is `undefined`.
- Storage failures (quota exceeded, storage disabled) are not modelled.
- ProductStore.CatalogStore: `products` is a `seq` value that each action reassigns. The in-place `push` (`src/stores/product.js:51`) and indexed assignment (`src/stores/product.js:71`) therefore look the same as the reassignments at `src/stores/product.js:20` and `src/stores/product.js:89`; the difference, visible to code holding the old array, is not modelled.
- Route matching is a simplified version of vue-router's matcher. Paths are split at `/`, one leading slash and one trailing slash are ignored, a `:param` matches one non-empty segment, and the first matching record in table order wins; for this table that order agrees with vue-router's ranking. Case-insensitive matching, query strings, hashes, percent-encoding, nested routes and chains of redirects are not modelled.
