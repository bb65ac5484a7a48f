# express-messagely: authorization middleware and message reshaping

A Dafny model of the authorization layer of a small Express messaging
service, and of the pure row reshaping in its `User` model.

- `js_values.dfy` holds the JavaScript values the middleware handles, with
  truthiness, `||`, strict equality `===` and the `username` property read.
  It also holds small `Option`/`Result` types and the application's error
  classes (`Unauthorized(message?)`, `NotFound`).
- `auth.dfy` models `middleware/auth.js`. A `RequestContext` object holds
  `req.query._token`, `req.body._token`, `req.params` and `res.locals.user`.
  `authenticateJWT` is a method that may rewrite `res.locals.user`. The four
  guards are functions of the context that end in `Continue` (`next()`) or
  `Reject(error)` (`next(err)`). Token verification (`jwt.verify` with the
  process secret) is a parameter `verify: JsValue -> Option<JsValue>`, where
  `None` stands for a throw.
- The guards are modelled as written. Separately, `CanRead` and
  `CanMarkRead` state the rules the doc comments give (routes/messages.js:23
  and :53). `CheckedMessageAccess` and `CheckedRecipientAccess` are the guards
  that meet those rules. Lemmas relate the literal guards to both.
- `user_model.dfy` models `messagesFrom` and `messagesTo` as total functions
  over the rows a query returns. It also models the found / not-found
  branches of `authenticate` and `updateLoginTimestamp` over those rows.
- `routes.dfy` records which guard precedes which route, and which guards the
  middleware module exports. It also composes `authenticateJWT` and a guard on
  one request, for the user-detail test and for marking a message read.

The doc comments and the code disagree on the message guards. The model
follows the code:

- `ensureCorrectMessageAccess` admits only a caller equal to both the sender
  and the recipient.
- Both message guards compare the whole `res.locals.user` value with the
  usernames.
- Both message guards read the fields of an un-awaited promise.

The documented rules are the separate predicates described above.

## Model

| member | source | states |
|---|---|---|
| JsValues.Or | middleware/auth.js:15 | JavaScript's logical or is one of its operands: the left one whenever it is truthy, the right one otherwise. The result is truthy iff either operand is. |
| Auth.TokenFromRequest | middleware/auth.js:15 | The query `_token` is used whenever it is truthy; otherwise the body `_token` is used. |
| Auth.ResolvedUser | middleware/auth.js:15-21 | After `authenticateJWT`, `res.locals.user` is either what it was before or a payload that `verify` produced from the query token or the body token. It changes only to the verified payload of the chosen token. |
| Auth.RequestContext.AuthenticateJWT | middleware/auth.js:13-23 | Always continues and never rejects. It sets `res.locals.user` to the verified payload, or leaves it alone when verification fails. The tokens and route parameters are unchanged. |
| Auth.ResolvedUserCases | middleware/auth.js:16-21 | When verification succeeds, the payload becomes `res.locals.user`. When it fails, `res.locals.user` keeps its previous value. |
| Auth.InvalidTokenSameAsNoToken | middleware/auth.js:14-22 | A token that fails verification leaves the request exactly as if no token had been sent, in the query or in the body. This assumes a missing token does not verify. |
| Auth.RequestContext.EnsureLoggedIn | middleware/auth.js:27-37 | `ensureLoggedIn` continues iff `res.locals.user` is truthy. Otherwise it rejects with a bare `UnauthorizedError`. |
| Auth.RequestContext.EnsureCorrectUser | middleware/auth.js:41-51 | On a route with `:username`, `ensureCorrectUser` continues iff the identity's `username` claim is exactly that parameter string. Without the parameter, it continues iff the user is truthy and has no `username` property. Every refusal is a bare `UnauthorizedError`. |
| Auth.RequestContext.EnsureCorrectMessageAccess | middleware/auth.js:53-67 | `ensureCorrectMessageAccess` continues iff `res.locals.user` is a primitive strictly equal to both `from_username` and `to_username`. Otherwise it rejects with "Invalid user request". |
| Auth.RequestContext.EnsureRecipientAccess | middleware/auth.js:69-80 | `ensureRecipientAccess` continues iff `res.locals.user` is a primitive strictly equal to `to_username`. Otherwise it rejects with "Invalid user request". |
| Auth.CanRead | routes/messages.js:23 | The documented read rule: the caller's username is the sender or the recipient. |
| Auth.CanMarkRead | routes/messages.js:53 | The documented mark-read rule: only the recipient. Anyone it admits may also read. A reader who is not the sender may mark read. |
| Auth.NoUnverifiedIdentity | middleware/auth.js:15-17 | On a fresh request, the identity is either absent or the verified payload of a token the request carried. |
| Auth.LoggedInIffVerified | middleware/auth.js:15-33 | After `authenticateJWT` on a fresh request, `ensureLoggedIn` continues iff the chosen token verified to a truthy payload. |
| Auth.NoTokenNotLoggedIn | middleware/auth.js:15-30 | Assuming a missing token does not verify, a request that carries no token is rejected by `ensureLoggedIn` with `Unauthorized`. |
| Auth.CorrectUserImpliesLoggedIn | middleware/auth.js:29-43 | Whenever `ensureCorrectUser` continues, `ensureLoggedIn` continues on the same context. |
| Auth.ReadGuardWithinCanRead | middleware/auth.js:56-61 | On a stored message, every caller the read guard admits is a username string that the documented "to or from user" rule also admits. Such a message was sent by that user to themself. |
| Auth.ReadGuardRejectsSender | middleware/auth.js:56-58 | The user `"alice"` reading their own message to `"bob"` is rejected, although the documented rule admits them. |
| Auth.ReadGuardRejectsObjectIdentity | middleware/auth.js:57-58 | An identity that `authenticateJWT` stored from an object payload is never admitted by the read guard. |
| Auth.RecipientGuardWithinCanMarkRead | middleware/auth.js:72-75 | On a stored message, an admitted caller is the recipient. A sender who differs from the recipient is rejected, and so is a third party. |
| Auth.RecipientGuardRejectsResolvedRecipient | middleware/auth.js:72 | The recipient `"bob"`, authenticated with a `{username: "bob"}` payload, is rejected by the mark-read guard, although the documented rule admits them. |
| Auth.RecipientGuardsDisjoint | middleware/auth.js:72-75 | On any stored message, no caller passes both the mark-read guard as written and the documented one (routes/messages.js:53). Whoever the documented rule admits is rejected as written with "Invalid user request". |
| Auth.PendingMessageAdmitsAnonymous | middleware/auth.js:54-58 | With `Message.get` not awaited, both message guards continue exactly for requests with no identity at all. The same holds at lines 70-72. |
| Auth.RequestContext.CheckedMessageAccess | routes/messages.js:23-25 | The intended read guard continues iff the message exists, the caller has a `username` claim, and that claim is the sender or the recipient. A missing message is `NotFound`; any other refusal is `Unauthorized`. |
| Auth.RequestContext.CheckedRecipientAccess | routes/messages.js:53 | The intended mark-read guard continues iff the message exists and the caller's `username` claim is its recipient. A missing message is `NotFound`. |
| Auth.CheckedGuardsOnSender | routes/messages.js:23 | The sender passes the intended read guard. The sender passes the intended mark-read guard only on a message to themself. |
| Auth.CheckedGuardsSeparateNotFound | middleware/auth.js:54 | The intended guards answer `NotFound` exactly when the message lookup found nothing. |
| Auth.CheckedMarkReadImpliesRead | routes/messages.js:23-53 | Whoever may mark a message read may also read it. |
| Routes.MessageRoutesUseUnexportedGuards | middleware/auth.js:82-86 | Every user route uses an exported guard. `GET /messages/:id` and `POST /messages/:id` use guards the middleware module does not export. |
| Routes.CompleteExportsCoverRoutes | middleware/auth.js:82-86 | With all four guards exported, every guard a route names is defined. The shipped export list is a strict subset of that. |
| Routes.UserDetailRequests | routes/users.test.js:44-69 | A body token for `test1` passes `ensureCorrectUser` on `/users/test1`. The same token is refused with 401 on `/users/user_that_doesnt_exist`. |
| Routes.UnverifiedTokenRequest | middleware/auth.js:19-30 | A token that does not verify is refused by `ensureLoggedIn` with `Unauthorized`, exactly like a request without a token, assuming a missing token does not verify either. |
| Routes.MarkReadRequests | routes/messages.js:57 | On a message from alice to bob, the mark-read guard as written refuses bob and admits an anonymous request. The intended guard admits bob and refuses alice. |
| UserModel.MessagesFrom | models/user.js:141-154 | One record per row, same order. `id` is `message_id`. `body`, `sent_at` and `read_at` are copied. `to_user` is `{username: to_username, first_name: to_first, last_name: to_last, phone: to_phone}`. |
| UserModel.MessagesTo | models/user.js:185-198 | One record per row, same order. `from_user` is built from `from_username`/`from_first`/`from_last`/`from_phone`, keyed `username`. `id`, `body` and timestamps are copied. |
| UserModel.MessagesFromLosesNothing | models/user.js:125-154 | Given rows joined on the recipient (`u.username = to_username`), the reshaped records determine the rows exactly. |
| UserModel.MessagesToLosesNothing | models/user.js:169-198 | Given rows joined on the sender, the reshaped records of `messagesTo` determine the rows exactly. |
| UserModel.MessagesFromAppend | models/user.js:143-154 | Reshaping works row by row: the reshaping of two result sets appended is the two reshapings appended. |
| UserModel.MessagesToAppend | models/user.js:187-198 | The records `messagesTo` builds from two result sets appended are the records of each, appended. |
| UserModel.Authenticate | models/user.js:51-57 | `authenticate` is false when no row is found. Otherwise it is exactly the password-comparison result. |
| UserModel.RegisteredPasswordAuthenticates | models/user.js:28-57 | A password whose hash is stored is accepted, provided the comparison accepts a password against its own hash. An unknown user is never authenticated. |
| UserModel.UpdateLoginTimestamp | models/user.js:71-75 | `updateLoginTimestamp` fails with `NotFound` iff the update returned no row. Otherwise it returns the first row. |

## Left out

- The SQL text and the database client: every operation takes the rows a query returned.
- `jwt.sign` is not modelled. Where a scenario needs a signed token, it assumes a token whose `verify` yields the signed payload. `verify` is a parameter, with the secret folded into it: any total function from a token to an optional payload. Token expiry and signature checks live inside it.
- `bcrypt.hash` and `bcrypt.compare` are parameters.
- Authenticate: `compare` is a total function, so a `bcrypt.compare` that rejects (for example when a login omits `password`, leaving it undefined) is not modelled; the model always yields a boolean.
- Promises, `async`/`await` and the `next()` callback are collapsed into a returned `Outcome`.
- The un-awaited `Message.get` is modelled by what its result's properties read as (`PendingMessage`). The store behind it (`models/message`) is not part of this model.
- The export list at middleware/auth.js:82-86 omits the two message guards that routes/messages.js:6-10 imports. The model evaluates those guards as if they were reachable; how the routing framework treats an undefined handler is not modelled.
- Objects are compared by identity in JavaScript. `StrictEquals` treats an object operand as never equal, because every object this code compares was allocated apart from its counterpart.
- JavaScript numbers are modelled as integers, so `NaN`, fractions and `-0` are not represented. Arrays in the query string are also not represented.
- `register`, `all` and `get` in models/user.js return query rows unchanged and are not modelled.
- routes/auth.js (login and register handlers) is not modelled. This includes its un-awaited `updateLoginTimestamp` and its catch-all `BadRequestError`.
- Column nullability (for example an unset name or phone) is not modelled; every column except `read_at` is a string or an integer.
- The comment above `messagesTo` (models/user.js:159-163) documents the nested sender as `{id, ...}`. The code keys it `username`, and the model follows the code.

## Findings

| source | as written | input that shows it | evidently intended | confidence | as-written member | corrected member |
|---|---|---|---|---|---|---|
| middleware/auth.js:56-58 | rejects when the user differs from the sender OR from the recipient | user "alice" reading a message they sent to "bob" | admit the sender or the recipient (routes/messages.js:23) | not executed | Auth.ReadGuardRejectsSender | Auth.RequestContext.CheckedMessageAccess |
| middleware/auth.js:72 | compares the whole `res.locals.user` payload object with the recipient's username | payload `{username: "bob"}` on a message from "alice" to "bob" | compare `res.locals.user.username` | not executed | Auth.RecipientGuardsDisjoint | Auth.RequestContext.CheckedRecipientAccess |
| middleware/auth.js:54 | `Message.get` is not awaited, so `from_username` and `to_username` read as undefined | a request with no token on `GET /messages/:id`, assuming the guard is exported | await the lookup; refuse anonymous callers; a missing message is not found | not executed | Auth.PendingMessageAdmitsAnonymous | Auth.RequestContext.CheckedMessageAccess |
| middleware/auth.js:70 | `Message.get` is not awaited in the mark-read guard either | a request with no token on `POST /messages/:id`, assuming the guard is exported | await the lookup and admit only the recipient | not executed | Routes.MarkReadRequests | Auth.RequestContext.CheckedRecipientAccess |
| middleware/auth.js:82-86 | exports only `authenticateJWT`, `ensureLoggedIn` and `ensureCorrectUser`; routes/messages.js:28 and :57 then pass `undefined` as a route handler, which Express refuses when the route is registered, so the message routes module fails to load and its guards are never reached | routes/messages.js:6-10 importing `ensureCorrectMessageAccess` and `ensureRecipientAccess` | export all four guards | not executed | Routes.MessageRoutesUseUnexportedGuards | Routes.CompleteExportsCoverRoutes |
