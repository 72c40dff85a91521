# Task manager: gatekeepers, token issuer and frontend stores

A Dafny model of the security and state core of a small task-management
system. The system is made of Go services and a React frontend. The model
covers five pieces:

- **The authentication service's gatekeeper.** This is the request-entry
  middleware. It reads the bearer credential from the `Authorization`
  header and consults a revocation denylist in a key/value store. It then
  parses and verifies the JSON Web Token and checks its claims in a fixed
  order, then its expiry. It either rejects the request (a status and a
  message, then abort) or admits it (`userID`, `role` and `token` put into
  the request context).
- **The task service's gatekeeper.** This is the same chain without the
  denylist and without the expiry check. It has a default secret and
  requires a string `user_id`.
- **The authentication service's handlers.** These are the token issuer
  `generateToken` and the early-return chains of `Register`, `Login`,
  `Logout` and `RefreshToken`.
- **The frontend's task store.** This is a reducer over
  `{tasks, currentTask, loading, error}`, together with a provider class
  whose callbacks dispatch fixed action sequences to it.
- **The frontend's session store.** This is a reducer over
  `{user, token, isAuthenticated, loading, error}` with the invariant
  `isAuthenticated ⇒ token ≠ null`, together with a provider class that
  keeps the token and the user in browser storage.

Some parts are opaque and enter as inputs:

- The JSON Web Token library (RFC 7519) is a record of three functions:
  decode a token, verify it under a key, and sign claims. What is modelled
  is `jwt.Parse`'s control flow around each service's key function.
- The clock enters as an integer `now` in seconds.
- The denylist is a read-only set of keys, or an unreachable store.
- The database, bcrypt, UUID parsing and the services the frontend calls
  enter as their outcomes.

The request context (`gin.Context`) is a class whose methods update its
fields in place. The gatekeepers' `Serve` methods apply a verdict to it.

Files:

- `values.dfy`: Option, Result, JSON values, claims.
- `strings.dfy`: Go's `TrimSpace`, `TrimPrefix` and `Contains` over
  `unicode.IsSpace`.
- `gin.dfy`: responses and the request context.
- `jwt.dfy`: the token library and `Parse`.
- `header.dfy`: the bearer extraction.
- `auth_gatekeeper.dfy`, `task_gatekeeper.dfy`: the two gatekeepers.
- `auth_handlers.dfy`: the handlers and the issuer.
- `service_reply.dfy`: the frontend's service replies and its
  `error || fallback` rule.
- `task_store.dfy`, `auth_store.dfy`: the two frontend stores.

## Model

| member | source | states |
|---|---|---|
| Strings.IsSpace | auth-service/middleware/auth.go:38-39 | below U+0100, exactly tab, line feed, vertical tab, form feed, carriage return, space, NEL and no-break space are white space; above it only U+1680 and characters from U+2000 to U+3000 can be |
| Strings.TrimLeftSpace | auth-service/middleware/auth.go:38-39 | the result is a suffix of the input; everything dropped is white space (Go's `unicode.IsSpace` set); the result is empty or starts with a non-space |
| Strings.TrimRightSpace | auth-service/middleware/auth.go:38-39 | the result is a prefix of the input; everything dropped is white space; the result is empty or ends with a non-space |
| Strings.TrimSpace | auth-service/middleware/auth.go:38-39 | the result is the slice `s[i..j]` of the input with only white space before `i` and after `j`, and neither end of the result is white space |
| Strings.TrimPrefix | auth-service/middleware/auth.go:38 | when the prefix starts the string, prefix + result is the string; otherwise the string comes back unchanged |
| Strings.Contains | auth-service/handlers/auth.go:58-60 | a string contains each of its prefixes, itself included, and never contains anything longer than itself |
| Strings.TrimSpaceIdempotent | auth-service/middleware/auth.go:38-39 | trimming twice is trimming once, which is why the second `TrimSpace` never changes anything |
| Strings.TrimLeftSpacePrefix | auth-service/middleware/auth.go:38-39 | a run of white space in front of a token that starts with a non-space is removed exactly |
| Strings.TrimSpaceEmptyIff | auth-service/middleware/auth.go:41 | trimming gives the empty string exactly when the input is all white space |
| Gin.Failure | auth-service/middleware/auth.go:28-32 | an error response carries the status, the message and the status again as `code`, with `success` false |
| Gin.Context.Set | auth-service/middleware/auth.go:187-189 | the key maps to the value; nothing else in the context changes |
| Gin.Context.Json | auth-service/middleware/auth.go:28-32 | the response is written; keys and flags are unchanged |
| Gin.Context.Abort | auth-service/middleware/auth.go:33 | the chain is marked aborted; nothing else changes |
| Gin.Context.constructor | auth-service/middleware/auth.go:25 | a request starts with nothing written, no key set, not aborted, not proceeding |
| Gin.Context.Get | auth-service/handlers/auth.go:217 | a value comes back exactly when the key was set, and it is the value stored |
| Gin.Context.Panic | auth-service/middleware/auth.go:82 | the panic is recorded; nothing else changes |
| Gin.Context.Next | auth-service/middleware/auth.go:190 | the chain is marked as proceeding; nothing else changes |
| Jwt.IsHmac | auth-service/middleware/auth.go:77 | the HMAC family is exactly HS256, HS384 and HS512; the unsigned method `none` is not in it |
| Jwt.Parse | auth-service/middleware/auth.go:75-105 | the token is valid exactly when it decodes, the key function gives a key for its signing method, and the library verifies the token under that key at the given clock reading; a valid token yields the decoded claims; a panic occurs exactly when the key function panics |
| BearerHeader.ExtractToken | auth-service/middleware/auth.go:38-39 | the token has no white space at either end and is no longer than the header |
| BearerHeader.ReadCredential | auth-service/middleware/auth.go:26-49 | an empty header gives 401 "Authorization header is required"; a header that yields no token gives 401 "Invalid Authorization header format"; otherwise the extracted token comes back |
| BearerHeader.ExtractAfterScheme | auth-service/middleware/auth.go:38-39 | "Bearer", then any run of white space, then a trimmed token extracts to exactly that token |
| BearerHeader.ExtractFromBearerHeader | frontend/src/services/api.ts:19 | the header the frontend builds, `Bearer ${token}`, extracts to the token it was built from and passes both guard clauses |
| BearerHeader.ExtractWithoutScheme | auth-service/middleware/auth.go:38-39 | a header without the case-sensitive scheme is taken whole, once trimmed |
| BearerHeader.ExtractEmptyIff | auth-service/middleware/auth.go:38-49 | no token is found exactly when the header is all white space, or is "Bearer" followed only by white space |
| BearerHeader.LowerCaseSchemeIsKept | auth-service/middleware/auth.go:38 | `bearer abc` is not recognised as the scheme; the whole header becomes the token |
| AuthGatekeeper.Exists | auth-service/middleware/auth.go:54-65 | EXISTS succeeds exactly when the store is reachable, and answers 1 exactly when the key is present |
| AuthGatekeeper.DenylistKey | auth-service/middleware/auth.go:53 | the denylist key is "blacklist:" followed by the exact token string |
| AuthGatekeeper.KeyFor | auth-service/middleware/auth.go:75-85 | a key is handed out exactly for HMAC methods with a configured secret; a missing secret with an HMAC method is a panic; other methods get "signature is invalid" |
| AuthGatekeeper.FirstFailure | auth-service/middleware/auth.go:118-184 | nothing is reported exactly when every check passes; otherwise the message reported is that of a failing check before which every check passes |
| AuthGatekeeper.CheckClaims | auth-service/middleware/auth.go:118-190 | admits exactly the admissible claims (`user_id` present, `role` a string, `exp` a number, `now <= exp`), as `user_id`, `role` and the token; every rejection is 401; it never panics |
| AuthGatekeeper.Gatekeep | auth-service/middleware/auth.go:25-190 | an empty header gives 401 "Authorization header is required"; the only statuses the middleware itself writes are 401 and 500, and it writes 500 exactly when the store is unreachable; an admitted token is the extracted one and is not on the denylist; the middleware panics, writing nothing, exactly when an HMAC token that is not on the denylist meets an empty secret |
| AuthGatekeeper.Serve | auth-service/middleware/auth.go:25-190 | a rejection writes the response and aborts with no key set; an admission sets exactly `userID`, `role` and `token` and proceeds; a panic records only its message and writes nothing |
| AuthGatekeeper.AdmitIff | auth-service/middleware/auth.go:25-190 | admission happens exactly when the header yields a token, the store is reachable and does not list it, the token is HMAC-signed and is accepted by the library under a non-empty secret at the clock reading, and its claims are admissible |
| AuthGatekeeper.ReachesClaimChecks | auth-service/middleware/auth.go:75-117 | a present, unlisted, HMAC-signed token that verifies is decided by its claims alone |
| AuthGatekeeper.RevokedBeforeParsing | auth-service/middleware/auth.go:51-73 | a listed token gets 401 "Token has been revoked" whatever the library would say about it |
| AuthGatekeeper.StoreErrorIsInternal | auth-service/middleware/auth.go:54-63 | an unreachable store gives 500 "Internal server error" for any token |
| AuthGatekeeper.NonHmacRejected | auth-service/middleware/auth.go:77-79 | a token signed with a non-HMAC method gets 401 "Invalid token" |
| AuthGatekeeper.ParseFailureRejected | auth-service/middleware/auth.go:87-105 | a token that fails to decode or to verify gets 401 "Invalid token" |
| AuthGatekeeper.MissingSecretPanics | auth-service/middleware/auth.go:80-83 | with no secret configured, an HMAC token that reaches the parser makes the middleware panic before it writes any response |
| AuthGatekeeper.FirstFailedCheckDecides | auth-service/middleware/auth.go:118-184 | the claim checks run in the order `user_id` present, `role` present, `role` a string, `exp` present, `exp` a number, not expired; the first one that fails decides the message |
| AuthGatekeeper.ClaimChecksReport | auth-service/middleware/auth.go:118-184 | running the ordered check list reports the same message as the code's chain of guard clauses, and nothing when every guard passes |
| AuthGatekeeper.UserIdTypeUnchecked | auth-service/middleware/auth.go:118-127 | any JSON value of `user_id` is admitted and passed on as it is |
| AuthGatekeeper.ExpiryBoundary | auth-service/middleware/auth.go:175-184 | with otherwise well-formed claims, the token is rejected as expired exactly when `now > exp` |
| AuthGatekeeper.AdmittedAtExpiryInstant | auth-service/middleware/auth.go:176 | a token whose `exp` equals the current second passes the middleware's own expiry test |
| TaskGatekeeper.KeyFor | task-service/middleware/auth.go:40-49 | it never panics; HMAC methods get the configured secret, or the built-in default when none is configured |
| TaskGatekeeper.CheckClaims | task-service/middleware/auth.go:72-119 | admits exactly claims with a string `user_id` and a string `role`, as those strings; every rejection is 401 |
| TaskGatekeeper.FirstFailedCheckDecides | task-service/middleware/auth.go:72-115 | the claim checks run in the order `user_id` present, `user_id` a string, `role` present, `role` a string; the first that fails decides the 401 message ("user_id not found in token", "Invalid user_id format in token", "role not found in token", "Invalid role format in token"); when none fails the claims are admitted |
| TaskGatekeeper.Gatekeep | task-service/middleware/auth.go:13-120 | an empty header gives 401 "Authorization header is required"; every rejection is 401; admission happens exactly when the token is HMAC-signed, the library accepts it under the effective secret at the clock reading, and its claims are admissible |
| TaskGatekeeper.Serve | task-service/middleware/auth.go:13-120 | a rejection writes and aborts; an admission sets exactly `userID` and `role` (no `token`) and proceeds |
| TaskGatekeeper.ReachesClaimChecks | task-service/middleware/auth.go:40-70 | an HMAC-signed token that verifies is decided by its claims alone |
| TaskGatekeeper.ParseFailureMessage | task-service/middleware/auth.go:40-58 | every failure of the library is 401 "Invalid token: " followed by the library's text: the decoding error, "signature is invalid" for a token not signed with HMAC, or the verification error under the effective secret |
| TaskGatekeeper.DefaultSecretFallback | task-service/middleware/auth.go:44-47 | with no secret configured, the verdict is the one reached with the default secret configured explicitly, while the authentication service's gatekeeper panics on the same token |
| TaskGatekeeper.SameCredentialGuards | task-service/middleware/auth.go:14-37 | the missing-header and no-token rejections are identical in both services |
| TaskGatekeeper.RevocationIgnored | task-service/middleware/auth.go:39-59 | a token on the denylist is refused by the authentication service and still admitted here |
| TaskGatekeeper.ExpiryIgnored | task-service/middleware/auth.go:61-119 | a token past its `exp` that the library still accepts at that moment is refused as expired by the authentication service and admitted here |
| TaskGatekeeper.AuthAdmissionCarriesOver | task-service/middleware/auth.go:83-92 | whatever the authentication service admits with a string `user_id` is admitted here as the same principal and role; a non-string `user_id` it admits is refused here with "Invalid user_id format in token" |
| AuthHandlers.IssuedClaims | auth-service/handlers/auth.go:296-301 | the issued claims are exactly `user_id`, `exp` and `iat`, with `iat = now` and `exp = iat + 24h` |
| AuthHandlers.GenerateToken | auth-service/handlers/auth.go:296-304 | the token is the library's HS256 signature, under the secret, of a claim set holding exactly `user_id`, `exp` and `iat`, with `exp` 24 hours after the clock reading |
| AuthHandlers.IssuedClaimsHaveNoRole | auth-service/handlers/auth.go:297-301 | the issued claims have no `role`, so neither gatekeeper finds them admissible |
| AuthHandlers.IssuedTokenRejected | auth-service/handlers/auth.go:296-304 | with `JWT_SECRET` configured, a token issued by the service and presented as `Bearer <token>` is refused by the authentication service's gatekeeper with "role not found in token", at every later clock reading at which the library accepts it |
| AuthHandlers.IssuedTokenRejectedByTaskService | auth-service/handlers/auth.go:296-304 | the same token is refused by the task service's gatekeeper with "role not found in token" |
| AuthHandlers.IssuedClaimsWithRole | auth-service/handlers/auth.go:297-301 | the issued claims plus a string `role`, with every issued claim unchanged |
| AuthHandlers.GenerateTokenWithRole | auth-service/handlers/auth.go:296-304 | the corrected issuer signs with HS256, under the secret, the issued claims plus a string `role` |
| AuthHandlers.IssueThenVerify | auth-service/handlers/auth.go:296-304 | once `role` is issued, at any later clock reading at which the library accepts the token, the authentication service's gatekeeper admits it as the same user and role up to and including `iat + 24h` and refuses it as expired after that, and the task service's gatekeeper admits it |
| AuthHandlers.BindErrorMessage | auth-service/handlers/auth.go:56-62 | an error text mentioning `email` gives "Invalid email format"; otherwise one mentioning `password` gives the password message; otherwise "Invalid request data" |
| AuthHandlers.CreateFailure | auth-service/handlers/auth.go:110-127 | a failed insert is 400 "User with this email already exists" exactly when the error mentions "duplicate key" or "unique constraint", and 500 "Could not create user account" otherwise |
| AuthHandlers.Register | auth-service/handlers/auth.go:54-151 | 201 occurs exactly when binding, lookup (not found), hashing, insert and signing all succeed, and carries the token, the new id and the e-mail; a bad body is 400 with the bind message; an existing e-mail is 400; a lookup error is 500 "Database error"; a hashing error is 500 "Could not process password"; a failed insert gets the `CreateFailure` response; a signing error is 500 "Could not generate authentication token" |
| AuthHandlers.DuplicateEmailReportedAlike | auth-service/handlers/auth.go:75-82 | a taken e-mail gets the same 400 response whether the lookup finds it or the insert hits the unique index |
| AuthHandlers.Login | auth-service/handlers/auth.go:153-206 | 200 occurs exactly when binding, lookup, password check and signing all succeed, and carries the token, the stored id and the e-mail; a bad body is 400 "Invalid request data"; an unknown e-mail, a failed lookup or a wrong password is 400 "Invalid credentials"; a signing failure is 500 "Could not generate token"; no other status than 200, 400 or 500 occurs |
| AuthHandlers.UnknownEmailLooksLikeWrongPassword | auth-service/handlers/auth.go:164-183 | an unknown e-mail, a failing lookup and a wrong password get the identical 400 "Invalid credentials" |
| AuthHandlers.Logout | auth-service/handlers/auth.go:208-213 | logout answers 200 "Successfully logged out" and leaves the denylist as it was |
| AuthHandlers.LogoutRevokesNothing | auth-service/handlers/auth.go:208-213 | every request gets the same gatekeeper verdict after a logout as before it, so a token admitted before logging out is still admitted |
| AuthHandlers.RefreshToken | auth-service/handlers/auth.go:215-268 | a missing `userID` is 401 "User not authenticated"; a non-string one is 401 "Invalid user ID format"; an unparsable one is 401 "Invalid user ID"; 200 occurs exactly when it parses and signing succeeds, and carries the new token, the id and an empty e-mail; a signing failure is 500 "Could not generate token"; no other status than 200, 401 or 500 occurs |
| AuthHandlers.ServeRefresh | auth-service/handlers/auth.go:215-268 | the `userID` the request context holds decides the response as `RefreshToken` states; that response is written, and the keys and flags are kept |
| AuthHandlers.RefreshBehindGatekeeper | auth-service/handlers/auth.go:217-236 | the `userID` that refresh reads is the raw `user_id` claim, and a non-string one, which the gatekeeper admits, is refused here |
| ServiceReply.ErrorText | frontend/src/contexts/TaskContext.tsx:81 | a non-empty service error is used as it is; an absent or empty one falls back; with a non-empty fallback the result is never empty |
| ServiceReply.ReplyError | frontend/src/contexts/TaskContext.tsx:81-86 | the service's error text is the body's `error` for an answered call and the thrown error's `response.data.error` otherwise |
| ServiceReply.Delivered | frontend/src/contexts/TaskContext.tsx:78 | a thrown call is never delivered; a delivered reply has `success` set and carries data |
| TaskStore.TaskReducer | frontend/src/contexts/TaskContext.tsx:23-56 | each field changes only under the actions about it: the list under `TASKS_SUCCESS`, `TASK_CREATE`, `TASK_UPDATE` and `TASK_DELETE`; `loading` under the fetch cycle; `error` under `TASKS_LOADING`, `TASKS_ERROR` and `CLEAR_ERROR`; the current task under `TASK_SUCCESS`, `TASK_UPDATE`, `TASK_DELETE` and `CLEAR_CURRENT_TASK` |
| TaskStore.ReplaceById | frontend/src/contexts/TaskContext.tsx:38-40 | the length and every id are kept; each task with the payload's id becomes the payload; every other task is unchanged |
| TaskStore.RemoveById | frontend/src/contexts/TaskContext.tsx:46 | every task with the id is removed and every other task is kept as many times as it occurred; nothing new appears |
| TaskStore.RemoveByIdIdempotent | frontend/src/contexts/TaskContext.tsx:46 | filtering out an id twice is filtering it once |
| TaskStore.RemoveByIdAppend | frontend/src/contexts/TaskContext.tsx:46 | filtering distributes over concatenation, so the survivors keep their order |
| TaskStore.RemoveByIdAbsent | frontend/src/contexts/TaskContext.tsx:46 | a list with no task of that id is left as it is |
| TaskStore.RemoveByIdKeepsUniqueIds | frontend/src/contexts/TaskContext.tsx:46 | distinct ids stay distinct after a delete |
| TaskStore.ReplaceByIdIdempotent | frontend/src/contexts/TaskContext.tsx:38-40 | replacing by the same task twice is replacing once |
| TaskStore.ReplaceByIdKeepsUniqueIds | frontend/src/contexts/TaskContext.tsx:38-40 | distinct ids stay distinct after an update |
| TaskStore.LoadingStarts | frontend/src/contexts/TaskContext.tsx:25-26 | `TASKS_LOADING` sets `loading` and clears `error`; the list and the current task are kept |
| TaskStore.ErrorSettles | frontend/src/contexts/TaskContext.tsx:31-32 | `TASKS_ERROR` clears `loading` and sets `error`; the list and the current task are kept |
| TaskStore.CreateAppends | frontend/src/contexts/TaskContext.tsx:33-34 | `TASK_CREATE` grows the list by one at the end, with the old list as a prefix; `loading`, `error` and the current task are kept |
| TaskStore.UpdateReplaces | frontend/src/contexts/TaskContext.tsx:35-42 | `TASK_UPDATE` keeps length and order, replaces exactly the tasks with the payload's id, and makes the payload current even when no id matched |
| TaskStore.DeleteRemoves | frontend/src/contexts/TaskContext.tsx:43-48 | `TASK_DELETE` clears the current task exactly when its id matches, otherwise keeps it; a task remains exactly when it was there and has another id |
| TaskStore.DeleteIdempotent | frontend/src/contexts/TaskContext.tsx:43-48 | deleting the same id twice is deleting it once |
| TaskStore.ClearingIsIdempotent | frontend/src/contexts/TaskContext.tsx:49-52 | `CLEAR_ERROR` and `CLEAR_CURRENT_TASK` each reset only their own field and are idempotent |
| TaskStore.ReducerKeepsUniqueIds | frontend/src/contexts/TaskContext.tsx:23-56 | distinct ids survive every action, except a fetched list that holds duplicates and a created task whose id is already listed |
| TaskStore.Run | frontend/src/contexts/TaskContext.tsx:72 | dispatching a sequence of actions none of which is a list action leaves the list as it was |
| TaskStore.RunAppend | frontend/src/contexts/TaskContext.tsx:72 | dispatching two sequences one after the other is dispatching their concatenation |
| TaskStore.RunTwo | frontend/src/contexts/TaskContext.tsx:72 | dispatching a two-action sequence applies the reducer twice, in order |
| TaskStore.Settle | frontend/src/contexts/TaskContext.tsx:76-88 | a delivered reply gives the operation's success action on its data; anything else gives `TASKS_ERROR` with the service's text or the operation's fallback |
| TaskStore.FetchTasksSteps | frontend/src/contexts/TaskContext.tsx:74-89 | `TASKS_LOADING`, then `TASKS_SUCCESS` exactly when the list was delivered |
| TaskStore.FetchTaskSteps | frontend/src/contexts/TaskContext.tsx:91-106 | `TASKS_LOADING`, then `TASK_SUCCESS` exactly when the task was delivered |
| TaskStore.CreateTaskSteps | frontend/src/contexts/TaskContext.tsx:108-123 | `TASKS_LOADING`, then `TASK_CREATE` exactly when the new task was delivered |
| TaskStore.UpdateTaskSteps | frontend/src/contexts/TaskContext.tsx:125-140 | `TASKS_LOADING`, then `TASK_UPDATE` exactly when the updated task was delivered |
| TaskStore.DeleteTaskSteps | frontend/src/contexts/TaskContext.tsx:142-157 | `TASKS_LOADING`, then `TASK_DELETE` of the id exactly when the reply says `success` |
| TaskStore.UpdateTaskStatusSteps | frontend/src/contexts/TaskContext.tsx:159-173 | a single action, never `TASKS_LOADING`: `TASK_UPDATE` exactly when the task was delivered |
| TaskStore.FetchTasksDelivered | frontend/src/contexts/TaskContext.tsx:74-79 | a delivered list replaces the list and settles with no error; the current task is kept |
| TaskStore.FetchTaskDelivered | frontend/src/contexts/TaskContext.tsx:91-96 | a delivered task becomes current and settles with no error; the list is kept |
| TaskStore.CreateLeavesLoading | frontend/src/contexts/TaskContext.tsx:108-123 | after a successful create, `loading` stays true with no error, the task is appended and the current task is kept |
| TaskStore.UpdateLeavesLoading | frontend/src/contexts/TaskContext.tsx:125-140 | after a successful update, `loading` stays true with no error, the task replaces those with its id and becomes current |
| TaskStore.DeleteLeavesLoading | frontend/src/contexts/TaskContext.tsx:142-157 | after a successful delete, `loading` stays true with no error, every task with the id is filtered out, and the current task is cleared exactly when its id is the deleted one |
| TaskStore.FailuresSettle | frontend/src/contexts/TaskContext.tsx:74-157 | every failed fetch, create, update or delete ends with `loading` false and the error set to the service's text or the operation's fallback; the list and the current task are kept |
| TaskStore.StatusChangeKeepsStaleError | frontend/src/contexts/TaskContext.tsx:159-173 | a successful status change dispatches no loading step: it keeps the old `loading` and any stale error while updating the task |
| TaskStore.TaskProvider.constructor | frontend/src/contexts/TaskContext.tsx:16-21 | the provider starts from the empty initial state |
| TaskStore.TaskProvider.Dispatch | frontend/src/contexts/TaskContext.tsx:72 | the state becomes the reducer applied to the old state |
| TaskStore.TaskProvider.FetchTasks | frontend/src/contexts/TaskContext.tsx:74-89 | the new state is the old one run through `TASKS_LOADING` and then the settling action |
| TaskStore.TaskProvider.FetchTask | frontend/src/contexts/TaskContext.tsx:91-106 | as above, with `TASK_SUCCESS` on success |
| TaskStore.TaskProvider.CreateTask | frontend/src/contexts/TaskContext.tsx:108-123 | as above, with `TASK_CREATE` on success |
| TaskStore.TaskProvider.UpdateTask | frontend/src/contexts/TaskContext.tsx:125-140 | as above, with `TASK_UPDATE` on success |
| TaskStore.TaskProvider.DeleteTask | frontend/src/contexts/TaskContext.tsx:142-157 | as above, with `TASK_DELETE` when `success` alone is set |
| TaskStore.TaskProvider.UpdateTaskStatus | frontend/src/contexts/TaskContext.tsx:159-173 | the new state is the old one run through the settling action only |
| TaskStore.TaskProvider.ClearError | frontend/src/contexts/TaskContext.tsx:175-177 | only the error is cleared |
| TaskStore.TaskProvider.ClearCurrentTask | frontend/src/contexts/TaskContext.tsx:179-181 | only the current task is cleared |
| AuthStore.InitialState | frontend/src/contexts/AuthContext.tsx:13-19 | the stored token is kept; the user is signed in exactly when that token is present and non-empty; no user, not loading, no error |
| AuthStore.AuthReducer | frontend/src/contexts/AuthContext.tsx:21-43 | only `AUTH_SUCCESS` signs in, only `AUTH_START` starts loading, and only `AUTH_SUCCESS` and `LOGOUT` replace the token or the user |
| AuthStore.Run | frontend/src/contexts/AuthContext.tsx:55 | a sequence of actions that ends with `LOGOUT` ends in the signed-out state, whatever came before |
| AuthStore.InitialStateInv | frontend/src/contexts/AuthContext.tsx:15-16 | the load-time state satisfies `isAuthenticated ⇒ token ≠ null` |
| AuthStore.ReducerKeepsInv | frontend/src/contexts/AuthContext.tsx:21-43 | every action preserves `isAuthenticated ⇒ token ≠ null` |
| AuthStore.RunKeepsInv | frontend/src/contexts/AuthContext.tsx:21-43 | every sequence of actions preserves it |
| AuthStore.LogoutIsConstant | frontend/src/contexts/AuthContext.tsx:36-37 | `LOGOUT` yields the same signed-out state from any prior state and any load-time token, and is idempotent |
| AuthStore.StartLoads | frontend/src/contexts/AuthContext.tsx:23-24 | `AUTH_START` sets `loading` and clears `error`; user, token and the signed-in flag are kept |
| AuthStore.SuccessSignsIn | frontend/src/contexts/AuthContext.tsx:25-33 | `AUTH_SUCCESS` signs in with the payload's user and token, not loading, no error |
| AuthStore.FailureKeepsStaleToken | frontend/src/contexts/AuthContext.tsx:34-35 | `AUTH_FAILURE` signs out and records the message, but keeps the user and token |
| AuthStore.TokenWithoutSignIn | frontend/src/contexts/AuthContext.tsx:34-35 | the invariant has no converse: loading with a stored token and then failing to sign in leaves the token but no sign-in |
| AuthStore.RunTwo | frontend/src/contexts/AuthContext.tsx:55 | dispatching a two-action sequence applies the reducer twice, in order |
| AuthStore.UserOf | frontend/src/contexts/AuthContext.tsx:80-84 | the stored user is `{id: user_id, email, role}` of the reply |
| AuthStore.SignInSteps | frontend/src/contexts/AuthContext.tsx:75-131 | `AUTH_START`, then `AUTH_SUCCESS` exactly when the reply was delivered, otherwise `AUTH_FAILURE` with the service's text or the operation's fallback |
| AuthStore.SignInOutcome | frontend/src/contexts/AuthContext.tsx:75-131 | a delivered reply signs in as its user with its token; anything else signs out, keeps user and token, and records the service's message or the fallback |
| AuthStore.AuthProvider.constructor | frontend/src/contexts/AuthContext.tsx:13-19 | the state is read from the stored token, and the invariant holds |
| AuthStore.AuthProvider.Dispatch | frontend/src/contexts/AuthContext.tsx:55 | the state becomes the reducer applied to the old state; storage is untouched; the invariant is kept |
| AuthStore.AuthProvider.RestoreSession | frontend/src/contexts/AuthContext.tsx:57-73 | with a stored token and user, a parsable user restores the session and an unparsable one clears both entries; otherwise nothing changes |
| AuthStore.AuthProvider.SignIn | frontend/src/contexts/AuthContext.tsx:75-131 | the state follows `AUTH_START` and the settling action; on success the reply's token and user are stored, otherwise storage is untouched |
| AuthStore.AuthProvider.Login | frontend/src/contexts/AuthContext.tsx:75-102 | as above, with the fallback "Login failed" |
| AuthStore.AuthProvider.Register | frontend/src/contexts/AuthContext.tsx:104-131 | as above, with the fallback "Registration failed" |
| AuthStore.AuthProvider.Logout | frontend/src/contexts/AuthContext.tsx:133-143 | whether the service call fails or not, both storage entries are removed and the state is the signed-out state |
| AuthStore.AuthProvider.ClearError | frontend/src/contexts/AuthContext.tsx:145-147 | only the error is cleared; storage is untouched |

## Left out

- Cryptography and identifiers are opaque. This covers:
  - HMAC signing and verification (section 3.2 of RFC 7518);
  - the token library's own validation, including its own `exp` check;
  - bcrypt;
  - `uuid.Parse` and the database-assigned `uuid.New`.

  They enter as functions in `Jwt.Library` or as outcome parameters. The
  library's verification takes the clock reading, but what it checks at
  that reading is not modelled.
- AuthHandlers.IssueThenVerify: stated for clock readings at which the
  library accepts the token. The library version in use refuses a token
  past its `exp` itself, before either gatekeeper's own test (and
  `AuthGatekeeper.ExpiryBoundary`) is reached; the model leaves that
  refusal, and its text, to the library's opaque verification.
- TaskGatekeeper.ExpiryIgnored: likewise stated for a reading at which the
  library accepts the token, so it shows only that this gatekeeper has no
  expiry test of its own.
- AuthHandlers.IssuedTokenRejected: likewise stated for readings at which
  the library accepts the token; at other readings the library's own
  refusal comes first.
- Strings are sequences of Unicode characters. Go's strings are byte
  strings, so a header, token or error text holding invalid UTF-8 cannot
  be represented, and how `TrimSpace` treats such bytes is not modelled.
- The `exp` claim arrives as a float and is truncated to whole seconds.
  The model takes `exp` as integer seconds, so the truncation is not
  modelled.
- The issuer reads the clock twice, once for `exp` and once for `iat`. The
  model uses one reading `now`.
- The "Invalid token claims" branches (auth-service/middleware/auth.go:107-116,
  task-service/middleware/auth.go:61-70) are not modelled. This version of
  the library always yields map claims, so these branches are unreachable.
- `err.Error()` on a nil error (task-service/middleware/auth.go:54) is not
  modelled. In this library version a nil error and `token.Valid`
  coincide, so that path is unreachable and `Jwt.Parse` has no separate
  "parsed but not valid" case.
- No operation anywhere writes the denylist. It is a read-only input, and
  no revoke operation is modelled.
- `HealthCheck` is left out. So is the process wiring in both `main.go`
  files: routing, CORS, the server goroutine and graceful shutdown.
- The database and Redis connection retry loops and the migrations are
  left out.
- Logging, metrics and expvar are left out.
- Validator registration is left out. Binding validation enters as its
  outcome: a bound request, or the validator's error text.
- The task-service handler stubs and the GORM model declarations are left
  out.
- All React components and pages are left out. So are the axios clients
  and their 401 interceptor; the service calls' answers are parameters.
- The frontend's `types/auth.ts` is not part of this model. The reply
  shape `{token, user_id, email, role}` is the one `AuthContext.tsx`
  reads. `role` is optional because the service's replies carry none.
- AuthStore.AuthProvider.RestoreSession: text under `user` that parses as
  JSON but is not a user object is not distinguished. Stored text is
  either a user written by `JSON.stringify`, or text that fails to parse.
- A panic is turned into a 500 response with no body by the recovery
  handler that `gin.Default()` installs in both services; that handler is
  not modelled, so the model stops at the panic (`Gin.Context.Panic`).
- The asynchrony of the provider callbacks is left out. Each callback runs
  to completion with the service's answer given, and interleavings of
  concurrent callbacks are not modelled.

## Findings

| source | as written | input that shows it | evidently intended | confidence | as-written member | corrected member |
|---|---|---|---|---|---|---|
| auth-service/handlers/auth.go:296-304 | `generateToken` signs only `user_id`, `exp` and `iat`, but both gatekeepers require a string `role` claim (auth-service/middleware/auth.go:130-139, task-service/middleware/auth.go:95-104) | with `JWT_SECRET` configured, any token issued by register, login or refresh, sent back as `Bearer <token>` with a reachable store that does not list it, is answered 401 "role not found in token" | the issuer emits a `role` claim, so that its own tokens are admitted until `iat + 24h` | not executed | AuthHandlers.IssuedTokenRejected | AuthHandlers.IssueThenVerify |
