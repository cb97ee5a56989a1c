# Health-facility backend: authentication and authorization core in Dafny

This project models the authentication and authorization core of a
health-facility management backend (states, districts, facilities,
departments and health-data records behind role-gated CRUD endpoints):

- **Token service** (`src/functions/auth.js`). Login looks up an active,
  not deleted user by email and checks the password. Login and refresh mint
  an access/refresh token pair and overwrite the user's single stored refresh
  token. A refresh is accepted only when the presented token equals the
  stored one, so a rotated-out token is revoked. The spec functions `Issue`,
  `Login` and `Refresh` give each request's response, store and token counter.
  The class `TokenService` holds the shared `User` collection and a counter
  that makes every minted token fresh; its methods are proved equal to those
  functions. The module `Sessions` replays arbitrary request sequences and
  proves that a revoked refresh token stays revoked.
- **User controller** (`src/controllers/userController.js`). The role
  `switch` is proved to give exactly the roles ranked strictly below the
  actor's, against the rank order SuperAdmin > DistrictAdmin > FacilityAdmin >
  DepartmentUser. The listing returns exactly the active, not deleted users
  ranked below the requester. `getUserById` is a pure read. `updateUser` is a
  partial update and `deleteUser` a soft delete, both methods over the
  `UserCollection` class (a `map` from id to user record) with their frame
  conditions.
- **Lifecycle guard** (`src/middlewares/checkStatusMiddleware.js`). A
  function from the id-format answer and the lookup answer to a result: 400
  for a malformed id, 404 for a missing document, 403 "not active", 403
  "deleted", in that order. Otherwise the document is passed on.

Collaborators that cannot be seen are parameters: the id format checks
(`isValidObjectId`, `ObjectId.isValid`), the password check
(`isPasswordCorrect`) and refresh-token verification (signature and expiry,
`verify`). Minted tokens are values `RefreshToken(subject, serial)` and
`AccessToken(subject, role, serial)`, where the serial comes from the
service's counter. Errors are `ApiError(statusCode, message)` values inside a
`Result`, not exceptions.

The model follows the code where it departs from what a reader would
expect of it:

- `getAllUsers` answers 500 for a lowest-ranked or unknown requester. The
  403 and 404 raised inside its `try` are replaced by its `catch`, where a
  403 for the refusal would be expected. See Findings.
- Login with an unknown email, or for an inactive or deleted user, answers
  400 "User not found", not a 401.
- A document with `isActive` missing from its schema is refused as "not
  active", because JavaScript treats `undefined` as false
  (`CheckStatus.UndeclaredActiveFlagRefused`). None of the state, district,
  facility, department and health-data schemas declares the flag. See Findings.

Files: `common.dfy` (shared types and the rank order), `user_store.dfy` (the
user record and collection), `user_controller.dfy`, `auth.dfy`,
`sessions.dfy` (request traces) and `check_status.dfy`.

## Model

| member | source | states |
|---|---|---|
| `UserStore.UserCollection.FindById` | src/controllers/userController.js:72 | `findById` returns the record stored at the id, or nothing exactly when the id is not in the store; the same lookup serves userController.js:16, auth.js:10 and auth.js:77 |
| `UserStore.UserCollection.Find` | src/controllers/userController.js:44-48 | `find` returns every record matching the role set and both flag equalities, and only those, unchanged |
| `UserStore.UserCollection.FindOne` | src/functions/auth.js:36 | the login lookup returns some record with that email that is active and not deleted, or nothing exactly when none exists |
| `UserStore.UserCollection.FindByIdAndUpdate` | src/controllers/userController.js:104-106 | applies the update document to the record at the id and returns the updated record; an unknown id returns nothing and leaves the store unchanged |
| `UserStore.UserCollection.SaveRefreshToken` | src/functions/auth.js:14-15 | overwrites only the given user's refresh token; nothing else in the store changes |
| `UserController.RoleFilter` | src/controllers/userController.js:24-41 | the role filter is exactly the set of roles ranked strictly below the actor (so it never contains the actor's role or a higher one), and the `default` refusal happens exactly when that set is empty (DepartmentUser) |
| `UserController.ListUsers` | src/controllers/userController.js:14-53 | the `try` body: an unknown requester gets 404, a requester with nothing below it gets 403; otherwise the result holds exactly the users that are active, not deleted and ranked below the requester, as stored |
| `UserController.GetAllUsers` | src/controllers/userController.js:13-58 | the handler as written: every failure is the 500 "An error occurred while fetching users"; success exactly when the requester exists and its role has some role ranked below it; the listed users are exactly the visible ones |
| `UserController.GetAllUsersMasksRefusals` | src/controllers/userController.js:17-19 | for an unknown or DepartmentUser requester, the `try` body raises 404 or 403, but the handler answers 500 (the error is never an empty list) |
| `UserController.GetUserById` | src/controllers/userController.js:63-83 | a malformed id gives 400 before any lookup; an unknown id gives 404; otherwise the stored record is returned whatever its lifecycle flags |
| `UserController.UpdatePatch` | src/controllers/userController.js:98-101 | `updateData` holds `fullName`, `email` and `mobileNumber` exactly when each is supplied and non-empty, with the body's own value, and never touches `isDeleted` |
| `UserController.UpdateWritesOnlySuppliedFields` | src/controllers/userController.js:98-101 | the update writes `fullName`, `email` and `mobileNumber` exactly when each is truthy; role, password, refresh token, `isActive` and `isDeleted` keep their values |
| `UserController.UpdateUser` | src/controllers/userController.js:88-117 | malformed id: 400 and the store unchanged; otherwise only the addressed record gets the supplied fields; success exactly when the id resolves, returning the updated record; else 404 |
| `UserController.DeletePatchSetsOnlyDeleted` | src/controllers/userController.js:133 | the soft-delete update document `{ isDeleted: true }` turns any record into the same record with `isDeleted` set and every other field kept |
| `UserController.SoftDeleteIdempotent` | src/controllers/userController.js:131-135 | a soft delete keeps every key, sets only `isDeleted`, and a second one changes nothing |
| `UserController.DeleteUser` | src/controllers/userController.js:122-145 | malformed id: 400 and the store unchanged; otherwise `isDeleted` is set on the record, which stays in the store; success exactly when the id resolves, else 404 |
| `UserController.DeleteUserTwice` | src/controllers/userController.js:131-139 | two soft deletes of a resolving id both succeed (the second is not a 404) and leave the record deleted |
| `Auth.Issue` | src/functions/auth.js:8-21 | token issuance returns a pair for the user and stores exactly the returned refresh token in that user's record; no other record changes; the new serial is fresh; an unknown user gives 500; the token invariant is preserved |
| `Auth.Login` | src/functions/auth.js:26-58 | a missing or empty email or password gives 400 before any lookup; no matching active, not deleted user gives 400 "User not found"; a wrong password gives 401; every failure leaves the store unchanged; success exactly when credentials are present, a user matches and the password is correct, and the new refresh token is then stored for that user |
| `Auth.Refresh` | src/functions/auth.js:63-101 | a missing token gives 401; a token failing verification gives the verification error as a 401, an unknown user 401 "Invalid refresh token", a token other than the stored one 401 "Refresh token is expired or used"; every failure is 401 and changes nothing; success exactly when the token verifies, its user exists and the stored token equals it; on success the stored token is replaced by the newly minted one |
| `Auth.RefreshTry` | src/functions/auth.js:71-97 | the `try` body, errors as raised: a token that fails verification raises the verification error; an unknown user raises 401 "Invalid refresh token"; a token other than the stored one raises 401 "Refresh token is expired or used"; a failure changes nothing; success exactly when the token verifies, its user exists and the stored token equals it, after which the user's slot holds the newly minted token |
| `Auth.As401` | src/functions/auth.js:98-99 | the refresh `catch` turns any error into a 401; a non-empty message is kept, an empty one becomes "Invalid refresh token"; an error that already is a 401 with a message passes unchanged |
| `Auth.RefreshRotates` | src/functions/auth.js:83-88 | after `refresh(R1)` yields R2, R2 differs from R1, a second `refresh(R1)` fails as used, and `refresh(R2)` succeeds whenever R2 verifies |
| `Auth.LoginRevokesEarlierToken` | src/functions/auth.js:14 | a successful login invalidates every refresh token issued to that user before it |
| `Auth.RefreshIgnoresLifecycle` | src/functions/auth.js:77-85 | refresh does not filter on `isActive`/`isDeleted`: an inactive or deleted user whose stored token matches can refresh, while no login lookup can find that user |
| `Auth.OneAcceptedTokenPerUser` | src/functions/auth.js:83 | at most one refresh token is accepted for a user at any time |
| `Auth.TokenService.GenerateAccessAndRefreshTokens` | src/functions/auth.js:8-21 | the method's response, store and counter are those of `Issue`; the token invariant is kept |
| `Auth.TokenService.LoginUser` | src/functions/auth.js:26-58 | the method's response, store and counter are those of `Login` for the record its lookup found |
| `Auth.TokenService.RefreshAccessToken` | src/functions/auth.js:63-101 | the method reads the token from the header, else the body, and its response, store and counter are those of `Refresh` |
| `Sessions.HandleKeepsRevoked` | src/functions/auth.js:83-85 | any single login, refresh, update or soft delete keeps the token invariant and keeps a revoked token revoked |
| `Sessions.RevokedStaysRevoked` | src/functions/auth.js:14 | after any sequence of requests, a revoked refresh token is still revoked and presenting it fails |
| `Sessions.UsedTokenNeverAcceptedAgain` | src/functions/auth.js:83-88 | a refresh token that was exchanged once is refused by every later refresh, whatever requests come in between |
| `CheckStatus.CheckActiveAndNotDeleted` | src/middlewares/checkStatusMiddleware.js:11-41 | the guard passes, handing on the stored document, exactly when the id is well formed, the document exists, is active and is not deleted; every other outcome is one of its four errors |
| `CheckStatus.MalformedIdSkipsLookup` | src/middlewares/checkStatusMiddleware.js:15-17 | a malformed id gives 400 whatever the lookup would answer |
| `CheckStatus.ErrorPrecedence` | src/middlewares/checkStatusMiddleware.js:15-34 | 400 exactly for a malformed id, 404 exactly for a missing document, "not active" whenever the document is inactive (even if it is also deleted), "deleted" exactly for an active, deleted document |
| `CheckStatus.UndeclaredActiveFlagRefused` | src/middlewares/checkStatusMiddleware.js:28-30 | a document without an `isActive` field is always refused as not active |
| `CheckStatus.WithFlagDefaults` | src/middlewares/checkStatusMiddleware.js:28-34 | a document read under a schema declaring `isActive` (default true) and `isDeleted` (default false): both flags are present, stored values are kept, other fields are unchanged |
| `CheckStatus.CheckWithDeclaredFlags` | src/middlewares/checkStatusMiddleware.js:11-41 | the guard over such documents passes exactly when the id is well formed, the document exists, its `isActive` is true or absent, and it is not deleted |
| `CheckStatus.DeclaredFlagsAdmitUnflaggedDocuments` | src/middlewares/checkStatusMiddleware.js:28-34 | once the flags are declared, a document that never stored them passes, and one that stores both is judged as by the guard as written |

## Left out

- Transport: JSON body parsing (a body that is not JSON would fail with 500), the response envelope and `console.error` logging. Responses are `Result` values.
- The `ApiResponse` envelope, including its arguments in reversed order at src/controllers/userController.js:53 (message where the data belongs and the reverse). The listing is modelled as the users it returns.
- `UserController.GetAllUsers`: the listing is a map from id to record, so the order in which `find` returns the users is not modelled.
- The Netlify `handler` router at src/functions/auth.js:104-116, including its routing of refresh to a `/register` path.
- The exception-to-500 wrapper `asyncHandler`. In src/functions/auth.js it is imported correctly, so every error `refreshAccessToken` throws (each of its 401s) and a 500 from token issuance reach the client as an HTTP 500 response carrying the error's message; login's 400 and 401 are returned, not thrown, and keep their status. The model gives the `ApiError` each handler raises, before that wrapper. In src/controllers/userController.js, src/controllers/facilityController.js and src/middlewares/checkStatusMiddleware.js (line 3, from a path without the `.js` extension) the default export is imported by name, which is not modelled either. At src/middlewares/checkStatusMiddleware.js:10 the wrapper encloses the factory itself, so as written `checkActiveAndNotDeleted(model)` yields a promise of the middleware rather than the middleware; the model is the middleware the factory builds.
- Signing and verification of tokens, and password hashing. Verification (signature and expiry) is the parameter `verify`, the password check is `isPasswordCorrect`, and minting is a fresh serial. That freshness is assumed: `generateRefreshToken` is a method of the user model, which is not part of this model, and a JWT over `{_id}` whose `iat` has one-second resolution could repeat for two mints within the same second, in which case rotation would not revoke the earlier token. The library's own verification message is not modelled; `TokenNotVerified` stands for it.
- src/models/userModel.js is not part of this model. Its schema rules (such as a unique email index rejecting an update) are not modelled.
- Id format checks are parameters. A malformed id given to `findById` in the refresh path is treated as not found; both give 401.
- `Auth.Login`: credentials are strings in the model, and so are the update fields of `UserController.UpdatePatch`. The source reads them from `JSON.parse(event.body)` and `req.body`, where they can be any JSON value; non-string values are not modelled. A truthy number or boolean passes the checks at src/functions/auth.js:29 and src/controllers/userController.js:99-101 and is cast when written. An operator object such as `{"$ne": null}` as the email is read by `findOne` at src/functions/auth.js:36 as a query selector, so the user found need not have the given email, and the 400/401 split then tells which accounts exist. The contract that the found user has exactly that email holds only for string input.
- An empty-string refresh token, which is falsy, is modelled as an absent token.
- Storage failures, connection handling (src/utils/connectDB.js) and concurrent requests. The model is sequential.
- src/controllers/facilityController.js has empty handlers, and the other models are schema declarations. Neither has behaviour to model.
- `Auth.Refresh`: the rewrap of a 500 from token issuance into a 401 is modelled, but it cannot occur, since refresh only issues for a user it has found.

## Findings

| source | as written | input that shows it | evidently intended | confidence | as-written member | corrected member |
|---|---|---|---|---|---|---|
| src/middlewares/checkStatusMiddleware.js:28-30 | `!document.isActive` refuses a document whose schema declares no `isActive` field; none of the state, district, facility, department and health-data schemas under src/models declares it | any well-formed id of a stored document, whatever its fields | documents that were never deactivated pass the guard | not executed; the user schema is not part of this model | `CheckStatus.UndeclaredActiveFlagRefused` | `CheckStatus.CheckWithDeclaredFlags` |
| src/controllers/userController.js:36-40 | the 403 (and the 404 at line 18) thrown inside the `try` is caught at lines 54-57 and replaced by a 500 | a requester whose role is DepartmentUser, or a requester id that does not resolve | the 403 and 404 reach the client as raised | not executed | `UserController.GetAllUsers` | `UserController.ListUsers` |
