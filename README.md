# Identity and session service, modelled in Dafny

This project models the server side of a small credential-and-session
authority. Users sign up with name, email and password, or sign in with
Google (OAuth2). The server keeps a user collection with a unique email and
a sparse-unique Google id. It issues two signed tokens per session: a
short-lived access token and a longer-lived refresh token. The refresh token
travels in an httpOnly cookie.

Layers, leaf first:

- `Bcrypt` and `Jwt` stand in for the hashing and token libraries. A digest
  commits to its password and records its salt. A token records the secret
  that signed it, its claim set, and its `iat` and `exp` claims. A token
  verifies under a secret exactly when it was signed with that secret and
  `now < exp`. The signature is checked before expiry, as jsonwebtoken does.
- `UserModel` holds the user record, the schema's constraints on the
  collection, and `comparePassword`.
- `AuthUtil` holds the two token domains (access and refresh), each with its
  own secret and time-to-live. Both carry `{sub: user.id, email: user.email}`.
- `UserStore` holds the repository: a class with a `map` from id to record
  and the id counter for the next `create`. `create` and `save` enforce the
  required fields and the two unique indexes, as the database does. A
  failed write changes nothing.
- `AuthService` holds signup, login, me, refresh and the Google sign-in.
  Each is a method on the repository whose result and new store equal a
  specification function of the old store.
- `AuthServiceProperties` holds the service's promises as lemmas over those
  functions. Among them: no partial writes, the schema preserved, uniform
  login failures, tokens naming the returned user, and the Google
  resolution policy with its idempotence.
- `AuthController` holds the HTTP handlers. It has the input schemas, Bearer
  extraction (section 2.1 of RFC 6750), the public projection of a user,
  the refresh cookie, and a response object that the handlers write step by
  step.

Clock, randomness and network are parameters:

- `now` is the current time in seconds.
- `salt` is bcrypt's random salt.
- `GoogleExchange` is what the provider answers for an authorization code
  (section 4.1 of RFC 6749): a failure, or a profile whose `id`, `email` and
  `name` may each be missing.
- `parse` is the token library's reading of a non-empty token string: a signed
  token, or a string it cannot read together with the message it gives. The
  empty string is decided by the model itself (`Jwt.Decode`): it is no token.
- `isEmail` is the validation library's email-format check.

Behaviour of the code worth noting:

- Login input is bounded too: a valid email and a password of at least 6
  characters.
- Minimum lengths count JavaScript string length (UTF-16 code units), so a
  character beyond U+FFFF, such as an emoji, counts twice.
- `me` and `refresh` send back the token library's error message (for example
  "jwt expired", or "jwt must be provided" for the header "Bearer " with
  nothing after it) with status 401. They do not send a single "Unauthorized".
- Errors in the Google callback answer with status 500.
- A store error during signup surfaces with the store's message.
- A linked account keeps its password hash. It cannot log in anyway, because
  login requires the provider `local`.
- No maximum password length is enforced.

## Model

| member | source | states |
|---|---|---|
| `Bcrypt.Hash` | server/src/utils/auth.util.ts:26-28 | the digest of a password under a salt records that salt and is accepted by the comparison for that password |
| `Bcrypt.CompareRejectsOtherPasswords` | server/src/models/user.model.ts:27 | a digest of one password never accepts a different candidate, whatever the salt |
| `Jwt.Sign` | server/src/utils/auth.util.ts:10 | a signed token carries the given payload under the given secret, with `iat = now` and `exp = now + ttl` |
| `Jwt.Verify` | server/src/utils/auth.util.ts:18-24 | verification succeeds iff the token was signed with this secret and `now < exp`, and then returns exactly the payload; a correctly signed token past its expiry fails with the expiry error |
| `Jwt.EmptyTokenMustBeProvided` | server/src/utils/auth.util.ts:18-24 | verifying the empty string fails with "jwt must be provided" whatever the secret |
| `Jwt.SignVerifyRoundTrip` | server/src/utils/auth.util.ts:8-24 | signing then verifying with the same secret before expiry gives back the payload |
| `UserModel.ComparePassword` | server/src/models/user.model.ts:25-28 | with no password hash the comparison is false, never an error; with a hash it is true iff the stored hash accepts the candidate |
| `UserModel.ComparePasswordAcceptsOnlyHashedPassword` | server/src/models/user.model.ts:27 | a user whose stored hash was made from `p` accepts a candidate iff it is `p` |
| `UserModel.NewRecord` | server/src/models/user.model.ts:14-23 | a created record takes name, email, hash and Google id from the draft, defaults the provider to `local`, and sets both timestamps to the creation time |
| `AuthUtil.TokensShareClaimSet` | server/src/utils/auth.util.ts:6-16 | access and refresh tokens carry the same claim set `{sub: id, email}`; the access token uses the access secret and time-to-live, the refresh token the refresh ones |
| `AuthUtil.AccessTokenRoundTrip` | server/src/utils/auth.util.ts:8-20 | an access token verifies before expiry to exactly `{sub: u.id, email: u.email}` |
| `AuthUtil.RefreshTokenRoundTrip` | server/src/utils/auth.util.ts:13-24 | a refresh token verifies before expiry to exactly `{sub: u.id, email: u.email}` |
| `AuthUtil.DomainsAreSeparated` | server/src/utils/auth.util.ts:18-24 | with distinct secrets, the refresh verifier rejects an access token and the access verifier rejects a refresh token, with the signature error |
| `AuthUtil.SharedSecretLetsAccessTokenRefresh` | server/src/utils/auth.util.ts:22-24 | the separation rests on configuration: with one shared secret, a live access token passes the refresh verifier |
| `AuthUtil.ExpiredTokensAreRejected` | server/src/utils/auth.util.ts:18-24 | once its time-to-live has elapsed, each kind of token fails with the expiry error |
| `AuthUtil.HashThenCompare` | server/src/utils/auth.util.ts:26-28 | a hash from `hashPassword(p)` is accepted by `comparePassword(p)` and by no other candidate |
| `UserStore.ByEmail` | server/src/repositories/user.repository.ts:4-6 | the lookup by email finds nothing iff no stored user has that email, and otherwise a stored user with that email |
| `UserStore.ByEmailFinds` | server/src/models/user.model.ts:17 | with unique emails, looking up a user's email returns that very user |
| `UserStore.WriteWithoutClash` | server/src/models/user.model.ts:17-20 | writing a record with its required fields that shares no email and no Google id with another record keeps both unique indexes and the required fields |
| `UserStore.CreateKeepsConsistent` | server/src/models/user.model.ts:14-23 | `create` keeps the schema's constraints; on success it adds exactly one record under an unused id; on failure it writes nothing |
| `UserStore.SaveKeepsConsistent` | server/src/models/user.model.ts:17-20 | `save` keeps the schema's constraints, never adds or removes a record, and on failure writes nothing |
| `UserStore.UserRepository.FindByEmail` | server/src/repositories/user.repository.ts:4-6 | returns the lookup by email, and a found record is the one stored under its own id |
| `UserStore.UserRepository.FindById` | server/src/repositories/user.repository.ts:8-10 | returns a record iff one is stored under the id, and then that record |
| `UserStore.UserRepository.Create` | server/src/repositories/user.repository.ts:12-14 | result and new collection are those of the create specification; the repository stays consistent |
| `UserStore.UserRepository.Save` | server/src/services/auth.service.ts:78 | result and new collection are those of the save specification; the repository stays consistent |
| `AuthService.Signup` | server/src/services/auth.service.ts:7-22 | result and new store are those of the signup specification; the repository stays consistent |
| `AuthService.Login` | server/src/services/auth.service.ts:24-32 | returns the login specification's result and changes nothing |
| `AuthService.Me` | server/src/services/auth.service.ts:34-39 | returns the `me` specification's result and changes nothing |
| `AuthService.Refresh` | server/src/services/auth.service.ts:41-47 | returns the `refresh` specification's result and changes nothing |
| `AuthService.GoogleAuth` | server/src/services/auth.service.ts:49-88 | result and new store are those of the Google sign-in specification; the repository stays consistent |
| `AuthServiceProperties.SignupRejectsTakenEmail` | server/src/services/auth.service.ts:8-9 | a taken email fails with "Email already in use" and leaves the store exactly as it was |
| `AuthServiceProperties.SignupCreatesOneLocalUser` | server/src/services/auth.service.ts:11-17 | signup succeeds iff the email is free and name and email are non-empty; it then adds one record under a fresh id and changes no other; the new user is `local`, has the given name and email, stores `hash(password)`, has no Google id, and passes the password check; a failure writes nothing |
| `AuthServiceProperties.SignupKeepsConsistent` | server/src/services/auth.service.ts:8-17 | signup preserves unique emails, unique Google ids and the required fields |
| `AuthServiceProperties.IssuedTokensNameUser` | server/src/services/auth.service.ts:19-21 | both tokens of an issued session carry `{sub: user.id, email: user.email}` and verify to it before their expiry |
| `AuthServiceProperties.SessionsAreIssuedForReturnedUser` | server/src/services/auth.service.ts:29-31 | the session from signup, login (lines 29-31) and the Google sign-in (lines 81-83) is issued at the call time for the very user it returns |
| `AuthServiceProperties.LoginFailsUniformly` | server/src/services/auth.service.ts:25-27 | every login failure is the same "Invalid credentials" error |
| `AuthServiceProperties.LoginSucceedsIff` | server/src/services/auth.service.ts:25-31 | login succeeds iff a stored `local` user with that email accepts the password, and then returns that user |
| `AuthServiceProperties.PasswordlessUserCannotLogin` | server/src/models/user.model.ts:26 | a user without a password hash (one created by the Google sign-in) never logs in |
| `AuthServiceProperties.DanglingSubjectIsUserNotFound` | server/src/services/auth.service.ts:34-47 | a token that verifies but names no stored user fails with "User not found" in `me` and in `refresh` |
| `AuthServiceProperties.MeResolvesIssuedUser` | server/src/services/auth.service.ts:34-39 | `me` with a live access token issued for a stored user returns that user |
| `AuthServiceProperties.RefreshIssuesOnlyAccessToken` | server/src/services/auth.service.ts:41-47 | a successful refresh returns one access token, signed with the access secret for the user named by the refresh token and expiring one access time-to-live later; no new refresh token is made |
| `AuthServiceProperties.SignupRefreshMe` | server/src/services/auth.service.ts:41-47 | the refresh token from signup, before it expires, yields an access token that `me` resolves to the new user; the same refresh token works again later |
| `AuthServiceProperties.SignupThenLogin` | server/src/services/auth.service.ts:7-32 | after a signup, the same email is refused, a wrong password fails with "Invalid credentials", and the right one logs in as the same user |
| `AuthServiceProperties.GoogleAuthRejectsIncompleteProfile` | server/src/services/auth.service.ts:63-65 | a failed exchange, or a profile missing its email or name, fails with "Google authentication failed" and writes nothing |
| `AuthServiceProperties.GoogleAuthFailuresAreOpaque` | server/src/services/auth.service.ts:84-87 | every failure of the Google sign-in, store errors included, is the one "Google authentication failed" error and writes nothing; the store stays consistent |
| `AuthServiceProperties.GoogleAuthResolvesToGoogleAccount` | server/src/services/auth.service.ts:67-83 | a successful Google sign-in returns a `google` account with the profile's email, stored exactly as returned |
| `AuthServiceProperties.GoogleAuthCreatesUnseenEmail` | server/src/services/auth.service.ts:68-74 | an unseen email gets one new `google` account with the profile's name and Google id and no password, under a fresh id, provided no account already holds that Google id |
| `AuthServiceProperties.GoogleAuthLinksLocalAccount` | server/src/services/auth.service.ts:75-79 | a `local` account with the profile's email is flipped in place to `google` with the profile's Google id; it keeps its id, name, hash and creation time, and no record is added |
| `AuthServiceProperties.GoogleAuthKeepsGoogleAccount` | server/src/services/auth.service.ts:67-83 | a `google` account with the profile's email is returned as it is and nothing is written |
| `AuthServiceProperties.GoogleAuthIdempotent` | server/src/services/auth.service.ts:67-79 | after a successful Google sign-in, repeating it with the same answer returns the same user and writes nothing |
| `AuthServiceProperties.GoogleAccountCannotLogin` | server/src/services/auth.service.ts:26 | once the Google sign-in has linked or created an account, password login for its email fails whatever the password |
| `AuthController.Utf16Length` | server/src/controllers/auth.controller.ts:6-14 | the JavaScript length of a string lies between its number of characters and twice that |
| `AuthController.Utf16LengthOfSurrogatePair` | server/src/controllers/auth.controller.ts:7 | a character beyond U+FFFF, such as an emoji, adds 2 to the length |
| `AuthController.ParseSignup` | server/src/controllers/auth.controller.ts:6-10 | signup input is accepted iff the name has a JavaScript length (UTF-16 code units) of at least 2, the email is well-formed and the password has a length of at least 6; accepted input is exactly the body's fields |
| `AuthController.ParseLogin` | server/src/controllers/auth.controller.ts:11-14 | login input is accepted iff the email is well-formed and the password has a JavaScript length of at least 6; accepted input is exactly the body's fields |
| `AuthController.ValidatedSignupFailsOnlyOnTakenEmail` | server/src/controllers/auth.controller.ts:19-20 | input that passed the signup schema fails in the service iff its email is taken, and then only with "Email already in use" |
| `AuthController.BearerToken` | server/src/controllers/auth.controller.ts:62-63 | a token is extracted iff the header is present and starts with exactly "Bearer "; the header is then that prefix followed by the token |
| `AuthController.BearerRoundTrip` | server/src/controllers/auth.controller.ts:63 | "Bearer " followed by a token extracts to that token |
| `AuthController.BearerIsExact` | server/src/controllers/auth.controller.ts:62 | a lower-case scheme or a missing space extracts nothing |
| `AuthController.EmptyBearerTokenMustBeProvided` | server/src/controllers/auth.controller.ts:62-68 | the header "Bearer " alone passes the prefix test, yields the empty token, and `me` then fails with "jwt must be provided" |
| `AuthController.PublicViewOmitsCredentials` | server/src/controllers/auth.controller.ts:30 | the user object `{id, name, email, createdAt}` (also lines 51, 65, 117-122) does not depend on the hash, provider, Google id or update time |
| `AuthController.Signup` | server/src/controllers/auth.controller.ts:17-36 | invalid input answers 400 "Invalid input" without touching the store; otherwise the store follows the signup specification; success answers 201 with the access token, the public user and the refresh cookie (httpOnly, seven days); a service error answers 400 with its message and sets no cookie |
| `AuthController.Login` | server/src/controllers/auth.controller.ts:38-57 | invalid input answers 400 "Invalid input"; success answers 200 with the access token, the public user and the refresh cookie; failure answers 400 "Invalid credentials"; the store is not modified |
| `AuthController.Me` | server/src/controllers/auth.controller.ts:59-69 | a header without the exact "Bearer " prefix answers 401 "Missing token"; otherwise the rest of the header is the token, the empty string standing for no token; a known user answers 200 with the public user; every other failure answers 401 with its message |
| `AuthController.Logout` | server/src/controllers/auth.controller.ts:71-79 | always answers 204 with no body and clears the refresh cookie; it takes no store |
| `AuthController.Refresh` | server/src/controllers/auth.controller.ts:81-90 | a missing or empty cookie answers 401 "Missing refresh token" without calling the service; success answers 200 with the access token only; any failure answers 401 |
| `AuthController.GoogleCallback` | server/src/controllers/auth.controller.ts:102-129 | a missing code answers 400 "Missing authorization code" and leaves the store alone; otherwise the store follows the Google sign-in specification; success sets the refresh cookie and redirects (302) with the access token and the public user; failure answers 500 "Google authentication failed" |

## Left out

- Password hashing is idealised as collision-free. bcrypt's cost factor, its random salt (a parameter here), its timing behaviour and its truncation of passwords to 72 bytes are not modelled.
- Token signatures, token string formats and the parsing of time-to-live strings such as "15m" are not modelled. A non-empty token string reaches the service through the `parse` parameter. Time-to-live values are natural numbers of seconds.
- The email format check of the validation library is the `isEmail` parameter. The list of validation issues sent with "Invalid input" is not modelled.
- The code exchange and the profile fetch are network calls. They are the `GoogleExchange` input. The error logging in the Google sign-in is left out.
- The repository is an in-memory map. Document ids are a counter, so a malformed id string cannot be represented. A Google id set to null is treated like a missing one.
- Concurrent requests are not modelled. The model is sequential, so two simultaneous signups for one email cannot race.
- `AuthController.Me`: the messages for a non-empty token string the library cannot read ("jwt malformed", "invalid token", "jwt signature is required", ...) are whatever `parse` gives; the library's checks of the algorithm, audience, issuer and not-before claims are not modelled. `AuthController.Refresh` shares this.
- `AuthService.Message`: the database's own messages for a failed write are abbreviated to "User validation failed" and "E11000 duplicate key error".
- The handler that builds the Google authorization URL (server/src/controllers/auth.controller.ts:92-100) only formats a string; it is not modelled.
- The dashboard redirect URL is not built as a string. `RedirectToDashboard` records the access token and the public user that the URL carries.
- Cookie attributes other than httpOnly and maxAge are not modelled: `secure`, `sameSite`, `domain` and the cookie name come from configuration.
- Configuration loading, server start-up, route registration and the front-end are not part of this model.
