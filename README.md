# Blogify request handling, modelled in Dafny

A model of the request-handling core of Blogify. Blogify is a serverless blog API: Lambda handlers behind an HTTP API, storing data in DynamoDB. The model covers:

- **Authentication.** Extracting the bearer token (`extractBearerToken`) and checking it (`verifyJwt`).
- **Authorisation.** `requireRole`, and `canModifyPost`: ADMIN and EDITOR may modify any post, an AUTHOR only their own.
- **Payload validators.** Post create and update, registration, login and media creation. Each is a function from a request body to a `Validation` (login to its own `LoginResult`), with the messages and their order as in the code. Minimum lengths are checked against `JsString.JsLength`, the UTF-16 length JavaScript's `.length` reports, in which a character outside the Basic Multilingual Plane counts twice.
- **Post handlers.** `createPost`, `getPost`, `listPosts`, `updatePost` and `deletePost` are methods of the class `Posts.PostsTable`. Its field `posts` is the posts table, keyed by `postId`.
- **Account handlers.** `registerUser` and `loginUser` are methods of the class `Auth.UsersTable`. Its field `users` is the users table, keyed by `userId`. The `email-index` lookup is modelled as a search over that map.

The checks a handler runs before it writes are pure "gate" functions: `Posts.CreateGate`, `Posts.UpdateGate` and `Posts.DeleteGate`. Each returns either the error response (`Halt`) or the values every check established (`Pass`). The handler's contract then says:

- a `Halt` leaves the table unchanged and returns that response;
- a `Pass` changes at most one key, to a stated value; on create, a `Pass` whose fresh id is already taken changes nothing and answers 500.

The JavaScript string behaviour the handlers rely on is modelled on `seq<char>` in module `JsString`:

- `trim`, with the full ECMAScript white-space set;
- `toLowerCase`;
- `split` on one character;
- `Number.parseInt(s, 10)`;
- truthiness of an optional string.

Outside inputs are parameters:

- **Environment variables.** `POSTS_TABLE`, `USERS_TABLE` and `JWT_SECRET` form `Types.Config`.
- **JSON parsing.** The outcome of `JSON.parse` is part of `Types.Body`: `Text(raw, parsed)`, where `parsed == None` means the parse threw.
- **Tokens.** `jwt.verify` is the function-typed `BearerAuth.TokenVerifier`.
- **Crypto.** `bcrypt.hash`, `bcrypt.compare` and `jwt.sign` are the fields of `Auth.Crypto`.
- **Clock and identifiers.** The clock and `randomUUID()` are method parameters `now`, `newPostId` and `newUserId`.

Module `Scenarios` holds client methods. They show what the contracts alone let a caller conclude:

- registering and then logging in yields a session for the new AUTHOR;
- registering the same body twice yields 409;
- for a post: create, read back, update by another author refused with 403, delete, then 404.

Three behaviours of the code differ from what one might expect of such a service; the model follows the code:

- `verifyJwt` checks `JWT_SECRET` before it reads the Authorization header. A request without a secret configured gets 500 whatever its headers are (`BearerAuth.SecretCheckedBeforeHeaders`).
- `validateRegisterPayload` checks the e-mail shape before the password length. A malformed e-mail with a short password is reported as an e-mail error, not as a length error (`RegisterPayload.EmailShapeCheckedBeforePassword`).
- `listPosts` performs no authentication.

## Model

| member | source | states |
|---|---|---|
| PostPermission.CanModifyPost | src/middleware/posts/canModifyPost.ts:5-21 | allowed exactly when the role is ADMIN or EDITOR, or the role is AUTHOR and the post's authorId is the user's id; every denial carries the one permission message |
| PostPermission.ElevatedAlwaysAllowed | src/middleware/posts/canModifyPost.ts:9-11 | ADMIN and EDITOR may modify every post, whoever owns it |
| PostPermission.AuthorOwnsOrIsDenied | src/middleware/posts/canModifyPost.ts:13-20 | an AUTHOR is allowed on their own post and denied on anyone else's |
| PostPermission.UnrecognisedRoleDenied | src/middleware/posts/canModifyPost.ts:9-20 | a role claim outside the three known roles is never allowed, even on a post whose authorId matches |
| PostPermission.DecisionDependsOnOwnershipOnly | src/middleware/posts/canModifyPost.ts:5-21 | two posts with the same authorId get the same decision |
| RolePermission.RequireRole | src/middleware/requireRole.ts:4-15 | allowed exactly when the user's role is in the allowed list; otherwise the fixed denial message |
| RolePermission.EmptyListDeniesAll | src/middleware/requireRole.ts:8-14 | an empty allowed list denies every user |
| RolePermission.Monotonic | src/middleware/requireRole.ts:8-11 | widening the allowed list never turns an allowed user into a denied one |
| Types.RoleFromClaim | src/helpers/verifyJwt.ts:72-76 | the role claim is kept verbatim: its name round-trips, and it is Unrecognised exactly when it is not ADMIN, EDITOR or AUTHOR |
| Types.Lookup | src/helpers/verifyJwt.ts:13-14 | an optional dictionary lookup is defined exactly when the dictionary and the key exist |
| Types.ParseBody | src/middleware/posts/validatePostPayload.ts:13-30 | an absent or empty body gives "Request body is required"; a body that does not parse gives "Invalid JSON body"; otherwise the parsed object; the three cases are exclusive and exhaustive |
| BearerAuth.AuthorizationHeader | src/helpers/verifyJwt.ts:13-14 | the lower-case `authorization` header wins whenever it is present, even when empty; otherwise `Authorization` |
| BearerAuth.ExtractBearerToken | src/helpers/verifyJwt.ts:8-24 | a returned token t has a header exactly "Bearer " + t, and t contains no space |
| BearerAuth.ExtractBearerRoundTrip | src/helpers/verifyJwt.ts:18-23 | round trip: the header "Bearer " + t with t free of spaces yields t |
| BearerAuth.NoHeaderNoToken | src/helpers/verifyJwt.ts:11-16 | missing headers, or a missing or empty Authorization value, give no token |
| BearerAuth.EmptyLowerCaseHeaderWins | src/helpers/verifyJwt.ts:13-16 | an empty `authorization` header does not fall back to `Authorization` |
| BearerAuth.MalformedHeaderRejected | src/helpers/verifyJwt.ts:18-21 | a lower-case scheme ("bearer t") or a doubled space ("Bearer  t") gives no token |
| BearerAuth.VerifyJwt | src/helpers/verifyJwt.ts:26-88 | 500 exactly when the secret is unset; a missing token gives 401; every failure is 401 or 500; authenticated exactly when the token verifies to a payload with sub, email and role all non-empty, and then the user is those claims |
| BearerAuth.VerifyFailureIsGeneric | src/helpers/verifyJwt.ts:79-87 | any failure of `jwt.verify` gives the single "Invalid or expired token" 401 |
| BearerAuth.IncompletePayloadRejected | src/helpers/verifyJwt.ts:50-70 | a non-object payload or a missing claim is rejected with its own 401 message, never defaulted |
| BearerAuth.SecretCheckedBeforeHeaders | src/helpers/verifyJwt.ts:29-37 | without a secret the result does not depend on the headers |
| BearerAuth.BearerTokenAuthenticates | src/helpers/verifyJwt.ts:37-78 | a well-formed bearer header whose token verifies to complete claims authenticates exactly those claims |
| PostPayload.ValidateCreatePostPayload | src/middleware/posts/validatePostPayload.ts:10-72 | valid exactly when title and content are present and, trimmed, at least 3 and 10 UTF-16 units long; the result holds the trimmed values; each of the four messages (title required, title short, content required, content short) is returned exactly when every earlier check passes and its own fails |
| PostPayload.BlankTitleIsMissing | src/middleware/posts/validatePostPayload.ts:32-41 | an all-white-space title is reported as missing, not as short |
| PostPayload.ShortTitleReportedFirst | src/middleware/posts/validatePostPayload.ts:43-57 | a title that trims to between 1 and 2 UTF-16 units is reported as short before any content problem |
| PostPayload.NormalisedDraftAccepted | src/middleware/posts/validatePostPayload.ts:32-71 | validation is idempotent: a title and content that are already trimmed and at least 3 and 10 UTF-16 units long are accepted exactly as sent |
| PostPayload.AstralTitleCountsTwice | src/middleware/posts/validatePostPayload.ts:43-71 | two emoji are four UTF-16 units: with ten characters of content the body is accepted as sent |
| PostPayload.ValidateUpdatePostPayload | src/middleware/posts/validatePostPayload.ts:74-131 | valid exactly when at least one field is present and each present field, trimmed, meets its minimum UTF-16 length; "nothing to update", "title short" and "content short" are each returned exactly when the earlier checks pass and that one fails; absent fields stay absent and present ones are trimmed |
| PostPayload.BlankTitleOnUpdateIsTooShort | src/middleware/posts/validatePostPayload.ts:99-116 | on update a blank title is present, so it is reported as too short, not as missing |
| PostPayload.NormalisedChangesAccepted | src/middleware/posts/validatePostPayload.ts:96-130 | update validation is idempotent: already trimmed fields of sufficient UTF-16 length are accepted as sent, absent ones stay absent |
| RegisterPayload.NormaliseEmail | src/middleware/validateRegisterPayload.ts:18 | the normalised e-mail is lower-case, empty exactly when the raw value is all white space, and keeps its '@' and '.' |
| RegisterPayload.ValidateRegisterPayload | src/middleware/validateRegisterPayload.ts:4-42 | valid exactly when the trimmed e-mail contains '@' and '.' and the password is at least 8 UTF-16 units long; each of the four messages (e-mail required, e-mail format, password required, password short) is returned exactly when the earlier checks pass and its own fails; e-mail trimmed and lower-cased, password untouched, name trimmed when present |
| RegisterPayload.EmailShapeCheckedBeforePassword | src/middleware/validateRegisterPayload.ts:26-39 | a malformed e-mail is reported even when the password is also too short |
| RegisterPayload.AstralPasswordLongEnough | src/middleware/validateRegisterPayload.ts:34-42 | four emoji are eight UTF-16 units, a password long enough |
| RegisterPayload.ShortPasswordRejected | src/middleware/validateRegisterPayload.ts:34-39 | with a well-formed e-mail, a non-empty password under 8 UTF-16 units gets the length message |
| RegisterPayload.PasswordNotTrimmed | src/middleware/validateRegisterPayload.ts:19 | the password is not trimmed: eight spaces are accepted as they are |
| LoginPayload.ValidateLoginPayload | src/middleware/validateLoginPayload.ts:3-29 | valid exactly when the e-mail is not blank and the password is non-empty; "Email is required" exactly for a missing or blank e-mail, "Password is required" exactly for a present e-mail with a missing or empty password; the e-mail is normalised as at registration and the password is untouched |
| LoginPayload.RegistrationPayloadLogsIn | src/middleware/validateLoginPayload.ts:17-28 | every body registration accepts, login accepts with the same e-mail and password |
| LoginPayload.AnyPasswordAccepted | src/middleware/validateLoginPayload.ts:24-28 | login applies no length rule to the password |
| MediaPayload.ValidateCreateMediaPayload | src/middleware/media/validateMediaPayload.ts:8-72 | valid exactly when fileName and mimeType are not blank and fileSize is present and positive; names trimmed, type defaulting to IMAGE, postId trimmed when present |
| MediaPayload.MimeTypeCheckedBeforeSize | src/middleware/media/validateMediaPayload.ts:44-58 | a blank mimeType is reported before anything about the size |
| MediaPayload.NonPositiveSizeRejected | src/middleware/media/validateMediaPayload.ts:52-58 | an absent, zero or negative size gets the one size message |
| Posts.Authenticate | src/lambda/posts.ts:25-37 | POSTS_TABLE unset gives 500 before anything else; otherwise the verifyJwt outcome, its failures passed through with their status and message |
| Posts.PostIdParam | src/lambda/posts.ts:98-104 | the path parameter is used exactly when it is present and non-empty |
| Posts.CreateGate | src/lambda/posts.ts:25-47 | an authentication failure is returned as it is; an authenticated request with an invalid payload gets 400 with the validator's message, and a 400 means exactly that; it passes exactly when authenticated with a valid payload |
| Posts.NewPost | src/lambda/posts.ts:54-62 | the stored post is owned by the caller, PUBLISHED, holds the validated title and content, and has createdAt equal to updatedAt equal to now |
| Posts.UpdateGate | src/lambda/posts.ts:202-255 | the checks in order, each failure with its own response: configuration and authentication as they come, a missing postId 400, an invalid payload the validator's 400, an unknown id 404, a denied permission the 403 message; each status implies the earlier checks passed; it passes exactly when all hold, yielding the existing post |
| Posts.DeleteGate | src/lambda/posts.ts:313-356 | configuration and authentication as they come, a missing postId 400, an unknown id 404, a denied permission the 403 message, each status implying the earlier checks passed; it passes exactly when all hold |
| Posts.NonOwnerAuthorCannotUpdate | src/lambda/posts.ts:215-255 | an AUTHOR updating someone else's existing post always gets 400 or 403, and exactly the 403 permission message when the payload is valid |
| Posts.NonOwnerAuthorCannotDelete | src/lambda/posts.ts:349-356 | an AUTHOR deleting someone else's existing post always gets the 403 permission message |
| Posts.SetAttribute | src/lambda/posts.ts:279-288 | a SET on the key attribute is rejected; any other SET keeps the key; a SET on title, content or updatedAt assigns exactly that attribute |
| Posts.ApplyClauses | src/lambda/posts.ts:279-288 | applying SET clauses never changes the key |
| Posts.Edited | src/lambda/posts.ts:261-275 | an edit keeps postId, authorId, status and createdAt, and sets updatedAt to now |
| Posts.ApplyOneClause | src/lambda/posts.ts:261-275 | a leading title, content or updatedAt clause assigns that attribute and continues with the rest |
| Posts.BuildUpdateRequest | src/lambda/posts.ts:257-277 | clauses for title and content when given, then always updatedAt; placeholders used and defined coincide; applied to any post, the request yields exactly the intended edit |
| Posts.UpdateApplies | src/lambda/posts.ts:257-288 | an UpdateCommand with these clauses and placeholder values turns any post into its edit |
| Posts.BuildScanInput | src/lambda/posts.ts:147-177 | a Limit exactly when `limit` parses to a number above 0; a filter on title and content exactly when the trimmed `q` is not empty, searching for that trimmed text |
| Posts.PlainScan | src/lambda/posts.ts:159-177 | without `limit` and `q` the scan names only the table |
| Posts.DecimalLimitIsUsed | src/lambda/posts.ts:152-165 | a positive limit written in decimal becomes the scan's Limit |
| Posts.ZeroLimitIgnored | src/lambda/posts.ts:152-165 | `limit=0` sets no Limit |
| Posts.PostsTable.CreatePost | src/lambda/posts.ts:22-89 | a failed check returns its response with the table unchanged; on success the new post is stored under the fresh id and returned with 201; an id collision is a 500 and changes nothing |
| Posts.PostsTable.GetPost | src/lambda/posts.ts:91-138 | 400 exactly without a postId, 404 exactly for an unknown id, 200 exactly for a stored id, returning that post |
| Posts.PostsTable.ListPosts | src/lambda/posts.ts:140-197 | POSTS_TABLE unset gives 500 and no scan; otherwise the scan follows the query string and the response holds the items with their count |
| Posts.PostsTable.UpdatePost | src/lambda/posts.ts:199-308 | a failed check returns its response with the table unchanged; on success exactly that post is replaced by its edit, which is returned with 200 |
| Posts.PostsTable.DeletePost | src/lambda/posts.ts:310-373 | a failed check returns its response with the table unchanged; on success exactly that key is removed and the response is 204 with an empty body |
| Auth.AccountFor | src/lambda/auth.ts:110-128 | the e-mail index returns a stored user with that e-mail |
| Auth.AccountForUnique | src/lambda/auth.ts:110-128 | with unique e-mails, the index returns exactly the account stored under that e-mail |
| Auth.NewAccount | src/lambda/auth.ts:58-66 | a new account is an AUTHOR with createdAt equal to updatedAt equal to now |
| Auth.Profile | src/lambda/auth.ts:147-152 | the public profile is the account's id, e-mail, name and role, so neither the hash nor the timestamps |
| Auth.UsersTable.RegisterUser | src/lambda/auth.ts:15-90 | 409 exactly when the normalised e-mail is taken; 201 exactly when it is free and the id is fresh, storing an AUTHOR with the bcrypt hash (cost 10); 500 exactly when USERS_TABLE is unset or the id collides; unique e-mails are preserved; nothing changes unless 201 |
| Auth.UsersTable.LoginUser | src/lambda/auth.ts:92-161 | 500 exactly when USERS_TABLE or JWT_SECRET is unset; 400 exactly for an invalid payload; 401 exactly when the e-mail is unknown or the password does not match, always with the same message; 200 returns a token signed over the account's id, e-mail and role with expiry 1h, and its profile |
| JsString.Trim | src/middleware/posts/validatePostPayload.ts:32-33 | `trim` leaves no white space at either end and never grows the string |
| JsString.TrimIsInfix | src/middleware/posts/validatePostPayload.ts:32-33 | `trim` removes exactly a white-space prefix and a white-space suffix |
| JsString.TrimEmptyIff | src/middleware/posts/validatePostPayload.ts:32-35 | a trimmed string is empty exactly when the original is all white space |
| JsString.TrimIdempotent | src/middleware/posts/validatePostPayload.ts:32-33 | trimming twice is trimming once |
| JsString.TrimFixesTrimmed | src/middleware/posts/validatePostPayload.ts:32-33 | a string with no white space at either end is its own trim |
| JsString.TrimOptional | src/middleware/posts/validatePostPayload.ts:32-35 | `s?.trim()` is defined exactly when s is, and truthy exactly when s is not all white space |
| JsString.TrimOptionalFixesTrimmed | src/middleware/posts/validatePostPayload.ts:99-100 | `s?.trim()` leaves an absent or already trimmed string as it is |
| JsString.JsLength | src/middleware/posts/validatePostPayload.ts:43 | `.length` counts UTF-16 units: at least the number of characters and at most twice it |
| JsString.JsLengthIsLengthIff | src/middleware/posts/validatePostPayload.ts:43 | `.length` equals the number of characters exactly when no character lies outside the Basic Multilingual Plane |
| JsString.ToLowerCase | src/middleware/validateRegisterPayload.ts:18 | same length, each character lowered |
| JsString.ToLowerCaseIsLower | src/middleware/validateRegisterPayload.ts:18 | the result has no upper-case letter |
| JsString.ToLowerCaseIdempotent | src/middleware/validateRegisterPayload.ts:18 | lowering twice is lowering once |
| JsString.ToLowerCaseKeepsNonLetters | src/middleware/validateRegisterPayload.ts:18-26 | a non-letter such as '@' or '.' occurs after lowering exactly when it occurred before |
| JsString.Split | src/helpers/verifyJwt.ts:18 | at least one part, and no part contains the separator |
| JsString.SplitJoin | src/helpers/verifyJwt.ts:18 | joining the parts with the separator gives back the string |
| JsString.SplitInTwo | src/helpers/verifyJwt.ts:18-19 | two parts p and q exactly when the string is p, the separator, q, and neither p nor q contains it |
| JsString.ParseInt | src/lambda/posts.ts:153 | a number exactly when, after leading white space, an optional sign is followed by a digit; a positive result has no minus sign |
| JsString.ParseIntDecimal | src/lambda/posts.ts:153-155 | round trip: parsing the decimal rendering of n gives n |
| Scenarios.RegisterThenLogin | src/lambda/auth.ts:15-161 | with bcrypt's compare accepting its own hashes, a 201 registration followed by a login with the same body gives 200 and a session for the new AUTHOR |
| Scenarios.RegisterTwice | src/lambda/auth.ts:34-51 | after a 201 registration, the same body registers with 409 |
| Scenarios.CreateByA | src/lambda/posts.ts:22-89 | for any trimmed title and content long enough, A's create request on the empty table stores exactly one post, owned by A with that title and content, and returns it with 201 |
| Scenarios.DeleteByA | src/lambda/posts.ts:310-373 | A deleting their own post gets 204, and reading it afterwards gives 404 |
| Scenarios.PostLifecycle | src/lambda/posts.ts:22-373 | for any trimmed title and content long enough: create by A gives 201 and a PUBLISHED post owned by A; an update by another AUTHOR gives 403; along the way the post reads back with 200 and, once A deletes it, reads as 404 |

## Left out

- I/O and logging: `console.log` and `console.error` are not modelled, and `buildJsonResponse` (JSON encoding, headers) is reduced to a status and a `ResponseBody` value. The 204 body `""` is the `EmptyString` body.
- Storage errors other than the conditional write (network failures, throttling) are not modelled. The catch-all 500 branches of the handlers therefore appear only for the `attribute_not_exists` collision on create and register.
- The DynamoDB scan itself: `ListPosts` returns the scan input it builds and takes the scanned items as a parameter. `contains`, `Limit` paging and eventual consistency of the e-mail index are not modelled.
- Posts.BuildUpdateRequest: the text "SET #a = :a, …" of the UpdateExpression is represented as its list of clauses, not rendered as a string.
- JsString.ToLowerCase: lowers ASCII letters only; the Unicode case mapping of `toLowerCase` is not modelled.
- JsString.ParseInt: the result is an unbounded integer, so the floating-point rounding of very long numerals is not modelled. Hexadecimal is irrelevant with radix 10.
- MediaPayload.ValidateCreateMediaPayload: fileSize is an integer, so NaN, fractional and non-number values are not modelled.
- JSON fields are optional strings in the model. A `null` field reads as absent at every `?.trim()` (validatePostPayload.ts:32-33, validateRegisterPayload.ts:18,20, validateLoginPayload.ts:17, validateMediaPayload.ts:30-31,34) and at the `!password` tests, so the model's `None` covers it there. It does not cover `null` in an update body, which throws at validatePostPayload.ts:99-100.
- A number or other non-string where a string field is expected is not modelled. Such a title or e-mail throws at `.trim()`. A numeric `password` is never trimmed and its `.length` is undefined, so registration accepts it and `bcrypt.hash` then fails inside the try, giving a 500 (validateRegisterPayload.ts:19,30-34, auth.ts:53,83-88).
- A body that parses to `null` throws at the first field access, outside the try. The model's `Text(raw, Some(fields))` covers only objects and other non-null values, whose fields all read as absent.
- BearerAuth.VerifyJwt: the claims are optional strings, so a truthy claim that is not a string, which verifyJwt.ts:64-76 copies into the user, is not modelled.
- Posts.SetAttribute: a SET on `status` or on an attribute a post does not have leaves the post unchanged, where DynamoDB would apply it. updatePost never issues such a SET.
- `jwt.verify`, `jwt.sign`, `bcrypt.hash` and `bcrypt.compare` are uninterpreted functions. Token expiry, signature checking, salt generation and timing safety are not modelled. Scenarios.RegisterThenLogin requires that compare accepts a hash of the same password.
- Concurrency between handler invocations is not modelled; each method runs alone on the table.
- src/lambda/media.ts (stub handlers), lambda.ts, the swagger servers and the DynamoDB client configuration are not part of this model. So the cross-resource permission check for media attached to a post is not modelled.
- auth.ts imports its validators from `../middleware/auth/…`, a path different from the files' location; the model links the handlers to the validators as intended.
