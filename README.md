# go-todo: authorization and request decisions

This project models go-todo's authorization and request-decision core in
Dafny and proves properties of that model. go-todo is a small Go web service
that stores to-do lists ("todos") and their tasks for registered users.

Every request to a todo route first passes JWT middleware. The middleware
reads the token from the `x-jwt-token` header and checks that it:

- parses, and verifies under the server's HMAC secret;
- carries the issuer "todo";
- has an expiry that is not yet past.

It then stores the token's subject, the user id, in the request context.
The handlers read that user id and refuse with 403 when it is not the
todo's author. Each handler takes its error decisions in its own order:

- `HandleCreate` decodes the body first, then compares the author with the
  user id, then writes.
- The `{id}` handlers (`HandleGetByID`, `HandleUpdate`, `HandleDelete`)
  test the user id first, then look the todo up, then check ownership;
  `HandleUpdate` decodes its body only after that.
- The task handlers check no user at all.

Each error becomes a JSON error response whose body is the text of an
`ApiError`.

The model covers:

- **Three generations of the middleware:**
  - `WebJwt`: pkg/web/jwt.go, the current one.
  - `OldJwt`: old/jwt.go, whose subject is numeric.
  - `LegacyJwt`: the root package's jwt.go, which checks ownership inside
    the middleware. server.go has the same chain.
- **Supporting pieces:**
  - `Tokens`: the token and library abstraction.
  - `Http`: the request context and the query string.
  - `Strconv`: decimal parsing.
  - `WebError`: the error-response builder.
  - `Config`: the functional configuration options.
  - `TodoModels` and `UserModels`: the validators of the request models.
  - `LegacyStore` and `DbOffset`: the two page offset computations.
- **The todo service:**
  - `TodoRepository.Repository`: a class over the todo and task tables.
  - `TodoRoutes`: the HTTP handlers of internal/todo/routes.go.
  - `LegacyServer`: server.go's response adapter.
- **Modelling choices:**
  - **Pure code becomes functions.** Each Go guard chain is a function that
    returns an outcome datatype. A Go panic is an explicit outcome
    (`Panicked`, `Panic`, `Panics`).
  - **Stateful code becomes classes.** The repository and the response
    writer change state, so each is a class with methods.
  - **Handlers split decision from write.** Each handler method first takes
    its decision as a pure `Plan` function, then performs the store write the
    plan names on the `Repository`.
- **Parameters:**
  - **The clock** is a `now: int` in seconds.
  - **The JWT library** is three function values (`Tokens.JwtLibrary`):
    serialize, deserialize and the library's own claims check. The ghost
    predicate `Tokens.Faithful` says how they must behave: deserialize
    inverts serialize, the empty text never deserializes, and the claims
    check accepts a numeric expiry that is still ahead.
  - **Id generation** is a per-call parameter: the nanoid generator's
    result is the `freshID` argument of `Repository.Create`.
  - **Database failures** are a fault set given to the repository's
    constructor.
  - **The mail parser** is a pair of function values (`UserModels.MailParser`).
- **Signatures are idealised.** The signature records the algorithm, key and
  claims it was made with, and verifies exactly under that algorithm, key
  and claims.

Points where the code's behaviour is easy to misread:

- **Expiry boundary.** The current `claimsAreValid` (pkg/web/jwt.go:103-106,
  114) uses `isExpired`, which is `now > exp`, so a token is still valid at
  its expiry second. `WebJwt.IsExpiredIsStrict` states that boundary.
- **Missing expiry.** An absent `exp`, or an `exp` of 0 (which golang-jwt v5
  reads as absent), makes `claimsAreValid` dereference a nil time and
  panic (see Findings). `WebJwt.ClaimsAreValidFailClosed` is the version
  that fails closed and refuses such claims.
- **Claims shape.** The code reads untyped map claims, and the model keeps
  their failure modes: `sub` must be a string, and `sub` is a float64 in
  old/jwt.go.

## Model

| member | source | states |
|---|---|---|
| Strconv.Atoi | internal/todo/routes.go:67-74 | a parsed value lies within the int64 range; the empty string is an error |
| Strconv.Decimal | internal/todo/routes.go:67-74 | the decimal text of a natural number is a non-empty digit string without a sign |
| Strconv.DecimalValueOfDecimal | internal/todo/routes.go:67-74 | reading back the decimal text of a natural number gives that number |
| Strconv.AtoiDecimal | internal/todo/routes.go:67-74 | Atoi parses the decimal text of every non-negative int64 value back to that value |
| Strconv.AtoiNegative | internal/todo/routes.go:67-74 | a minus sign before the decimal text parses to the negated value |
| Strconv.AtoiRejectsNonDigit | jwt.go:69-77 | a non-digit after the first character makes Atoi fail |
| Tokens.SignedTokenVerifies | pkg/web/jwt.go:17-29 | a token signed with HS256 and a byte key verifies under that key |
| Tokens.OnlySigningKeyVerifies | pkg/web/jwt.go:121-127 | a signature verifies only under the key it was made with, and only for HS256 |
| Tokens.Parse | pkg/web/jwt.go:34-49 | a parsed token has map claims and comes from a decoded token whose algorithm the key function accepts and whose signature verifies under that key; it carries that token's algorithm and claims |
| Tokens.ParseDependsOnKeyChoice | pkg/web/jwt.go:34-36 | key functions that agree on every algorithm give the same parse result |
| Tokens.EmptyTextNeverParses | pkg/web/jwt.go:34-41 | the empty string never parses |
| Tokens.SignedTokenParses | pkg/web/jwt.go:17-49 | a token signed with the server's HS256 secret parses to its own claims, valid iff the library accepts them; an unexpired token is accepted |
| Tokens.GetExpirationTime | pkg/web/jwt.go:109 | no expiry iff `exp` is absent or the number 0; malformed iff `exp` is present and not a number; otherwise the non-zero number `exp` holds |
| Http.WithValue | pkg/web/jwt.go:97-99 | the new context maps the key to the value and keeps every other key unchanged |
| WebError.ApiError.Error | pkg/web/error.go:32-34 | the error text is the title, then ": ", then the detail, and nothing else |
| WebError.ApiErrorFor | pkg/web/error.go:45-88 | a known status keeps its status and detail; an unknown one becomes 500 with the unspecified title and detail; the underlying error is kept |
| WebError.ErrorResponse | pkg/web/error.go:36-91 | the reply has a known status, its body is the text of the error built for the status, and the underlying error is only logged |
| WebError.TitlesOfKnownStatuses | pkg/web/error.go:45-80 | 400, 401, 403, 404 and 500 each get their own title |
| WebError.BodyIgnoresUnderlying | pkg/web/error.go:89-90 | two calls that differ only in the underlying error give the same body and status |
| WebError.SplitJoin | pkg/web/error.go:32-34 | for a title without blanks, splitting "title: detail" at the first ": " gives back the title and the detail |
| WebError.TitlesHaveNoBlank | pkg/web/error.go:13-18 | no title contains a blank |
| WebError.ErrorTextRoundTrip | pkg/web/error.go:32-34 | the title and the detail can be read back from every error body |
| WebError.BodyDeterminesReply | pkg/web/error.go:36-91 | replies with the same body have the same status; for known statuses the status and detail asked for were the same |
| WebJwt.ClaimsAreValid | pkg/web/jwt.go:108-119 | passes iff the issuer is "todo" and a non-zero numeric expiry is not past; a foreign issuer or a malformed expiry fails; with the issuer "todo", an absent expiry or an expiry of 0 (which golang-jwt reads as absent) panics |
| WebJwt.AccessClaims | pkg/web/jwt.go:19-23 | the claims have issuer "todo" and the user id as subject, and after the epoch read back the expiry 30 minutes after issue |
| WebJwt.CreateAccessToken | pkg/web/jwt.go:17-29 | a token it returns deserializes to the HS256 signature of those claims under the secret as bytes; the claims read back carry iss "todo", the user id as a string subject and, after the epoch, an expiry 30 minutes on |
| WebJwt.IsExpired | pkg/web/jwt.go:103-106 | expired iff now is after the expiry; its boundary is IsExpiredIsStrict |
| WebJwt.ClaimsAreValidFailClosed | pkg/web/jwt.go:108-119 | true iff the issuer is "todo" and a non-zero numeric expiry is present and not past |
| WebJwt.ClaimsWithoutExpiryPanic | pkg/web/jwt.go:109-114 | claims of issuer "todo" without an expiry, or with the expiry 0, make the check panic, while the fail-closed check refuses them |
| WebJwt.FailClosedAgrees | pkg/web/jwt.go:108-119 | wherever the check does not panic, the fail-closed check agrees with it; where it panics, the fail-closed check is false |
| WebJwt.IsExpiredIsStrict | pkg/web/jwt.go:103-106 | a token is expired only once now is after its expiry; at the expiry second it is still valid |
| WebJwt.DefaultKeyFunc | pkg/web/jwt.go:121-127 | returns a key iff the algorithm is HS256, and then it is the secret as bytes |
| WebJwt.Auth | pkg/web/jwt.go:32-101 | every rejection is 401 with the unauthorized title and the invalid-token detail; what it forwards is stated by AuthForwardsExactlyAdmitted |
| WebJwt.AuthForwardsExactlyAdmitted | pkg/web/jwt.go:34-99 | Auth forwards exactly when the token decodes, is HS256, verifies under the secret, is accepted by the library, passes the claim check and has a string subject; it forwards the context with the user id mapped to that subject |
| WebJwt.AuthRejectsUniformly | pkg/web/jwt.go:34-96 | whatever step fails, the rejection carries the same 401 error |
| WebJwt.AuthRejectsEmptyHeader | pkg/web/jwt.go:34-41 | an empty `x-jwt-token` header is refused with the parse-failure cause |
| WebJwt.AuthRejectsOtherMethods | pkg/web/jwt.go:121-127 | a token whose algorithm is not HS256 is refused |
| WebJwt.AuthRejectsForeignSecret | pkg/web/jwt.go:34-49 | a token signed with a different secret is refused |
| WebJwt.AuthRejectsForeignIssuer | pkg/web/jwt.go:114 | a token whose issuer is not "todo" is refused |
| WebJwt.AccessTokenRoundTrip | pkg/web/jwt.go:17-29 | a token issued after the epoch parses to issuer "todo", the user id and an expiry 30 minutes after issue, and is forwarded with that user id until then |
| WebJwt.AccessTokenExpires | pkg/web/jwt.go:22 | 31 minutes after issue (after the epoch) the token is refused |
| OldJwt.Auth | old/jwt.go:60-103 | every rejection is the uniform unauthorized answer |
| OldJwt.AccessClaims | old/jwt.go:20-24 | the claims have issuer "todo" and the numeric user id as subject, and after the epoch read back the expiry 30 minutes after issue |
| OldJwt.CreateAccessToken | old/jwt.go:17-31 | a token it returns deserializes to the HS256 signature of those claims under the secret as bytes; the claims read back carry iss "todo", the integer subject, no audience and, after the epoch, an expiry 30 minutes on |
| OldJwt.IsExpired | old/jwt.go:33-36 | expired iff now is after the expiry, as in the current code (SameRulesAsCurrent) |
| OldJwt.ClaimsAreValid | old/jwt.go:38-49 | the old claim check; equal to the current one by SameRulesAsCurrent |
| OldJwt.DefaultKeyFunc | old/jwt.go:51-57 | returns a key iff the algorithm is HS256, and then it is the secret as bytes |
| OldJwt.OldAuthForwardsExactlyAdmitted | old/jwt.go:60-103 | auth forwards exactly when the token decodes, is HS256, verifies under the secret, is accepted by the library and passes the claim check, whatever its subject; it forwards the context with USER_ID mapped to that subject, or nil |
| OldJwt.SameRulesAsCurrent | old/jwt.go:33-57 | the old claim check, expiry rule and key function equal the current ones |
| OldJwt.OldAuthAcceptsMore | old/jwt.go:95-101 | whenever the current Auth forwards, the old one forwards the same subject under its own key; both panic on the same requests |
| OldJwt.OldTokensAndCurrentAuth | old/jwt.go:17-31 | an unexpired token issued after the epoch by the old code is forwarded by the old middleware with its numeric subject and refused by the current one |
| OldJwt.OldAuthForwardsAnySubject | old/jwt.go:95-101 | a verified, accepted token that passes the claim check is forwarded with whatever `sub` holds |
| LegacyJwt.Validate | jwt.go:31-39 | returns a token iff parsing gives a valid token, and then it is that token |
| LegacyJwt.AccessClaims | jwt.go:16-22 | the claims have issuer and audience "todo" and the numeric subject, but their textual expiry reads as malformed |
| LegacyJwt.CreateAccessToken | jwt.go:13-29 | a token it returns deserializes to the HS256 signature of those claims under JWT_SECRET_KEY as bytes; the claims read back carry iss and aud "todo" and the integer subject, and their expiry (a time.Time, marshalled as text) reads as malformed |
| LegacyJwt.ValidationKey | jwt.go:33-38 | returns a key iff the algorithm is EdDSA, and then it is the secret as a string |
| LegacyJwt.ValidateJWT | jwt.go:31-39 | validation with that key function; ValidateJWTRejectsEverything states what it returns |
| LegacyJwt.IsExpired | jwt.go:41-44 | true iff now is before the expiry; its effect is OnlyExpiredTokensPass |
| LegacyJwt.WithJWTTodoAuth | jwt.go:46-136 | the chain with validateJWT's key function and isExpired; HandlerNeverRuns states its outcome |
| LegacyJwt.Authorize | jwt.go:69-135 | the handler runs iff the id parses, the lookup succeeds, the numeric subject is the owner, issuer and audience are "todo" and a non-zero numeric expiry passes the expiry test; with a parsed id and a found owner, a missing or non-numeric subject panics; every refusal is 403 Access Denied |
| LegacyJwt.Chain | jwt.go:47-136 | every refusal is 403 Access Denied; any other outcome needs a non-empty header and a token that validates, and is Authorize's outcome on its claims |
| LegacyJwt.ValidateJWTRejectsEverything | jwt.go:31-39 | as written, validateJWT returns no token for any text |
| LegacyJwt.IssuedTokensRefusedByKeyFunction | jwt.go:13-39 | parsing a token from createAccessToken with validateJWT's key function fails because the key is refused |
| LegacyJwt.HandlerNeverRuns | jwt.go:47-136 | as written, every request is refused with 403 Access Denied and the handler never runs |
| LegacyJwt.EmptyHeaderDeniedFirst | jwt.go:49-57 | whatever the key function, expiry test, id and lookup, an empty header is refused |
| LegacyJwt.NonIntegerIdDenied | jwt.go:69-77 | a todo id that is not a decimal integer is refused |
| LegacyJwt.LookupFailureDenied | jwt.go:79-87 | a failed owner lookup is refused |
| LegacyJwt.OwnershipComesFirst | jwt.go:89-97 | once the id parses and the owner is found, a non-numeric subject panics and a numeric subject other than the owner is refused whatever the issuer, audience and expiry |
| LegacyJwt.OnlyExpiredTokensPass | jwt.go:41-44 | with the expiry test as written, the owner's well-formed token passes iff its expiry is non-zero and at or before now |
| LegacyJwt.IssuedClaimsNeverAuthorized | jwt.go:16-22 | the issued claims have issuer and audience "todo" and a numeric subject, but a textual expiry that reads as malformed, so Authorize refuses them |
| LegacyJwt.AccessClaimsIntended | jwt.go:16-22 | the intended claims carry issuer and audience "todo", the numeric subject and the numeric expiry one lifetime after issue, which reads back as that expiry unless it is 0 |
| LegacyJwt.CreateAccessTokenIntended | jwt.go:13-29 | a token it returns deserializes to the HS256 signature of the intended claims under the secret as bytes |
| LegacyJwt.ValidationKeyIntended | jwt.go:33-38 | the intended key function returns a key iff the algorithm is HS256, and then it is the secret as bytes |
| LegacyJwt.IntendedExpiryPassesUnexpired | jwt.go:41-44 | with the intended test, the owner's well-formed token passes iff its expiry is non-zero and now is at or before it |
| LegacyJwt.IntendedChainAdmitsFreshOwnerTokens | jwt.go:47-136 | with the intended pieces, a token issued after the epoch reaches the handler before it expires when its subject owns the todo, is refused when it does not, and never passes once expired |
| LegacyServer.ResponseWriter.constructor | server.go:21-39 | a new writer has no header, status or body |
| LegacyServer.ResponseWriter.SetHeader | server.go:33-35 | sets one header and changes nothing else |
| LegacyServer.ResponseWriter.WriteHeader | server.go:36 | only the first status written counts |
| LegacyServer.ResponseWriter.Write | server.go:37 | the data are appended to the body, with an implicit 200 if no status was written |
| LegacyServer.MakeHTTPHandleFunc | server.go:21-39 | a nil result writes nothing; an error sets all its headers, then its status, then appends its body |
| LegacyServer.PageAndLimit | server.go:244-252 | each value is the parsed query parameter when it parses, else 0 for the page and DEFAULT_LIMIT for the limit |
| LegacyServer.DefaultPageGivesNegativeOffset | server.go:244-252 | without parameters the page is 0 and the limit 10, which store.go turns into the offset -10 |
| LegacyServer.UnparsableValuesFallBack | server.go:244-252 | a value that is not a decimal integer falls back to the default |
| LegacyStore.CalculateOffset | store.go:234-236 | (page-1)*limit without clamping; its laws are the four lemmas below |
| LegacyStore.FirstPageStartsAtZero | store.go:234-236 | page 1 has offset 0 for every limit |
| LegacyStore.PageZeroIsNegative | store.go:234-236 | page 0 with a positive limit gives the negative offset -limit |
| LegacyStore.NextPageAddsLimit | store.go:234-236 | the next page's offset is one limit further |
| LegacyStore.OffsetStrictlyIncreasing | store.go:234-236 | with a positive limit, a later page has a strictly larger offset |
| DbOffset.Abs | pkg/db/offset.go:5-7 | the value is non-negative and equals the argument or its negation |
| DbOffset.CalculateOffset | pkg/db/offset.go:3-9 | the offset is never negative and is the magnitude of (page-1)*pageSize |
| DbOffset.FirstPageStartsAtZero | pkg/db/offset.go:3-9 | page 1 has offset 0 |
| DbOffset.NoFlipFromPageOne | pkg/db/offset.go:3-9 | from page 1 on with a non-negative size the offset is (page-1)*pageSize, as store.go computes it |
| DbOffset.PageZeroIsPageTwo | pkg/db/offset.go:3-9 | page 0 gets the offset of page 2 |
| DbOffset.AgreesWithStoreUpToSign | pkg/db/offset.go:3-9 | the offset is the magnitude of store.go's offset, so the two differ exactly where store.go's is negative |
| Config.ApplyOption | internal/config/config.go:26-47 | runs one option closure on the settings; what each kind writes is stated by the three lemmas below |
| Config.ServerOptionsWriteOnlyTheirFields | internal/config/config.go:26-33 | WithServerOptions sets env, listen address, payload size and connection string and leaves the other four fields unchanged |
| Config.LoggerOptionsWriteOnlyTheirFields | internal/config/config.go:35-40 | WithLoggerOptions sets the level and output and leaves the other six fields unchanged |
| Config.JWTOptionsWriteOnlyTheirFields | internal/config/config.go:42-47 | WithJWTOptions sets the secret and token expiry and leaves the other six fields unchanged |
| Config.ApplyAll | internal/config/config.go:20-22 | runs the options left to right; its laws are ApplyAllAppend, LaterOptionOverwrites and SameKindLastWins |
| Config.Configv2.constructor | internal/config/config.go:19 | a new configuration is the zero value |
| Config.Configv2.Apply | internal/config/config.go:26-47 | applying an option updates the fields as ApplyOption says |
| Config.New | internal/config/config.go:18-24 | the result is fresh and holds the zero configuration with the options applied left to right |
| Config.NoOptionsGiveZero | internal/config/config.go:18-24 | no options give the zero configuration |
| Config.ApplyAllAppend | internal/config/config.go:20-22 | applying a concatenation of option lists applies one list after the other |
| Config.LaterOptionOverwrites | internal/config/config.go:20-22 | an option given last determines its own fields |
| Config.SameKindLastWins | internal/config/config.go:20-22 | of two options of the same kind only the second has an effect |
| Config.DifferentKindsCommute | internal/config/config.go:26-47 | options of different kinds can be given in either order |
| Config.OneOfEachInAnyOrder | internal/config/config.go:26-47 | one option of each kind gives the same configuration in all six orders |
| TodoModels.EmptyTaskListIsValid | internal/todo/models.go:19-21 | with author and name, a request with an empty task list is valid and one without a list is not |
| TodoModels.RequestIgnoresTaskValidity | internal/todo/models.go:19-21 | a valid request stays valid whatever tasks it lists, even invalid ones |
| TodoModels.TaskOrderMustBePositive | internal/todo/models.go:32-34 | a task with an order of 0 or less is invalid; with todo id and content it is valid iff its order is at least 1 |
| TodoModels.ZeroValuesInvalid | internal/todo/models.go:19-34 | the zero task and the zero request are invalid |
| TodoModels.Task.Valid | internal/todo/models.go:32-34 | a task needs a todo id, content and a positive order; TaskOrderMustBePositive states the order rule |
| TodoModels.TodoRequest.Valid | internal/todo/models.go:19-21 | a request needs an author, a name and a non-nil task list; EmptyTaskListIsValid and RequestIgnoresTaskValidity state it |
| UserModels.IsEmail | internal/user/models.go:25-28 | panics iff the parser rejects the input; holds iff the input parses and formats back to itself |
| UserModels.IsEmailChecked | internal/user/models.go:25-28 | the checked version is true iff the as-written check holds |
| UserModels.UserRequest.Valid | internal/user/models.go:21-23 | holds iff the email is non-empty, the email check holds and the password is non-empty; panics iff the email is non-empty and the email check panics |
| UserModels.UserRequest.ValidChecked | internal/user/models.go:21-28 | the non-panicking validator; CheckedAgreesWithWritten relates it to Valid |
| UserModels.EmptyEmailRejected | internal/user/models.go:21-23 | an empty email fails, never panics |
| UserModels.EmptyPasswordRejected | internal/user/models.go:21-23 | a request with an empty password never holds |
| UserModels.ValidImpliesIsEmail | internal/user/models.go:21-28 | a request that holds has a well-formed email |
| UserModels.ZeroValueInvalid | internal/user/models.go:21-23 | the zero request fails |
| UserModels.UnparseableEmailPanics | internal/user/models.go:25-28 | a non-empty email the parser rejects makes Valid panic |
| UserModels.CheckedAgreesWithWritten | internal/user/models.go:25-28 | wherever Valid does not panic, the checked version agrees with it; where it panics, the checked version is false |
| TodoRepository.TasksOf | internal/todo/repository.go:167-183 | every result row belongs to the todo and is in the table, and every table row of the todo is in the result |
| TodoRepository.Adopted | internal/todo/repository.go:62-70 | every task is re-keyed to the new todo's id and otherwise kept, in order |
| TodoRepository.UpdatedTasks | internal/todo/repository.go:185-191 | rows with the given id get the new content and done flag; other rows are unchanged |
| TodoRepository.WithoutTask | internal/todo/repository.go:193-200 | exactly the rows with the given id are removed |
| TodoRepository.UpdatedTodos | internal/todo/repository.go:130-138 | an empty name changes nothing; otherwise only the name of the given id changes, and the keys and authors are kept |
| TodoRepository.UpdateError | internal/todo/repository.go:130-138 | an update fails iff its name is non-empty and the store fails |
| TodoRepository.CreateAttempt | internal/todo/repository.go:32-78 | when the store works and the id is new, the todo has that id and the request's author, name and tasks; otherwise it is the zero todo; the error is nil iff the store works and the id generator either failed or gave a new id |
| TodoRepository.Repository.constructor | internal/todo/repository.go:22-24 | a new repository has empty tables and the given faults |
| TodoRepository.Repository.Lookup | internal/todo/repository.go:80-104 | the todo is found iff the store works and the id is stored, with the stored author and name and TasksOf its id; a miss is never "not found" |
| TodoRepository.Repository.CollectTasks | internal/todo/repository.go:93-101 | the loop collects exactly TasksOf the todo from the task rows |
| TodoRepository.Repository.GetByID | internal/todo/repository.go:80-104 | the answer is Lookup's |
| TodoRepository.Repository.GetTasks | internal/todo/repository.go:167-183 | returns TasksOf the todo, or an error under a fault |
| TodoRepository.Repository.Create | internal/todo/repository.go:32-78 | the result is CreateAttempt's; when it stores, the row and the re-keyed tasks are added; otherwise both tables are unchanged |
| TodoRepository.Repository.Update | internal/todo/repository.go:130-138 | the error is UpdateError's; on success the todos become UpdatedTodos, on failure they are unchanged; the task rows never change |
| TodoRepository.Repository.DeleteTodo | internal/todo/repository.go:140-147 | without a fault the todo row is removed and nothing else changes; a fault is reported and changes nothing |
| TodoRepository.Repository.CreateTask | internal/todo/repository.go:153-165 | succeeds iff an id was generated and the store works, then the task is appended with that id; otherwise nothing changes |
| TodoRepository.Repository.UpdateTask | internal/todo/repository.go:185-191 | without a fault the task rows become UpdatedTasks; a fault is reported and changes nothing |
| TodoRepository.Repository.DeleteTask | internal/todo/repository.go:193-200 | without a fault the task rows become WithoutTask; a fault is reported and changes nothing |
| TodoRepository.CreatedTodoReadsBack | internal/todo/repository.go:44-104 | after a create into fresh rows, the todo's task rows are exactly the re-keyed tasks of the request |
| TodoRepository.TasksOfAppendForeign | internal/todo/repository.go:167-183 | when the earlier rows belong to other todos and the appended rows to this one, the todo's tasks are exactly the appended rows |
| TodoRepository.UpdateKeepsOwnership | internal/todo/repository.go:130-138 | an update never changes the author of any todo |
| TodoRepository.IdFailureReportedAsSuccess | internal/todo/repository.go:39-42 | when the id generator fails, Create reports success with the zero todo and stores nothing |
| TodoRoutes.ReadJSON | pkg/web/web.go:29-46 | the body is accepted iff it decoded and its value is valid, and then it is unchanged; a decoded but invalid value gives ErrInvalidValue |
| TodoRoutes.AfterWrite | internal/todo/routes.go:46-52 | a store error gives 500 with its cause; success gives the success response |
| TodoRoutes.CreatePlan | internal/todo/routes.go:30-57 | an invalid body is 400; a body whose author is not the context user is 403; the create is performed iff the body is valid and its author is the user |
| TodoRoutes.CreateReadsBodyFirst | internal/todo/routes.go:34-44 | a body that does not decode is 400 whoever the user is |
| TodoRoutes.HandleCreate | internal/todo/routes.go:30-57 | answers as CreatePlan says; a performed create answers 201 with the todo or 500; when CreateAttempt stores, the todo row and the re-keyed tasks are added, otherwise neither table changes |
| TodoRoutes.AccessDecision | internal/todo/routes.go:105-126 | no user is 400, a missing todo 404, a lookup failure 500 with its cause, a non-owner 403; access is granted iff the user is the author |
| TodoRoutes.AccessDecisionOrdered | internal/todo/routes.go:105-121 | without a user the answer is the same whatever the lookup; a todo that is not found is 404 or 500 whoever asks |
| TodoRoutes.GetByIDResponse | internal/todo/routes.go:101-133 | the owner gets 200 with the todo; everyone else gets the access decision's error |
| TodoRoutes.HandleGetByID | internal/todo/routes.go:101-133 | answers GetByIDResponse for the repository's lookup |
| TodoRoutes.UpdatePlan | internal/todo/routes.go:135-178 | an access denial comes first, then an invalid body is 400; the update is performed iff access is granted and the body decodes, and only for the author |
| TodoRoutes.NonOwnerNeverSeesBodyError | internal/todo/routes.go:145-166 | a non-owner is refused with 403 whatever the body |
| TodoRoutes.HandleUpdate | internal/todo/routes.go:135-178 | answers as UpdatePlan says; a performed update answers 200 or 500 and changes the todos as Update does; otherwise nothing changes |
| TodoRoutes.DeletePlan | internal/todo/routes.go:180-212 | an access denial is answered; the delete is performed iff access is granted, and only for the author |
| TodoRoutes.HandleDelete | internal/todo/routes.go:180-212 | answers as DeletePlan says; a performed delete writes nothing and removes the todo, or answers 500 "failed to delete todo" and changes nothing |
| TodoRoutes.WritesOnlyForOwner | internal/todo/routes.go:145-200 | the update and delete plans write only for a found todo whose author is the user |
| TodoRoutes.MissingTodoIsInternalError | internal/todo/routes.go:111-121 | an id that is not stored is answered with 500 by GetByID and Delete, never 404 |
| TodoRoutes.PageAndLimit | internal/todo/routes.go:60-74 | each value is the parsed query parameter when it parses, else the default page 1 and limit 10 |
| TodoRoutes.QueryDefaults | internal/todo/routes.go:60-74 | without parameters the page is 1 and the limit 10, giving offset 0 |
| TodoRoutes.QueryReadsBack | internal/todo/routes.go:67-74 | the decimal text of two int64 values reads back as those values |
| TodoRoutes.GetForUser | internal/todo/routes.go:59-99 | no user is 400; otherwise the listing for the user, limit and page decides: no todos 404, a failure 500, else 200 with the todos |
| TodoRoutes.TaskPlan | internal/todo/routes.go:214-275 | the write is performed iff the task body decodes and is valid; otherwise 400 |
| TodoRoutes.HandleCreateTask | internal/todo/routes.go:214-234 | an invalid body is 400 and changes nothing; otherwise the task is appended and 200 answered, or 500 "failed to create task" is answered and nothing changes |
| TodoRoutes.HandleGetTasks | internal/todo/routes.go:236-253 | answers 200 with TasksOf the todo, or 500 "failed to retrieve tasks" under a fault |
| TodoRoutes.HandleUpdateTask | internal/todo/routes.go:255-275 | an invalid body is 400 and changes nothing; otherwise the rows become UpdatedTasks and 200 is answered, or 500 "failed to update task" is answered and nothing changes |
| TodoRoutes.HandleDeleteTask | internal/todo/routes.go:277-292 | the rows with the id are removed and 200 answered, or 500 "failed to delete task" is answered and nothing changes |
| TodoRoutes.AuthThenOwnership | internal/todo/routes.go:111-126 | when Auth admits a token for a user, it forwards, the handlers see that user, and access to a todo is granted iff the user is its author |
| SqlColumns.AsWrittenRoundTrip | internal/todo/repository.go:56-84 | as written, insert then select reads back the todo because the two swaps cancel |
| SqlColumns.AsWrittenRenameTransfersOwnership | internal/todo/sql.go:10 | as written, renaming a todo makes the new name its author and keeps the old name |
| SqlColumns.AsWrittenRenameExample | internal/todo/sql.go:10 | renaming alice's todo to "groceries" makes "groceries" its author |
| SqlColumns.AsWrittenListingMatchesName | internal/todo/sql.go:7 | as written, a user's listing matches the todos whose name is the user id |
| SqlColumns.RoundTrip | internal/todo/sql.go:4-8 | with field-order bindings insert then select reads back the todo |
| SqlColumns.RenameKeepsOwnership | internal/todo/sql.go:10 | with field-order bindings a rename changes only the name, as UpdatedTodos does, and the listing matches the author |

## Left out

- Token encoding and cryptography are abstract. The base64url/JSON
  encoding and the HMAC computation are the `JwtLibrary` parameter. A
  signature is idealised as a record of its algorithm, key and claims.
- The library's own registered-claim validation is abstract. It is the
  `accepts` parameter, which `Faithful` requires to accept a token whose
  numeric expiry is still ahead; nothing else about it is assumed.
- Time is whole seconds. Monotonic clocks and sub-second parts of
  `time.Time` are not modelled.
- JSON numbers are integers in the model. A float64 claim and the
  truncation of `int(claims["sub"].(float64))` are not modelled; a numeric
  subject is a `Num`.
- The JSON encoding of the error body is not modelled. `ErrorResponse`
  writes the error text as a JSON string. The model's body is that text
  before encoding.
- Write failures of `WriteJSON` are not modelled. The "failed to produce
  response" path of the handlers is left out.
- SQL execution is reduced to table updates: a map of todo rows and a
  sequence of task rows.
  - The ordering, LIMIT and OFFSET of `GetByUserID` are abstract. They are
    the `list` parameter of `TodoRoutes.GetForUser`.
  - The transactions and rollbacks of `Create` are not modelled
    step by step. A fault leaves the tables unchanged.
  - No foreign keys are modelled. Deleting a todo leaves its task rows
    behind.
- The column swap of the todo statements is modelled in `SqlColumns`
  only. `TodoRepository` models the bindings in field order.
- Password hashing (bcrypt), the user repository and the user routes are
  not modelled, nor are the login and registration handlers.
- The internals of `mail.ParseAddress` are a parameter.
- Logging is not modelled beyond the `logged` field of a reply.
- Routing, muxes and the other handleGetTodos branches of server.go are
  not modelled.
- int64 overflow is not modelled. `(page-1)*limit` in both offset
  computations and `offset * -1` on the smallest int64 are unbounded in
  the model.
- The response headers and body of `apiErrorV2` are an `ApiFailure`
  record. The body is empty when producing it failed.
- server.go's `withJWTTodoAuth` is the `LegacyJwt` chain. Its Storer
  lookup is the `owner` parameter.
- The configured `tokenExpiry` is not used by the token code, which
  hard-codes 30 minutes. The model does the same.
- Request contexts in the task handlers are passed on and otherwise
  unused. The model leaves them out.
- `Http.Query` keeps only the first value of each query parameter, which
  is what `Query().Get` returns.
- The issue time of the token lemmas (`AccessTokenRoundTrip`,
  `AccessTokenExpires`, `OldTokensAndCurrentAuth`,
  `IntendedChainAdmitsFreshOwnerTokens`) is after the Unix epoch, as
  `time.Now()` is. An issue 30 minutes before the epoch would give the
  expiry 0, which golang-jwt reads as no expiry.
- Row order of a task listing: `TasksOf` returns the rows in table order,
  but the task SELECT (internal/todo/sql.go:6) has no ORDER BY, so the
  database may return them in any order.
- The error-response bodies of the handlers are stated through
  `ErrorResponse(500, detail, _)`; the cause logged with them is the
  repository's and is not named.

## Findings

| source | as written | input that shows it | evidently intended | confidence | as-written member | corrected member |
|---|---|---|---|---|---|---|
| pkg/web/jwt.go:108-119 | `claimsAreValid` ignores the error of `GetExpirationTime`. It then reads `expiration.Time` from the nil pointer returned for an absent `exp`, or for an `exp` of 0 | a valid HS256 token with the claims `{"iss":"todo","sub":"u1"}` and no `exp`, or with `"exp":0` | a token without an expiry is refused with 401 (fail closed) | not executed | WebJwt.ClaimsWithoutExpiryPanic | WebJwt.FailClosedAgrees |
| internal/user/models.go:25-28 | `isEmail` calls `address.String()` before testing `err`. For an unparseable input the address is nil | the email "not-an-email" with a non-empty password | `Valid` returns false | not executed | UserModels.UnparseableEmailPanics | UserModels.CheckedAgreesWithWritten |
| jwt.go:41-44 | `isExpired` is `now.Before(expiresAt)`, true for a token that has not yet expired | a token whose expiry is 60 seconds in the future is refused; one that expired 60 seconds ago passes | a token passes while now is not after its expiry | not executed | LegacyJwt.OnlyExpiredTokensPass | LegacyJwt.IntendedExpiryPassesUnexpired |
| jwt.go:31-39 | `validateJWT` accepts only Ed25519 and returns the string secret as the key, while `createAccessToken` signs with HS256 | any token produced by `createAccessToken` | the key function accepts HS256 and returns the byte secret | not executed | LegacyJwt.HandlerNeverRuns | LegacyJwt.IntendedChainAdmitsFreshOwnerTokens |
| jwt.go:16-22 | `exp` and `iat` are `time.Time` values, which encode as RFC 3339 text, not as the numeric date `GetExpirationTime` reads | any token produced by `createAccessToken` | `exp` and `iat` are numeric dates | not executed | LegacyJwt.IssuedClaimsNeverAuthorized | LegacyJwt.AccessClaimsIntended |
| internal/todo/repository.go:56 | `insertTodoQuery` lists (id, name, author_id), and `Create` binds t.ID, t.AuthorID, t.Name. The scans of `selectTodoQuery` are swapped the same way. So the rename of `updateTodoQuery` writes into the column read back as the author | alice renames her todo "shopping" to "groceries". It is then read back with author "groceries", and alice gets 403 | binding and scanning in column order, so that a rename keeps the author | not executed | SqlColumns.AsWrittenRenameTransfersOwnership | SqlColumns.RenameKeepsOwnership |
