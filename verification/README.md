# Request-processing core of a net/http REST API, in Dafny

This project models the request-processing layer of a Go REST service for
user accounts, built on net/http. The HTTP transport, the database driver and
the cryptographic libraries are left out. The model covers:

- the reflective row scanner, which maps result columns to `db`-tagged record
  fields and appends rows in order;
- the request binders: query strings, JSON and multipart bodies, and the
  pagination request with its validation rules;
- the joining of validator messages;
- the middleware decision procedures: the fixed-window rate limiter, the
  service-key gate with its one-minute freshness window, the Bearer-token
  gate and request-id propagation;
- service-key decryption: hex, CBC over an abstract AES block cipher, and the
  unpadding;
- access/refresh claim construction and token verification;
- the `{"s","m","r","c"}` response envelope and its status helpers, and the
  application error type;
- the user repository: the transaction discipline, the batched statistics
  lookup and its mock fallback;
- the credential check and the sign-up record;
- the two user-listing handlers;
- upload acceptance, storage naming and the bounded random helpers.

Everything is pure functions over immutable datatypes. Each Go source file of
the core has its own module.

Outside calls are parameters of function type, i.e. oracles:

- the database (`lookup`, `findAll`, `insert`, `getList`) and the driver's
  value conversion (`convert`);
- the AES block cipher, bcrypt (`hash`, `compare`) and HS256 signing;
- the compact-token decoder (`decode`), which reports the header algorithm,
  the claims and whether the signature verifies;
- JSON decoding of the key payload (`dateTimeOf`) and RFC 3339 parsing
  (`parseTime`), as in section 5.6 of RFC 3339;
- `mime.ParseMediaType` (`mediaType`), `http.DetectContentType` (`sniff`),
  `filepath.Clean` (`clean`) and `net.SplitHostPort` (`split`);
- the go-playground validator (`validate`);
- `crypto/rand` (`draw`).

Four more inputs are plain parameters:

- the clock: `now`, an integer count of nanoseconds;
- generated UUIDs: `generated`, `uuid` and `id`;
- the file-system outcomes of an upload (`Disk`);
- the limiter's client map: explicit state, passed in and returned.

Hex decoding (section 8 of RFC 4648) and the decimal conversions of `strconv`
are modelled concretely. So is CBC chaining over the block oracle, so that
lengths and the padding round trip can be proved.

Go panics are explicit outcomes (`Panicked`, `ScanPanicked`, `BindPanicked`,
`RandPanicked`, `OtpPanicked`). A panic in the service-key gate ends as
`Aborted`: the chain that gate sits in has no recovering middleware, so
net/http drops the connection without a response. Go's `int` is taken to be
64 bits wide, and its `int` and `int64` arithmetic is written out with
`Wrap64` where it matters.

Modules and files:

- `common.dfy`: Common. Option/Result/error, strings and int64 wrap-around.
- `strconv.dfy`: StrConv.
- `hex.dfy`: Hex.
- `structs.dfy`: Structs. Field declarations, tags, kinds and values.
- `model.dfy`: Model. User, UserStats and their field layouts.
- `apperr.dfy`: AppErr.
- `response.dfy`: Response.
- `http.dfy`: Http. Requests and middleware decisions.
- `jwt.dfy`: Jwt.
- `jwt_gate.dfy`: JwtGate.
- `request_id.dfy`: RequestId.
- `rate_limit.dfy`: RateLimit.
- `crypto.dfy`: Crypto.
- `api_key.dfy`: ApiKey.
- `scanner.dfy`: Scanner.
- `binder.dfy`: Binder.
- `request_error.dfy`: RequestError.
- `auth_repo.dfy`: AuthRepo.
- `user_repo.dfy`: UserRepo.
- `user_service.dfy`: UserService.
- `upload.dfy`: Upload.
- `random.dfy`: Random.

## Model

| member | source | states |
|---|---|---|
| Scanner.TagIndex | internal/pkg/db/scanner.go:26-32 | Every non-empty `db` tag is a key. A key maps to a field carrying that tag, and no later field carries it: the later-declared field wins. The empty tag is never a key. |
| Scanner.BuildPlan | internal/pkg/db/scanner.go:15-42 | One entry per column. Each entry is -1 or a field index. It is -1 exactly when no field's `db` tag equals the column name. Otherwise the chosen field carries that name and no later field does. |
| Scanner.PlanByName | internal/pkg/db/scanner.go:35-39 | A column's plan entry depends only on its name. Reordering or changing the other columns does not change it. |
| Scanner.RowIntoSucceeds | internal/pkg/db/scanner.go:99-110 | A row scans without error exactly when every planned column converts. Skipped columns go to a throwaway slot and never fail. |
| Scanner.RowIntoFrame | internal/pkg/db/scanner.go:99-110 | A field that no column is planned into keeps its value. |
| Scanner.RowIntoAssigns | internal/pkg/db/scanner.go:101-110 | After a successful row, a planned field holds the conversion of the last column planned into it. |
| Scanner.ScanItem | internal/pkg/db/scanner.go:98-111 | Destinations are one per plan entry. A row whose cell count differs from that gets the driver's arity error, and the record is untouched. |
| Scanner.ScanRows | internal/pkg/db/scanner.go:83-95 | The existing slice elements are a prefix of the result. At most one record is appended per row. Stopping before the last row always carries an error. |
| Scanner.ScanRowsItems | internal/pkg/db/scanner.go:83-94 | The k-th appended record is row k scanned into a fresh zero record, and that row scanned without error. |
| Scanner.ScanRowsError | internal/pkg/db/scanner.go:83-95 | An early stop reports the failing row's own error. A full pass reports the iterator's final error. |
| Scanner.Scan | internal/pkg/db/scanner.go:45-72 | A non-pointer gives "dst must be a pointer". A Columns error is returned. A target that is neither slice nor struct is "unsupported dst type". A struct with no rows gives ErrNoRows and is untouched. A struct with rows panics iff its plan takes an unexported field, and otherwise receives exactly the first row's scan (value and error). A slice keeps its old items and, without error, grows by exactly the number of rows. Exported fields never panic. |
| Scanner.SliceScanAppendsRows | internal/pkg/db/scanner.go:74-96 | A successful slice scan yields the old items followed by every row's record, in row order. |
| Scanner.SingleReadsFirstRow | internal/pkg/db/scanner.go:63-69 | A struct scan reads only the first row. Later rows and the iterator's error make no difference. |
| Scanner.FlattenFlat | internal/pkg/db/scanner.go:27-32 | On a record with no promoted embedded struct, the corrected flattening changes nothing, so the plan is the same. |
| Scanner.FlattenKeepsPromoted | internal/rest-api/repository/auth.go:39-42 | Every field of a promoted embedded struct is among the flattened fields. |
| Binder.QueryField | internal/pkg/request/validate.go:27-60 | A field with no `query` tag, an empty value or an unexported field is unchanged. Kinds other than string/int/int64/bool are unchanged. For a tagged, exported field with a non-empty value: a string field takes the value verbatim, an int/int64 field takes the parsed integer when Atoi succeeds and is unchanged otherwise, and a bool field likewise with ParseBool. A field changes only in these ways. |
| Binder.BindQuery | internal/pkg/request/validate.go:23-63 | Every field is bound independently. The returned error is exactly the validator's verdict on the populated record. |
| Binder.QueryIntRoundTrip | internal/pkg/request/validate.go:47-54 | Any int64 written in decimal is bound back to itself. |
| Binder.QueryBoolRoundTrip | internal/pkg/request/validate.go:55-58 | "true" and "false" are bound back to the boolean. |
| Binder.FieldFor | internal/pkg/request/validate.go:101-108 | A JSON key selects an exported field with exactly that JSON name. A tagged field beats untagged ones, and the selected field is the only candidate of its standing. No field is selected exactly when no exported field has exactly that name, or two candidates of the same standing tie. |
| Binder.DecodeMember | internal/pkg/request/validate.go:104-107 | One member: it is stored into exactly its field when its key selects a field and its value fits, and every other field is unchanged. An unknown key or an ill-typed value saves an error unless one is already saved. |
| Binder.DecodeMembers | internal/pkg/request/validate.go:104-107 | With unknown fields disallowed, decoding reports no error exactly when every key selects a field and every value fits it. The first error is kept. |
| Binder.DecodeMembersUntouched | internal/pkg/request/validate.go:104-107 | A field that no fitting member is stored into keeps its value, even when decoding fails. |
| Binder.DecodeMembersLastWins | internal/pkg/request/validate.go:104-107 | A field ends with the value of the last member stored into it, so later duplicates overwrite earlier ones. |
| Binder.DecodeJSON | internal/pkg/request/validate.go:101-108 | A malformed body returns its syntax error and leaves the record unchanged. |
| Binder.UnknownKeyRejected | internal/pkg/request/validate.go:105 | A body with a key that no exported field carries exactly is rejected. |
| Binder.BindMultipart | internal/pkg/request/validate.go:110-152 | A parse error is returned and nothing is written. A form-tagged field takes its non-empty form value. A file-tagged field takes the first file under its key and overrides the form pass. A field with neither keeps its value. Setting a field of the wrong kind panics, exactly when such a target exists. |
| Binder.Bind | internal/pkg/request/validate.go:73-99 | Any media type other than application/json or multipart/form-data returns "unsupported content type" without validation. A binding error is returned as is. The validator runs only after a successful binding, and its verdict is the result. |
| Binder.BindValidatesLast | internal/pkg/request/validate.go:80-96 | When binding itself fails, the validator is never consulted: any two validators give the same answer. |
| Binder.PaginationRules | internal/pkg/request/validate.go:17-20 | Passes exactly when the limit is 0 or within 1..100 and the offset is at least 0. Otherwise one or two field errors result. |
| Binder.BindPagination | internal/pkg/request/validate.go:17-63 | The pagination record bound from the query holds two ints, and the error is exactly the pagination rules' verdict on it. |
| Binder.PaginationLimit | internal/pkg/request/validate.go:17-63 | A decimal limit and no offset bind to that limit and offset 0. The request passes iff the limit is 0 or within 1..100. |
| RequestError.FieldMessages | internal/pkg/request/error.go:13-16 | One message per field error. |
| RequestError.ValidationError | internal/pkg/request/error.go:10-20 | A non-validator error is returned unchanged. A validator error becomes one text error: "<Field> is invalid" for a single field, messages joined by ", " otherwise. |
| RequestError.MessagesRecoverable | internal/pkg/request/error.go:13-17 | Splitting the joined message at its commas gives back exactly one "<Field> is invalid" per field error, in the validator's order. |
| RateLimit.Hit | internal/pkg/middleware/rate_limit.go:33-46 | An unseen address starts at count 0 with zero lastSeen. The count resets when more than a minute has passed (strictly). Every request, refused or not, increments the count and sets lastSeen to now. Only the requesting address's entry changes, and no entry is removed. The request is allowed iff the new count is at most 100. |
| RateLimit.RateLimit | internal/pkg/middleware/rate_limit.go:27-57 | An allowed request is forwarded unchanged. Any other request gets TooManyRequests and the next handler is not called. The state is the step's state either way. |
| RateLimit.Run | internal/pkg/middleware/rate_limit.go:27-57 | One verdict per request of a series. |
| RateLimit.RunFromCount | internal/pkg/middleware/rate_limit.go:39-52 | Starting from count n with gaps of at most a minute, request k is allowed iff n + k + 1 <= 100. |
| RateLimit.Burst | internal/pkg/middleware/rate_limit.go:22-52 | A new or idle address with gaps of at most a minute gets exactly its first 100 requests through. |
| RateLimit.ResetAfterWindow | internal/pkg/middleware/rate_limit.go:39-41 | After more than a minute of silence the next request is allowed with count 1. |
| RateLimit.RefusedStaysRefused | internal/pkg/middleware/rate_limit.go:43-52 | A refused address that keeps calling within a minute stays refused, because refused requests refresh lastSeen. |
| Crypto.CbcDecrypt | internal/pkg/utils/crypto.go:31-32 | CBC decryption preserves the length. |
| Crypto.CbcRoundTrip | internal/pkg/utils/crypto.go:31-32 | Given inverse block ciphers, CBC decryption undoes CBC encryption under the same IV. |
| Crypto.Decipher | internal/pkg/utils/crypto.go:15-32 | Hex failure is reported before any decryption. Whole-block data always decrypts, to the CBC decryption of the bytes under the fixed IV. Any other length gives "invalid block size". |
| Crypto.Unpad | internal/pkg/utils/crypto.go:35-37 | Defined exactly when the data is non-empty and its last byte is at most its length. The result is the data minus that many trailing bytes, a prefix of it. |
| Crypto.PaddingBytesIgnored | internal/pkg/utils/crypto.go:35-37 | Only the last byte is consulted. Data that agrees in the kept prefix and the last byte unpads the same, whatever the other padding bytes hold. |
| Crypto.DecryptKey | internal/pkg/utils/crypto.go:15-38 | As written: it fails exactly when deciphering fails, panics exactly when the unpad bound is violated, and otherwise returns the text of the deciphered data with as many trailing bytes removed as its last byte says. |
| Crypto.DecryptKeyPanics | internal/pkg/utils/crypto.go:27-37 | As written, the empty key panics, and so does the key of any single block whose decryption ends in a byte above 16. The corrected version returns an error for that key. |
| Crypto.DecryptKeyChecked | internal/pkg/utils/crypto.go:15-38 | Never panics. Hex and block-size errors are as written. Its text is the unpadded deciphered data. It agrees with DecryptKey wherever that does not panic. |
| Crypto.UnpadPad | internal/pkg/utils/crypto.go:35-37 | Unpadding undoes the padding a client applies. |
| Crypto.DecryptKeyRoundTrip | internal/pkg/utils/crypto.go:15-38 | A key made by a well-behaved client decrypts to exactly its payload, in both definitions. |
| Hex.Decode | internal/pkg/utils/crypto.go:17-20 | Successful decoding yields one byte per two characters. |
| Hex.DecodeAccepts | internal/pkg/utils/crypto.go:17-20 | Decoding succeeds exactly on even-length strings of hex digits. |
| Hex.DecodeEncode | internal/pkg/utils/crypto.go:17-20 | Decoding inverts hex encoding. |
| ApiKey.APIKey | internal/pkg/middleware/api_key.go:17-79 | A path containing "webhook" or "swagger" is forwarded with no header check. An empty key gives TokenMissing. The literal development key is forwarded without decryption. Otherwise the request is aborted, with no response, iff DecryptKey panics on the key. It is forwarded iff the key decrypts, its JSON yields a date_time, that parses, and the token is at most a minute old. Every other refusal is UnauthorizedAccess. A forwarded request is unchanged. |
| ApiKey.FreshnessWindow | internal/pkg/middleware/api_key.go:61-77 | For a key a client made from a payload with time t: accepted iff now - t <= 1 minute. 59 s and exactly 60 s are accepted, 61 s is refused, and future timestamps are accepted. |
| ApiKey.OverlongPadAborts | internal/pkg/middleware/api_key.go:43 | A hex key of one block whose decryption ends in a byte above 16 aborts the request, and the wrapped handler never runs. |
| ApiKey.MalformedKeyRefused | internal/pkg/middleware/api_key.go:43-49 | A key that is not hex, or whose length is not whole blocks, is refused as UnauthorizedAccess. |
| Jwt.NumericDate | internal/pkg/utils/jwt.go:51-52 | The instant truncated to whole seconds. |
| Jwt.AccessClaims | internal/pkg/utils/jwt.go:44-54 | Copies UserID, Email, Role and UUID. Type is "access" whatever the seed says. IssuedAt is now truncated to the second, and ExpiresAt is now + accessTTL truncated to the second. |
| Jwt.RefreshClaims | internal/pkg/utils/jwt.go:65-73 | Only UserID and UUID are kept. Email and Role are empty, and Type is "refresh". IssuedAt is the same now truncated to the second, and ExpiresAt is now + refreshTTL truncated to the second. |
| Jwt.Generate | internal/pkg/utils/jwt.go:37-78 | If access signing fails, that error is returned and no refresh token is made. Otherwise both tokens are signed from the claims above. |
| Jwt.ValidateClaims | internal/pkg/utils/jwt.go:81 | Claims are valid iff (there is no expiry, or now is strictly before it) and (there is no not-before time, or it is at or before now). The issue time is not checked. |
| Jwt.ParseWithClaims | internal/pkg/utils/jwt.go:81-86 | The token is valid exactly when no error is reported. |
| Jwt.Parse | internal/pkg/utils/jwt.go:80-97 | Claims are returned iff the token decodes, names an HMAC method, has a valid signature and live claims. They are the decoded claims. |
| Jwt.RejectsNonHmac | internal/pkg/utils/jwt.go:82-84 | A token naming a non-HMAC algorithm is refused even with a valid signature and live claims. |
| Jwt.GenerateThenParse | internal/pkg/utils/jwt.go:37-97 | Issue, then verify. Before its expiry the access token yields the seed's identity as "access". After it, the access token is refused as expired while the refresh token still yields "refresh". |
| JwtGate.JWT | internal/pkg/middleware/jwt.go:13-41 | A header not starting with exactly "Bearer " gives UnauthorizedAccess "missing token". A Parse error gives "invalid token". The request is forwarded iff the prefix is present and Parse succeeds, with the claims under "user_claims" in its context. |
| JwtGate.PrefixRemovedOnce | internal/pkg/middleware/jwt.go:19-27 | The prefix is removed once: "Bearer Bearer t" hands "Bearer t" to Parse, and a lower-case "bearer" is refused. |
| RequestId.RequestID | internal/pkg/middleware/request_id.go:11-21 | The id is a non-empty inbound X-Request-ID, or else the generated one. It is echoed on the response and stored under "request_id" in the context. The next handler is called exactly once. |
| RequestId.EchoMatchesContext | internal/pkg/middleware/request_id.go:13-19 | The echoed id equals the context id. A non-empty inbound id is used whatever id could have been generated. |
| Response.Send | internal/pkg/response/encode-decode.go:67-102 | Status 0 becomes the default, and a non-zero status is kept. An empty message becomes the default. Content type is JSON. s is 1 iff success. A success carries the data and no code. A failure with an AppError carries its code and no result. Any other failure carries the data and no code. |
| Response.Write | internal/pkg/response/encode-decode.go:109-161 | Only Success and Created report s = 1. Every envelope is well formed. |
| Response.HelperDefaults | internal/pkg/response/encode-decode.go:109-161 | Each helper's fixed (status, message) pair, e.g. Success (200, "Success") and TooManyRequests (429, "Too Many Requests"). With no data only "s" and "m" appear. |
| Response.SendError | internal/pkg/response/encode-decode.go:164-177 | An AppError is sent with its own status, message and code and no result. Any other error is a 500 whose message is the error text. |
| Response.AppErrorEnvelopeKeys | internal/pkg/response/encode-decode.go:164-173 | An AppError's envelope never has "r". It has "c" exactly when the code is non-empty. |
| AppErr.New | internal/pkg/apperr/errors.go:20-26 | Stores status, message and code unchanged. |
| AppErr.TextCarriesStatus | internal/pkg/apperr/errors.go:15-17 | The text starts with "[<status>] ", and the status can be read back from it whatever the code and message hold. |
| AppErr.PredefinedErrors | internal/pkg/apperr/errors.go:29-32 | ErrNotFound is (404, "NOT_FOUND"), ErrUnauthorized is (401, "UNAUTHORIZED") and ErrInternal is (500, "INTERNAL_ERROR"). ErrNotFound renders as "[404] NOT_FOUND: Resource not found". |
| AppErr.ErrBadRequest | internal/pkg/apperr/errors.go:31 | Message "Invalid request" and code "BAD_REQUEST". The status is a parameter. |
| UserRepo.WithTransaction | internal/rest-api/repository/user.go:26-36 | A begin error means the callback never runs. A callback error means rollback, that error returned, and no commit. Otherwise the commit's result is returned. |
| UserRepo.TransactionDiscipline | internal/rest-api/repository/user.go:26-36 | Never both committed and rolled back. The callback runs at most once. A nil result means the work was committed. |
| UserRepo.BuildStatsQuery | internal/rest-api/repository/user.go:70-80 | The loop builds the IN statement with one "?" per id, commas between them, and the ids as arguments in order. |
| UserRepo.PlaceholderCount | internal/rest-api/repository/user.go:73-77 | For n ids the placeholder list splits at its commas into exactly n "?". That is n marks and n - 1 separators. |
| UserRepo.StatsMap | internal/rest-api/repository/user.go:91-94 | Every entry is one of the fetched rows, filed under its own UserID. |
| UserRepo.StatsMapKeys | internal/rest-api/repository/user.go:91-94 | The keys are exactly the rows' UserIDs. |
| UserRepo.LastRowWins | internal/rest-api/repository/user.go:92-94 | A key maps to the last row with that UserID: later duplicates overwrite earlier ones. |
| UserRepo.MockStats | internal/rest-api/repository/user.go:99-108 | The keys are exactly the requested ids. Each value is (id, zero time, id*5 in int64 arithmetic). |
| UserRepo.MockLoginCount | internal/rest-api/repository/user.go:104 | Where it does not overflow, the mock count is exactly five times the id. |
| UserRepo.GetStatsForUsers | internal/rest-api/repository/user.go:65-97 | The error is always nil. No ids gives an empty map. A failed query gives the mock map. Otherwise the map of the fetched rows. |
| UserRepo.NoIdsNoQuery | internal/rest-api/repository/user.go:66-68 | With no ids the database is not consulted: any two databases give the same empty answer. |
| UserRepo.FallbackCoversIds | internal/rest-api/repository/user.go:84-88 | When the query fails, exactly the requested ids have entries. |
| UserService.Pagination | internal/rest-api/service/user.go:26-38 | The page is accepted iff the parsed limit is 0 or in 1..100 and the parsed offset is at least 0. A limit of 0 becomes 10, and any other limit is kept. An accepted page always has 1 <= limit <= 100. A refusal is a validator error. |
| UserService.LimitDefaults | internal/rest-api/service/user.go:36-38 | A missing, empty, unparseable or zero limit means 10. |
| UserService.LimitFromQuery | internal/rest-api/service/user.go:27-38 | A decimal limit in 1..100 is kept as is. Any other non-zero limit is refused. |
| UserService.ListHandler | internal/rest-api/service/user.go:22-54 | A binding error gives BadRequest with its text and no repository call. Otherwise exactly one GetList call with the page. A repository error gives InternalError with its text. Otherwise Success with the users. |
| UserService.ListPageBounded | internal/rest-api/service/user.go:27-47 | The repository is only asked for 1..100 users at a non-negative offset. The reply is a success exactly when it answers. |
| UserService.IDs | internal/rest-api/service/user.go:93-96 | The users' ids, in list order. |
| UserService.Merge | internal/rest-api/service/user.go:106-112 | Same length and order as the users. Each entry holds its user, and that user's stats or none when the id is absent. |
| UserService.FullListHandler | internal/rest-api/service/user.go:68-119 | Binding errors are as in the list handler. GetList comes first. A list error gives InternalError with that single call. Otherwise the stats are asked once for the page's ids. A stats error gives InternalError. Otherwise Success with the merged list. |
| UserService.FullListWithRepository | internal/rest-api/service/user.go:99-117 | Composed with the repository's batched lookup, a page that was read always ends in success with one entry per user in order. When the batch query fails, each user carries mock stats under its own id. |
| AuthRepo.LookupError | internal/rest-api/repository/auth.go:44-49 | A missing row reads as "invalid credentials". Other errors pass through unchanged. |
| AuthRepo.Login | internal/rest-api/repository/auth.go:26-56 | As written. Lookup and scan errors go through LookupError. A scanned row succeeds iff the password compares. A mismatch gives the same "invalid credentials" as a missing row. |
| AuthRepo.LoginLosesUser | internal/rest-api/repository/auth.go:39-55 | As written, a successful login always returns the zero User, whatever the database holds. |
| AuthRepo.DeclaredPlan | internal/rest-api/repository/auth.go:31-42 | For the query's columns the written plan reaches only the password field. |
| AuthRepo.LoginAsWrittenDropsRow | internal/rest-api/repository/auth.go:44-55 | On a row that the corrected login reads fully, the written login accepts the same password and answers the zero User. |
| AuthRepo.LoginRowFlattened | internal/rest-api/repository/auth.go:39-42 | Promoting the embedded User gives its eight fields followed by Password. |
| AuthRepo.PromotedPlan | internal/rest-api/repository/auth.go:31-42 | For the query's columns the corrected plan reaches the five selected User fields and the password. |
| AuthRepo.LoginFixed | internal/rest-api/repository/auth.go:26-56 | The corrected login keeps the same error cascade but scans into the promoted record. |
| AuthRepo.LoginFixedReadsRow | internal/rest-api/repository/auth.go:44-55 | With the query's six columns and a converting first row, the corrected login returns that row's User without the password. Unselected fields stay empty. |
| AuthRepo.SignUp | internal/rest-api/repository/auth.go:58-81 | A hash or insert failure returns its error and no user. On success the insert got (uuid, username, email, hash, avatar). The user has the insert id, the generated uuid, the given username, email and avatar, status 1 and empty tokens. |
| AuthRepo.SignUpHidesHash | internal/rest-api/repository/auth.go:58-81 | The answer depends on the hash only through the insert's outcome. |
| Model.ZeroRecordIsZeroUser | internal/rest-api/model/user.go:5-14 | The zero record of User's layout reads back as the zero User. |
| Model.UserDbTags | internal/rest-api/model/user.go:6-13 | The `db` tags of User in order: six columns, then two untagged fields. |
| Upload.SniffBuffer | internal/pkg/utils/file.go:40-44 | The sniffer sees exactly 512 bytes: the content's first bytes, zero-filled. |
| Upload.Ext | internal/pkg/utils/file.go:64 | The extension is a suffix of the name. It is empty or starts with '.', holds no '/', and has no further '.'. |
| Upload.ExtOfLastElem | internal/pkg/utils/file.go:64 | The extension is empty exactly when the last path element has no dot, and it is never longer than that element. |
| Upload.SaveSingle | internal/pkg/utils/file.go:23-87 | A nil file gives (nil, nil). There is a result iff there is no error. Empty content is "EOF". A disallowed sniffed type gives "file type <type> not allowed". A stored file is named id + extension, lives at folder joined with that name, has the sniffed MIME type and an empty Field. |
| Upload.StoredNameOpaque | internal/pkg/utils/file.go:64-66 | With a separator-free id the stored name is one path element. Two files with the same extension get the same name, whatever their base names. |
| Upload.AllowListWidening | internal/pkg/utils/file.go:50-61 | Adding entries to a non-empty allow-list never rejects an accepted type, but the first entry can (an empty list accepts image/png, ["text/"] does not). The entry "" accepts everything. A bare media type matches a sniffed type that carries parameters. |
| Random.RandomNumber | internal/pkg/utils/random.go:9-15 | As written: panics exactly when the int64 bound max - min + 1 wraps to a non-positive value. A source error gives (0, err). The result is in int64 range. |
| Random.RandomNumberInRange | internal/pkg/utils/random.go:10-14 | For min <= max without overflow, and a source honouring its bound, the result lies in [min, max]. |
| Random.RandomNumberFullRangePanics | internal/pkg/utils/random.go:10 | For the full int64 range the written version panics, while the corrected one draws. |
| Random.RandomNumberWide | internal/pkg/utils/random.go:9-15 | Corrected: never panics for min <= max, and the result lies in [min, max]. It equals the written version wherever that does not overflow. |
| Random.FirstFailure | internal/pkg/utils/random.go:22-26 | The first failing draw, with all earlier draws succeeding, or none when every draw succeeds. |
| Random.OTP | internal/pkg/utils/random.go:18-31 | A negative length panics. The first failing draw gives ("", err). Otherwise the code has exactly the requested length, and each character is the digit drawn for it, in "0123456789". |
| StrConv.ParseFormatRoundTrip | internal/pkg/request/validate.go:48-53 | Parsing the decimal rendering of any int64 gives it back. |
| StrConv.ParseBool | internal/pkg/request/validate.go:56 | True exactly for 1, t, T, TRUE, true, True. False exactly for 0, f, F, FALSE, false, False. |
| Common.TrimPrefix | internal/pkg/middleware/jwt.go:27 | With the prefix present, prefix + result is the input. Without it the input is unchanged. |
| Common.Wrap64 | internal/pkg/utils/random.go:10 | The int64 two's-complement value: in range, congruent modulo 2^64, and the identity on int64 values. |
| Common.SplitJoin | internal/pkg/request/error.go:17 | Splitting at the separator's first character undoes a join of pieces that do not contain it. |

## Left out

- HTTP transport, `ResponseWriter` writes and JSON encoding of the envelope. The envelope is a datatype, and the keys present are computed by `JsonKeys`.
- The limiter's mutex. The limiter is a sequential step function over an explicit map.
- The `time.Since` saturation on very distant instants. Time is an unbounded integer.
- Header-name canonicalisation. Headers are looked up by their canonical name.
- AES, HS256, bcrypt, UUID generation, RFC 3339 parsing, JSON decoding of the key payload, MIME sniffing, `mime.ParseMediaType`, `filepath.Clean`, `net.SplitHostPort` and `crypto/rand` are oracles. Nothing about their internals is assumed beyond what a lemma states in its requires.
- The go-playground validator is an oracle for `Bind`/`BindQuery`. Its tag semantics are concrete only for the pagination request (`PaginationRules`). Its error texts are not modelled.
- Binder.FieldFor: the choice among same-named fields is encoding/json's rule for one level only. Embedded structs and deeper fields are not modelled.
- Binder.FieldFor: keys are matched to JSON names exactly. encoding/json falls back to a case-insensitive match, so `{"Email": …}` binds to a field named `email`; the model treats that key as unknown.
- Binder.UnknownKeyRejected: holds for exact matching only. A key that matches a field's JSON name up to letter case is accepted by encoding/json.
- Binder.DecodeMembers: a JSON `null` member cannot be expressed. The standard decoder leaves a non-pointer field unchanged for it.
- Binder.DecodeMembers: JSON keys match field names exactly. The standard decoder also accepts a case-insensitive match.
- Binder.DecodeMembers: the unknown-field and type-mismatch texts are close paraphrases of encoding/json's messages, not their exact wording (`%q` quoting is plain quotes).
- Binder.Fits: a JSON value never fits a file field. A nested object fits a struct field and replaces it whole. The decoding inside it, field by field, is not modelled: unknown keys there are not rejected, and fields the object leaves out are not kept.
- Hex.Error: the invalid-byte text omits the offending character. The key gate collapses every decryption error into the same refusal anyway.
- The repository's `GetList` and `ScanUser` are not modelled separately. The handlers take the page query as the `getList` oracle. Its scan is the slice case of `Scanner.Scan`.
- Scanner.ScanItem: the column name in the conversion error is in plain quotes, not `%q`.
- Scanner.Scan: `[]*T` and `[]T` destinations are the same value sequence. Go's nil and empty slices are not told apart.
- Multipart `maxMemory` (20 MB) is a memory threshold in the source, not a size limit, so it has no effect on the model.
- The rollback's own error is discarded in the source and is not recorded.
- UserStats.LastLogin is a nanosecond instant. The mock value is Go's zero time.
- The handler that composes sign-up with the upload (`service/auth.go`), the route tables, the process wiring, the database wrappers, logging, timing, security headers, panic recovery and the middleware presets are not part of this model.
- AppErr.ErrBadRequest: its status is a parameter. The source names `http.StatusStatusBadRequest`, which net/http does not define, so the status the author intended (400) cannot be read from the code.
- Response.Send: on failure, data that is not an application error is still sent in `r`.

## Findings

| source | as written | input that shows it | evidently intended | confidence | as-written member | corrected member |
|---|---|---|---|---|---|---|
| internal/rest-api/repository/auth.go:39-55 | The scan target embeds `model.User` untagged. `buildPlan` looks only at top-level `db` tags, so no selected column reaches the embedded User. | Any existing user with the right password: the login returns a User with every field empty. | Promote the embedded struct's fields, as Go's field promotion does, so the row's uuid, id, username, email and status are returned. | not executed | AuthRepo.LoginAsWrittenDropsRow | AuthRepo.LoginFixedReadsRow |
| internal/pkg/utils/crypto.go:27-37 | No guard for empty data or for a last byte larger than the data. `data[length-1]` and `data[:length-unpad]` then go out of range. | `DecryptKey("")`: the empty string is valid hex of length 0. The gate refuses an empty header before reaching this. Also any 32-digit hex key whose decrypted block ends in a byte from 17 to 255, which the `x-api-key` header can carry: the gate then panics, nothing recovers, and the client gets no response. | Return an error for both cases. | not executed | Crypto.DecryptKeyPanics | Crypto.DecryptKeyChecked |
| internal/pkg/utils/random.go:10 | `max-min+1` is computed in Go's 64-bit `int` and wraps. | min = -2^63, max = 2^63-1: the bound wraps to 0 and `rand.Int` panics. | Compute the bound without overflow, so any min <= max draws a value in [min, max]. | not executed | Random.RandomNumberFullRangePanics | Random.RandomNumberWide |
