# Franklin request-decision layer in Dafny

Franklin is a small Go HTTP service for users and orders, backed by SQLite. This project models its
request-decision layer. Each handler parses the request and consults the store or bcrypt. It then
writes exactly one JSON response, choosing it through a fixed chain of early returns. The model
covers these files:

- `utils.go`: the username check. The username must be shorter than 255 bytes, and the password is ignored.
- `handlers.go` (the later revision): the basic-auth gate, the `getOrders` page clamping, `getUser`,
  `getOrder`, `createOrder`, `updateOrder` and `deleteOrder`, and `signin`. It also includes the router's
  wiring of the gate around update and delete.
- `main.go` (an earlier revision with its own `App`): the unauthenticated `/user` handlers.

Each handler is a pure function (`Handlers.*`, `EarlyApp.*`). It returns an `Outcome` with two parts:

- the response: a status code and a body. An error body is the one-key object `{"error": message}`.
- the calls made on the way, in order: the password lookup, the bcrypt comparison, running the
  wrapped handler, and each repository operation.

"Never calls the repository" therefore reads as `calls == []`. The store and bcrypt are parameters:

- `Db` / `Store` hold one function per repository call. `Result.Failed(reason)` carries the error's
  `Error()` text.
- `Hasher` stands for `bcrypt.CompareHashAndPassword(...) == nil`.

Some Go semantics are modelled explicitly:

- Strings are byte sequences (`GoText.GoString`), and `len` counts bytes.
- Text typed as characters becomes a Go string through its UTF-8 encoding (`GoText.Utf8`). So a name
  of n characters has between n and 4n bytes.
- `strconv.Atoi` is seen through its result (`Strconv.Atoi`). A syntax error yields 0, and a range error
  yields the bound of a 64-bit `int`. `getOrders` ignores the error and clamps that value.

Three behaviours of the code are worth noting; the model follows the code:

- The ownership guard of `updateOrder`/`deleteOrder` compares the caller with the `user` field of the
  request body, not with the owner the store records (`Handlers.GuardTrustsClaimedOwner`).
- A JSON `id` in that body overrides the id in the path (`Handlers.BodyIdOverridesPath`).
- `getUser` echoes whatever user record the store filled in. Nothing in the handler removes the
  password field.

## Model

| member | source | states |
|---|---|---|
| Utils.UserValidations | utils.go:6-11 | accepts exactly the usernames shorter than 255 bytes, the empty name included |
| Utils.PasswordIgnored | utils.go:6-11 | the verdict is the same for every password |
| Utils.Boundary | utils.go:7-10 | a 254-byte name is accepted and a 255-byte name rejected |
| Utils.TextNames | utils.go:7 | a name under 64 characters always passes; 255 characters or more always fail; an ASCII name passes iff it has under 255 characters |
| Utils.BytesNotCharacters | utils.go:7 | 128 copies of 'é' (256 bytes) are rejected though they are only 128 characters |
| GoText.EncodeRune | utils.go:21 | a rune becomes 1 to 4 bytes: one byte iff it is ASCII; the lead byte announces the length, and the rest are continuation bytes |
| GoText.Utf8 | utils.go:16-22 | the bytes of a rune-slice string number between the rune count and four times it, and equal it iff the text is ASCII |
| GoText.Utf8Append | utils.go:21 | encoding a concatenation is concatenating the encodings |
| GoText.Utf8UniformWidth | utils.go:21 | a text whose characters all take w bytes takes w bytes per character |
| Http.RespondWithError | main.go:89-91 | the body is an object whose only key is "error", and a client reading `m["error"]` gets the message back |
| Http.RespondWithJson | handlers.go:347-353 | the response carries the given code and payload, and a success body never reads as an error envelope: a client reading `m["error"]` gets "" |
| Handlers.BasicAuth | handlers.go:304-341 | an invalid name gives 400 with no lookup; otherwise the lookup comes first. No row gives 401, another scan error 500, and a mismatch 401 after the comparison. The wrapped handler runs iff the name is valid, a hash is found and it matches, and it then gives the response |
| Handlers.GateRefusalIdentifiesStage | handlers.go:308-337 | when the gate refuses, 400 means the name failed validation, 500 means the lookup failed other than by a missing row, and 401 means a missing row or a wrong password |
| Handlers.UnknownUserLooksLikeWrongPassword | handlers.go:322-337 | an unknown user and a wrong password receive identical responses |
| Handlers.MissingHeaderReachesLookup | handlers.go:306-313 | without credentials the empty name passes validation and is looked up |
| Handlers.BasicAuthKeepsEnvelopes | handlers.go:339 | behind the gate, 200 still means a value and every other status an error envelope |
| Handlers.GetUser | handlers.go:129-145 | bad id gives 400 with no lookup; every lookup failure gives 404 "User not found."; 200 iff the lookup succeeds, echoing its user |
| Handlers.GetOrder | handlers.go:151-170 | bad id gives 400; every lookup failure, another user's order included, gives 404 "Order not found."; 200 iff found |
| Handlers.CreateOrder | handlers.go:172-187 | an undecodable body gives 400 with no store call; otherwise the decoded order is stored once, and failure gives 500 |
| Handlers.ClampCount | handlers.go:196-198 | the page size lies in [1,10], is unchanged inside it, and becomes 10 outside it (0 and 11 alike) |
| Handlers.ClampStart | handlers.go:199-201 | the offset is non-negative, unchanged when non-negative, and 0 when negative |
| Handlers.ClampIdempotent | handlers.go:196-201 | clamping an already clamped value changes nothing |
| Handlers.GetOrders | handlers.go:189-211 | the page is always requested exactly once, with the clamped count and start; failure gives 404 "No orders found." and success gives 200 with the list |
| Handlers.PageDefaults | handlers.go:192-201 | a missing, zero, out-of-range or overflowing count gives 10; a missing, zero, negative or negatively overflowing start gives 0 |
| Handlers.BodyIdOverridesPath | handlers.go:227-229 | the order's id is the body's id when present, else the path id |
| Handlers.UpdateOrder | handlers.go:213-252 | checks run in order: path id 400, body 400, owner 403, then the repository. The repository runs iff the caller is the claimed owner; "Order not found." gives 404, other errors 500, success 200 with the order |
| Handlers.DeleteOrder | handlers.go:254-294 | same order of checks; the repository runs iff the caller is the claimed owner; "Order doesn't exist." gives 404, other errors 500, success 200 with the order |
| Handlers.MutationChecksInOrder | handlers.go:220-240 | an earlier failing check masks every later input: the body, the caller and the store make no difference after it |
| Handlers.GuardTrustsClaimedOwner | handlers.go:236-242 | any caller who names themselves as the body's user reaches the repository |
| Handlers.Signin | handlers.go:300-302 | 200 with the object {"message": "Sign-in successful."} |
| Handlers.ProtectedUpdateOrder | handlers.go:49 | an update reaches the store only for an authenticated caller equal to the order's claimed owner; a 403 is only ever given to an authenticated caller |
| Handlers.ProtectedDeleteOrder | handlers.go:50 | a delete reaches the store only for an authenticated caller equal to the order's claimed owner; a 403 is only ever given to an authenticated caller |
| Handlers.SigninScenarios | main_test.go:82-133 | the answer the tests expect from the gate: the right password gives 200 with the sign-in message; a wrong one gives 401 "Unauthorized." |
| Handlers.LongAsciiNameRefused | main_test.go:135-154 | the answer the test expects from the gate: a 256-letter name is refused with 400 "username/password is invalid." before any lookup |
| EarlyApp.CreateUser | main.go:46-62 | a name of 255 bytes or more gives 400 "query parameter is invalid." with no store call; store failure gives 500; 200 iff stored, echoing the user |
| EarlyApp.CreateUserWithStubStore | model.go:14-16 | with model.go's stub store, createUser never answers 200: a name of 255 bytes or more gets 400, and every other name gets 500 "User could not be created." |
| EarlyApp.CreateUserAsciiBoundary | main.go:49 | an ASCII name reaches the store iff it has under 255 characters |
| EarlyApp.UpdateUser | main.go:64-66 | always 501 with error "n/a" and no store call |
| EarlyApp.GetUser | main.go:68-83 | bad id gives 400 "User ID is invalid."; every lookup failure gives 404 "User not found", with no period; 200 iff found |
| EarlyApp.DeleteUser | main.go:85-87 | always 501 with error "n/a" and no store call |
| EarlyApp.AbsentUserScenario | main_test.go:44-62 | GET /user/15 with no such user gives 404 and the error "User not found" |

## Left out

- handlers.go `createUser` (handlers.go:60-98): it depends on bcrypt hash generation and the outbound store-locator call. Its hashing-error branch writes a 500 and then carries on.
- `storeLocator` (handlers.go:100-126): an outbound HTTP request and JSON decoding. It also takes `stores[0]` without checking for an empty list.
- bcrypt: hashing is not modelled, and the comparison is the `Hasher` parameter.
- The repositories and their SQL (`model.go` and the order repository) are not part of this model. They appear only as the results they return.
- The `result == nil` branch of basicAuth (handlers.go:314-318) is not modelled separately, because `QueryRow` never returns nil. It would answer like a missing row.
- Decimal parsing inside `strconv.Atoi` and JSON decoding: the model uses their results (`Atoi`, `Decoded`). The router's `[0-9]+` patterns mean an id can only fail by overflow.
- `InitDB`, `InitRouter` (except the wiring of the gate around update and delete), `main`, logging, response headers and the marshalling to bytes.
- `randSeq` (utils.go:16-22): its random choice of letters. Its rune-to-string conversion is modelled by `GoText.Utf8`.
- The order repository is not modelled: its code is in none of handlers.go, main.go and utils.go.
- model.go's `createUser`, `updateUser` and `deleteUser` are stubs that return "TBD", so main.go's `createUser` answers 500 for every accepted name (`EarlyApp.CreateUserWithStubStore`). Its `getUser` is a single `SELECT name FROM users WHERE id=...`; the model sees that query's failure, `sql.ErrNoRows` included, as `Failed`. The 200 branch of `EarlyApp.CreateUser` therefore needs a store other than model.go's.
