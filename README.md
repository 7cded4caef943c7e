# rbank: request gate and CLI menu, modelled in Dafny

rbank is a small account service. It has an axum web API that signs and checks bearer tokens, and a command-line client. This project models three parts of it:

- **The request gate** (`Middleware`, in `middleware.dfy`). `AuthorizationMiddleware::from_request_parts` runs before protected handlers. It lets an OPTIONS pre-flight request through untouched. Otherwise it needs three things, checked in this order: a parsed `Authorization: Bearer` header, the `Jwks` key set installed as a request extension, and a successful `check_auth`. It answers 401 UNAUTHORIZED when any check fails. On success it inserts the authenticated identity into the request's extensions. The model has two layers:
  - a pure decision procedure, `Decide`, with `Respond` (the answer the caller sees) and `Record` (the extensions afterwards);
  - the imperative extractor, `FromRequestParts`. It works on a `RequestParts` object whose `extensions` field it updates in place, and it is proved equal to those functions.
- **The menu codec** (`Menu`, in `menu.dfy`). This covers `MenuCommand` with its `TryFrom<u8>` decoder and its `Display` rendering. It also covers `menu_options`, which joins all displays with newlines in declaration order, and `read_until_success`, the prompt-and-retry loop. The loop is modelled against the finite sequence of results its input function returns on successive calls.
- **The account views** (`Models`, in `models.dfy`). This covers `Account::new` and the two `From<Account>` projections, `AccountDetailView` (card number and balance) and `AccountAuthView` (card number and PIN).

`Wrappers` (in `wrappers.dfy`) defines `Option` and `Result`.

`check_auth`, `Jwks` and the identity type come from the web API's `auth` module. That module is not part of this model. The gate therefore has three type parameters: the key set `J`, the identity `A` and the verification error `E`. `check_auth` is passed in as a total function `(Token, J) -> Result<A, E>`. Swapping in a different function does not change the outcome when the header or key set is missing. This is how the model states that the gate never calls `check_auth` in those cases.

The gate does no key-id lookup of its own. Any check of the token happens inside `check_auth`, which the model treats as opaque. A missing `Jwks` extension is its own rejection path. The internal rejection reasons are `MissingAuthorizationHeader`, `MissingJwksLayer` and `CheckAuthFailed(e)`. They stand for what the code logs to stderr on each path.

## Model

| member | source | states |
|---|---|---|
| `Middleware.Decide` | web_api/src/middleware.rs:16-43 | A request passes with no identity exactly when its method is OPTIONS. A non-OPTIONS request passes only if it has a bearer token and a key set, and `check_auth` on them returned the identity that gets attached. |
| `Middleware.Respond` | web_api/src/middleware.rs:17-41 | The extractor returns `Ok` exactly when the gate passes. Every error is 401 UNAUTHORIZED. |
| `Middleware.Record` | web_api/src/middleware.rs:33-37 | The key-set slot is never changed. The extensions change only when the gate passes with an identity, and that identity is what gets inserted. |
| `Middleware.FromRequestParts` | web_api/src/middleware.rs:16-43 | The imperative extractor, with early returns. Its result equals `Respond` of the decision. The request's new extensions equal `Record` of the old ones. Method and header are left unchanged. |
| `Middleware.OptionsBypass` | web_api/src/middleware.rs:17-19 | An OPTIONS request is accepted whatever its header and extensions hold, and its extensions are unchanged. |
| `Middleware.MissingHeaderRejected` | web_api/src/middleware.rs:20-25 | A non-OPTIONS request without a bearer header is rejected with 401 for the missing header. The outcome is the same for any `check_auth`. |
| `Middleware.MissingJwksRejected` | web_api/src/middleware.rs:20-31 | A non-OPTIONS request with no key set is rejected with 401 for any `check_auth`. The key set is checked only after the header: with no header, the reason is still the missing header. |
| `Middleware.CheckAuthAccepted` | web_api/src/middleware.rs:33-37 | If `check_auth` returns `Ok(auth)`, the request is accepted and `auth` is inserted into its extensions. |
| `Middleware.CheckAuthRejected` | web_api/src/middleware.rs:38-41 | If `check_auth` returns an error, the request is rejected with 401. The reason carries that error, and the extensions are unchanged. |
| `Middleware.UniformRejection` | web_api/src/middleware.rs:20-41 | Any two rejections give the same response, 401, whichever check failed. |
| `Middleware.ExtensionsChangeOnlyOnSuccess` | web_api/src/middleware.rs:17-41 | On OPTIONS and on every rejection the extensions are unchanged. On a non-OPTIONS acceptance the only change is inserting the identity `check_auth` returned for the request's token and key set. |
| `Middleware.AcceptedMeansAuthenticated` | web_api/src/middleware.rs:20-37 | A non-OPTIONS request is accepted if and only if it has a bearer token and a key set, and `check_auth` on them succeeds. |
| `Menu.Ordinal` | cli_client/src/main.rs:122-127 | Each command's index in the declaration order Exit, Login, New. |
| `Menu.TryFrom` | cli_client/src/main.rs:129-139 | Accepts exactly the values below 3. Value n decodes to the n-th command in declaration order. Every other value gives the "oops" error. |
| `Menu.ReadMenuCommand` | cli_client/src/main.rs:109-113 | A command is obtained exactly when the number was read and is below 3. It is then the command in that position of the declaration order. A number 3 or above gives the "oops" error. A failed read propagates its error unchanged. |
| `Menu.Display` | cli_client/src/main.rs:142-150 | Each entry starts with its command's number as a decimal digit, followed by ". " and a label. It contains no newline. |
| `Menu.TryFromInverse` | cli_client/src/main.rs:129-139 | Every command decodes from its own number, and only from that number. |
| `Menu.TryFromInjective` | cli_client/src/main.rs:133-137 | Two values that decode to the same command are equal, and both are below 3. |
| `Menu.DisplayTexts` | cli_client/src/main.rs:144-148 | The entries are exactly "0. Exit", "1. Login" and "2. New". |
| `Menu.DisplayRoundTrip` | cli_client/src/main.rs:132-148 | The digit an entry starts with decodes back to that entry's command. |
| `Menu.Displays` | cli_client/src/main.rs:90-92 | The displays of the commands in the same order, one each. |
| `Menu.Join` | cli_client/src/main.rs:93 | Joining nothing gives "". Otherwise the result starts with the first part and ends with the last, so there is no separator after the last part. |
| `Menu.SplitJoin` | cli_client/src/main.rs:93 | Splitting a join at its separator gives back the parts, provided no part contains the separator. |
| `Menu.MenuOptions` | cli_client/src/main.rs:89-94 | Cut at its newlines, the menu text gives back every command's display, in declaration order. |
| `Menu.MenuOptionsText` | cli_client/src/main.rs:89-94 | The menu text is "0. Exit\n1. Login\n2. New". |
| `Menu.MenuOptionsLines` | cli_client/src/main.rs:89-94 | The menu text has one line per command in declaration order. Typing a line's leading digit selects that line's command. |
| `Menu.Transcript` | cli_client/src/main.rs:100-105 | Before success there are k failures. The loop makes 2k+1 `println!` writes: the prompt at even positions and the retry message at odd ones. The prompt may itself span several lines. |
| `Menu.ReadUntilSuccess` | cli_client/src/main.rs:96-107 | There is a result exactly when some attempt succeeds. The result is the first successful attempt's value, after one prompt per attempt up to and including that one, with a retry line after each failure. |
| `Menu.ReadUntilSuccessStops` | cli_client/src/main.rs:101-102 | After the first success, later attempts are never consulted. |
| `Models.NewAccount` | cli_client/src/models.rs:10-16 | Stores the card number, PIN and balance it is given. |
| `Models.ToDetailView` | cli_client/src/models.rs:19-26 | Keeps the account's card number and balance. |
| `Models.ToAuthView` | cli_client/src/models.rs:28-35 | Keeps the account's card number and PIN. |
| `Models.NewAccountFromFields` | cli_client/src/models.rs:3-16 | Every account is what `Account::new` builds from its own fields. |
| `Models.NewAccountInjective` | cli_client/src/models.rs:10-16 | Different arguments give different accounts. |
| `Models.DetailViewDropsPin` | cli_client/src/models.rs:43-47 | The detail view does not depend on the PIN. |
| `Models.AuthViewDropsBalance` | cli_client/src/models.rs:37-41 | The auth view does not depend on the balance. |
| `Models.ViewsDropExactlyOneField` | cli_client/src/models.rs:19-47 | Two accounts share a detail view if and only if they differ at most in the PIN. They share an auth view if and only if they differ at most in the balance. |
| `Models.ViewsTogetherDetermineAccount` | cli_client/src/models.rs:19-35 | Accounts with the same detail view and the same auth view are equal. |

## Left out

- `check_auth`, `encode_token`, `get_public_jwk` and `Jwks` are in the web API's `auth` module, which is not part of this model. The token signing and verification they perform are not modelled. The gate takes `check_auth` as a parameter.
- Parsing of the typed `Authorization<Bearer>` header is library behaviour. Its result is the `bearer: Option<Token>` field of `RequestParts`.
- The request extensions are a map keyed by type. The model keeps only the two slots the gate reads or writes, the key set and the identity. The gate touches no other entry.
- The `eprintln!` diagnostics on each rejection path are stderr output. The model keeps only which path was taken, as the decision's `Reason`, not the logged text.
- Router wiring, listener, `axum::serve` and the handlers in web_api/src/main.rs are left out. So are the account repository and the web API's view models. They are framework glue and constant stubs.
- The client's HTTP calls (`show_account`, `login`, `create_account`, `client.rs`), the `main` loop and `exit` are left out. They are network and console I/O.
- Reading a line from stdin and `u8::from_str` in `read_u8_from_stdin` are left out as console I/O and library parsing. `ReadMenuCommand` takes their result. `DigitValue` reads only a single-digit line.
- Menu.ReadUntilSuccess: `read_until_success` recurses forever when every attempt fails, printing the prompt and the retry message on each round. The model sees only finitely many attempts and returns None in that case.
- Printing in `read_until_success` is modelled as the returned sequence of `println!` writes, not as writes to stdout.
- Middleware.Decide: `Method.Extension` can hold a standard name such as "OPTIONS". The `http` crate never produces such a value, because it parses standard names into the standard methods. The model does not exclude it, and sends `Extension("OPTIONS")` down the credential path like any other non-OPTIONS method.
- Models.NewAccount: the `f64` balance is an opaque `Balance` value that is only copied. Floating-point semantics, including NaN not being equal to itself, are not modelled.
- The serde `Serialize`/`Deserialize` derives on the views are left out.
