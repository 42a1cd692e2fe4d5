# google-reader-rs client session, modelled in Dafny

This project models the core of `google-reader-rs`, a client for the Google Reader
synchronisation protocol as FreshRSS and similar aggregators serve it. The core is the
`GoogleReader` session in `src/lib.rs` and the string rules its requests depend on.

The session holds the credentials and the server URL. It also has three fields that are filled
lazily:

- `authtoken`, set by `login` from the ClientLogin reply;
- `write_token`, set by `get_write_token`;
- `client`, the HTTP client that the first login creates. It is modelled as a flag.

Every operation logs in first when no auth token is cached, and only then. `mark_item_read` also
fetches a write token when none is cached, and only then. `get_write_token` always fetches a
new one.

The server is a parameter of each operation: a function from the request sent to the reply,
which is a transport failure or a body text. Each operation returns its result and the
requests it sent, in order. So the contracts state exactly which requests go out and how the
session's fields change.

Files:

- `wrappers.dfy`: the `Option` and `Result` datatypes.
- `feed.dfy`: the `Link`, `Summary`, `Item` and `Response` records.
- `decimal.dfy`: Rust's `str::parse::<usize>` on a 64-bit target, and a decimal rendering that
  parsing inverts.
- `auth_token.dfy`: the token the expression `Auth=(\S+)` captures. The leftmost match is
  found by a scan, and the result is proved equal to the capture of the leftmost match. `\s`
  is the Unicode White_Space property, as in Rust's `regex` crate.
- `protocol.dfy`: requests, replies and errors; the path segments of each endpoint; stripping
  one trailing character; the reading-list query and how a server splits it back into
  parameters; the `Authorization` value; the login and edit-tag forms.
- `reader.dfy`: the `GoogleReader` class and its operations. Four scenario methods
  (`ListOnFreshSession`, `ListThenMarkRead`, `MarkReadReusesWriteToken`,
  `UnreadCountOfErrorBody`) use only the contracts. In them, a fresh session lists a page of
  unread items after exactly one login. On that same session, marking item `a` read fetches
  one write token and posts it as `T`, with no second login. Once a write token is cached,
  marking reuses it. The unread count is a parse failure when the body is `ERROR`.

The code removes only one trailing `/` from the server URL, so `http://x/a//` is stored as `http://x/a/`. The model follows
the code.

## Model

| member | source | states |
|---|---|---|
| `Decimal.ParseUsize` | src/lib.rs:329-331 | A body parses exactly when it is one optional `+` followed by one or more decimal digits whose value is at most 2^64-1, and the result is that value. |
| `Decimal.ParseUsizeOfDecimal` | src/lib.rs:329-331 | Every usize rendered in decimal, with or without a leading `+`, parses back to itself. |
| `Decimal.ParseUsizeRejectsOverflow` | src/lib.rs:329-331 | A number above 2^64-1 is an error, not a wrapped or saturated value. |
| `Decimal.ParseUsizeLeadingZero` | src/lib.rs:329-331 | Leading zeros do not change the parsed value. |
| `Decimal.ParseUsizeRejectsMinus` | src/lib.rs:329-331 | A leading `-` is always rejected, even on zero. |
| `Decimal.ParseUsizeRejectsNonNumeric` | src/lib.rs:329-331 | The empty body, `ERROR`, a lone `+` and a number followed by a line feed are all errors rather than a default. |
| `AuthToken.RunEnd` | src/lib.rs:119 | `\S+` is greedy: the run it takes holds no whitespace and ends at the end of the body or at a whitespace character. |
| `AuthToken.FindMatch` | src/lib.rs:128-130 | The position found is a match of `Auth=(\S+)` with no match before it. None means there is no match at or after the start. |
| `AuthToken.ExtractAuthToken` | src/lib.rs:119-134 | No token exactly when the expression matches nowhere. Otherwise the token is the capture of the leftmost match and is a non-empty run without whitespace. |
| `AuthToken.CaptureIsMaximal` | src/lib.rs:119 | The captured token ends at the end of the body or just before whitespace. |
| `AuthToken.ExtractAfterPreamble` | src/lib.rs:119-134 | A body `<preamble>Auth=<token><rest>` yields that token. This holds when the preamble has no `Auth=` and the rest is empty or starts with whitespace. |
| `AuthToken.ExtractFromUsualReply` | src/lib.rs:119-134 | `"SID=xxx\nAuth=abc123\n"` yields `abc123`. |
| `AuthToken.ExtractSkipsEmptyKey` | src/lib.rs:119-134 | An earlier `Auth=` followed by whitespace is skipped, and the next match gives the token. |
| `Protocol.StripOneTrailing` | src/lib.rs:75-82 | The result equals the input when the input does not end in the character. Otherwise the result plus that one character is the input. |
| `Protocol.ServerUrlNormalization` | src/lib.rs:75-82 | `http://x/a/` and `http://x/a` are stored the same, and a URL without a trailing `/` is kept unchanged. |
| `Protocol.StripOneTrailingOfAppended` | src/lib.rs:167-169 | Exactly one trailing character is removed, however many there are. |
| `Protocol.StripOneTrailingExamples` | src/lib.rs:167-169 | `"wT123\n"` gives `wT123`, `"x\n\n"` gives `"x\n"`, and `http://x/a/` gives `http://x/a`. |
| `Protocol.UnreadItemsQuery` | src/lib.rs:206-211 | The query ends with `r=n&xt=user/-/state/com.google/read`. Without a continuation it is exactly that string. With continuation `c` it starts with `c=<c>&`. |
| `Protocol.UnreadQueryFields` | src/lib.rs:206 | The fixed query splits at `&` into exactly the fields `r=n` and `xt=<read state>`. |
| `Protocol.UnreadQueryPairs` | src/lib.rs:206 | Those two fields read as the pairs (`r`, `n`) and (`xt`, `user/-/state/com.google/read`). |
| `Protocol.UnreadItemsQueryParams` | src/lib.rs:206-211 | A server splitting the query at `&` and `=` reads `c` first when a continuation is given, then `r=n`, then `xt=<read state>`. This needs a continuation without `&`. |
| `Protocol.AuthorizationValue` | src/lib.rs:243 | A server reading the header value back gets exactly the auth token. |
| `Protocol.AuthorizationValueInverse` | src/lib.rs:243 | A value carries token `t` exactly when it is `GoogleLogin auth=` followed by `t`. |
| `Protocol.EditTagFormValues` | src/lib.rs:266-270 | The edit-tag form gives `a` the read state, `T` the write token and `i` the item id. |
| `Protocol.LoginFormValues` | src/lib.rs:105 | The login form gives `Email` the username and `Passwd` the password. |
| `Protocol.EndpointPathsDistinct` | src/lib.rs:97-311 | The five endpoint paths (built at lines 97-101, 144-150, 187-199, 272-278 and 305-311) differ pairwise. The four API paths all begin with `reader/api/0`. |
| `Reader.LoginOutcome` | src/lib.rs:109-134 | A login reply gives a token exactly when its body has a match. The token is the capture of the leftmost match, so it is non-empty and whitespace-free. A transport failure or a body with no match is an error. |
| `Reader.WriteTokenOutcome` | src/lib.rs:152-173 | A write-token reply always gives a token, the empty one included: the body with one trailing line feed removed exactly when it ends in one. Only a transport failure is an error. |
| `Reader.UnreadItemsOutcome` | src/lib.rs:213-233 | A reading-list reply gives the decoded page or an error, never a partial page. |
| `Reader.EditTagOutcome` | src/lib.rs:280-296 | An edit-tag reply gives the body verbatim, and only a transport failure is an error. |
| `Reader.UnreadCountOutcome` | src/lib.rs:314-332 | An unread-count reply gives a count exactly when its body parses as a usize, and it is an error otherwise. |
| `Reader.GoogleReader.constructor` | src/lib.rs:85-92 | A new session stores its arguments and has no auth token, no write token and no client. |
| `Reader.GoogleReader.TryNew` | src/lib.rs:70-93 | The URL is stored with one trailing `/` removed. Construction fails exactly when the URL parser rejects that string, and a new session has nothing cached. |
| `Reader.GoogleReader.LoginRequest` | src/lib.rs:97-114 | A POST to `<server>/accounts/ClientLogin` with no query and no Authorization header. Its form is exactly the fields `Email` and `Passwd`, in that order, holding the username and the password. |
| `Reader.GoogleReader.TokenRequest` | src/lib.rs:144-157 | A GET to `<server>/reader/api/0/token` with no query or form, carrying the given Authorization value. |
| `Reader.GoogleReader.UnreadItemsRequest` | src/lib.rs:187-218 | A GET to `<server>/reader/api/0/stream/contents/user/-/state/com.google/reading-list` whose query is the unread-items query for the continuation. It carries the given Authorization value. |
| `Reader.GoogleReader.EditTagRequest` | src/lib.rs:266-286 | A POST to `<server>/reader/api/0/edit-tag` carrying the Authorization value. Its form is exactly the fields `a`, `T` and `i`, in that order, holding the read state, the write token and the item id. |
| `Reader.GoogleReader.UnreadCountRequest` | src/lib.rs:305-319 | A GET to `<server>/reader/api/0/unread-count` with no query or form, carrying the given Authorization value. |
| `Reader.GoogleReader.AuthHeaders` | src/lib.rs:239-250 | Callable only with an auth token cached. The value carries exactly that token. |
| `Reader.GoogleReader.Login` | src/lib.rs:96-137 | Creates the client and sends one ClientLogin request. On a match it stores the token, replacing any earlier one. Otherwise it fails and leaves the auth token as it was. The write token never changes. |
| `Reader.GoogleReader.GetWriteToken` | src/lib.rs:140-174 | Logs in once and only when no auth token is cached, and stops at a failed login. Then it always sends the token request with the auth token's header. It stores the stripped body as the write token and returns that value. |
| `Reader.GoogleReader.GetUnreadItems` | src/lib.rs:177-234 | Logs in once and only when no auth token is cached. Then it sends one GET to the reading-list path with the query for the given continuation and the auth header. The result is the decoded page, and the write token never changes. |
| `Reader.GoogleReader.MarkItemRead` | src/lib.rs:253-297 | Logs in only when no auth token is cached. A cached write token is reused, so no token request is sent. Otherwise one token request is sent and a failed fetch stops the operation. The edit-tag form then carries that write token, and the reply body is returned verbatim. |
| `Reader.GoogleReader.UnreadCount` | src/lib.rs:300-333 | Logs in once and only when no auth token is cached. Then it sends one unread-count GET with the auth header. It returns the parsed count or a parse error, and the write token never changes. |

The class invariant `Valid()` holds before and after every operation. A cached auth token is
non-empty and whitespace-free, and the client then exists. A write token is cached only when an
auth token is too. Because `AuthHeaders` requires an auth token, the verifier checks that every
operation has one before it builds an authenticated request (src/lib.rs:141-143, 181-183,
254-256, 301-303). An assertion before each authenticated request checks that `client` exists where the source unwraps it (src/lib.rs:153-155, 214-216, 281-283, 315-317).

## Left out

- HTTP transport, async execution and `reqwest::Client`: each reply is a parameter, and the
  client is a flag. A failed `send()` and a failed `text()` are the same `TransportError`.
- The `url` crate: `Url::parse` is the parameter `parsesAsUrl`. The crate's normalisation of the
  URL and the percent-encoding of path segments, the query and form fields are not modelled. A
  request keeps its path as a segment list and its query as a raw string.
- `Reader.GoogleReader.TryNew`: `parsesAsUrl` stands for "parses, and the URL can be a base".
  `Url::parse` also accepts cannot-be-a-base URLs such as `mailto:x`, or
  `localhost:8080/api/greader.php`, which parses with the scheme `localhost`. For these, every
  operation panics at `path_segments_mut().unwrap()` (src/lib.rs:98-99, 145-146, 188-189,
  273-274, 306-307). The model does not represent that panic; its operations send their request.
- `Protocol.UnreadItemsQueryParams`: holds only for a continuation without `&`. The source does
  not escape `&` in the query, so such a cursor would be split by the server.
- JSON decoding by `serde_json`: the `Decoder` parameter returns the page or nothing.
- The `regex` engine: replaced by the scan in `auth_token.dfy`. The regex is compiled from a
  constant pattern, so its compile error (src/lib.rs:119-120) cannot happen and is not modelled.
- The header value check: `.parse().unwrap()` at src/lib.rs:244-245 panics when the token holds
  a control character that `\S` admits, such as U+0001. `AuthHeaders` returns the string
  without that check.
- `anyhow` context messages and `log` output: an error keeps its kind and the operation
  it wraps (`LoginFailed`, `WriteTokenFailed`), not its text.
- The width of `usize` is taken as 64 bits. On a 32-bit target the bound would be 2^32-1.
- `get_item` (src/lib.rs:236): an empty stub.
- `src/test.rs`: integration tests against a live server. The scenario methods in `reader.dfy` stand for
  listing and then marking an item read. They are checked against the fixed server function
  `UsualServer`.
- Concurrency: the operations take `&mut self`, so calls on one session never overlap.
