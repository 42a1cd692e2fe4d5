/** The wire side of the client: what each request looks like and the small string rules every
    request depends on (src/lib.rs). A request is kept as its parts (method, base URL, path
    segments, raw query, form fields, Authorization value); the url and reqwest crates that turn
    these into bytes are not part of this model. */
module Protocol {
  import opened Wrappers

  datatype HttpMethod = Get | Post

  datatype Request = Request(
    verb: HttpMethod,
    base: string,
    path: seq<string>,
    query: Option<string>,
    form: seq<(string, string)>,
    authorization: Option<string>)

  /** What the server gives back for one request: a failure of sending the request or of
      reading its body, or the body as text. */
  datatype Reply = TransportError | Text(body: string)

  datatype Endpoint = ClientLogin | Token | ReadingList | EditTag | UnreadCount

  /** The failures the client reports. LoginFailed and WriteTokenFailed wrap the failure of the
      login or write-token step an operation ran on its own behalf. */
  datatype Error =
    | InvalidServerUrl
    | Transport(at: Endpoint)
    | AuthTokenNotFound
    | MalformedUnreadItems
    | MalformedUnreadCount
    | LoginFailed(cause: Error)
    | WriteTokenFailed(cause: Error)

  // Path segments each endpoint appends to the server URL.
  const LOGIN_PATH: seq<string> := ["accounts", "ClientLogin"]
  const TOKEN_PATH: seq<string> := ["reader", "api", "0", "token"]
  const READING_LIST_PATH: seq<string> :=
    ["reader", "api", "0", "stream", "contents", "user", "-", "state", "com.google", "reading-list"]
  const EDIT_TAG_PATH: seq<string> := ["reader", "api", "0", "edit-tag"]
  const UNREAD_COUNT_PATH: seq<string> := ["reader", "api", "0", "unread-count"]

  /** The five endpoints have pairwise different paths, so a server tells the requests apart by
      path alone; the four API endpoints all live under `reader/api/0`. */
  lemma EndpointPathsDistinct()
    ensures LOGIN_PATH != TOKEN_PATH && LOGIN_PATH != READING_LIST_PATH
    ensures LOGIN_PATH != EDIT_TAG_PATH && LOGIN_PATH != UNREAD_COUNT_PATH
    ensures TOKEN_PATH != READING_LIST_PATH && TOKEN_PATH != EDIT_TAG_PATH && TOKEN_PATH != UNREAD_COUNT_PATH
    ensures READING_LIST_PATH != EDIT_TAG_PATH && READING_LIST_PATH != UNREAD_COUNT_PATH
    ensures EDIT_TAG_PATH != UNREAD_COUNT_PATH
    ensures forall p :: p in [TOKEN_PATH, READING_LIST_PATH, EDIT_TAG_PATH, UNREAD_COUNT_PATH] ==>
      |p| > 3 && p[..3] == ["reader", "api", "0"]
  {
    assert LOGIN_PATH[0] != TOKEN_PATH[0];
    assert TOKEN_PATH[3] != EDIT_TAG_PATH[3] && TOKEN_PATH[3] != UNREAD_COUNT_PATH[3];
    assert EDIT_TAG_PATH[3] != UNREAD_COUNT_PATH[3];
  }

  /** The stream id of the "read" state. */
  const READ_STATE: string := "user/-/state/com.google/read"

  /** Newest first, excluding items in the read state. */
  const UNREAD_QUERY: string := "r=n&xt=" + READ_STATE

  const AUTH_SCHEME: string := "GoogleLogin auth="

  /** Removes one trailing `c` if there is one (`ends_with` then `strip_suffix`); applied with
      `/` to the server URL and with a line feed to the write-token body. */
  function StripOneTrailing(s: string, c: char): (r: string)
    ensures s == r || s == r + [c]
    ensures s == r <==> s == [] || s[|s| - 1] != c
  {
    if |s| > 0 && s[|s| - 1] == c then s[..|s| - 1] else s
  }

  /** Exactly one `c` goes, however many there are. */
  lemma StripOneTrailingOfAppended(s: string, c: char)
    ensures StripOneTrailing(s + [c], c) == s
  {
  }

  /** A server URL given with or without its trailing slash is stored the same. */
  lemma ServerUrlNormalization(url: string)
    requires url == [] || url[|url| - 1] != '/'
    ensures StripOneTrailing(url + "/", '/') == StripOneTrailing(url, '/') == url
  {
  }

  lemma StripOneTrailingExamples()
    ensures StripOneTrailing("wT123\n", '\n') == "wT123"
    ensures StripOneTrailing("x\n\n", '\n') == "x\n"
    ensures StripOneTrailing("http://x/a/", '/') == "http://x/a"
    ensures StripOneTrailing("http://x/a", '/') == "http://x/a"
  {
    StripOneTrailingOfAppended("wT123", '\n');
    StripOneTrailingOfAppended("x\n", '\n');
    StripOneTrailingOfAppended("http://x/a", '/');
  }

  /** The query of the reading-list request: the fixed parameters, with `c=<continuation>&`
      placed before them when a continuation is given. */
  function UnreadItemsQuery(continuation: Option<string>): (q: string)
    ensures |q| >= |UNREAD_QUERY| && q[|q| - |UNREAD_QUERY|..] == UNREAD_QUERY
    ensures continuation.None? ==> |q| == |UNREAD_QUERY|
    ensures continuation.Some? ==>
      var c := continuation.value;
      |q| == |c| + 3 + |UNREAD_QUERY| && q[..|c| + 3] == "c=" + c + "&"
  {
    match continuation
    case None => UNREAD_QUERY
    case Some(c) => "c=" + c + "&" + UNREAD_QUERY
  }

  /** `s` cut at every `sep`, as a server splits a query string at `&`. */
  function Split(s: string, sep: char): (parts: seq<string>)
    ensures |parts| > 0
  {
    if s == [] then [""]
    else
      var rest := Split(s[1..], sep);
      if s[0] == sep then [""] + rest else [[s[0]] + rest[0]] + rest[1..]
  }

  /** `s` cut at its first `sep`, as a server splits a query parameter into name and value. */
  function SplitFirst(s: string, sep: char): (nv: (string, string))
  {
    if s == [] then ("", "")
    else if s[0] == sep then ("", s[1..])
    else var nv := SplitFirst(s[1..], sep); ([s[0]] + nv.0, nv.1)
  }

  function NameValuePairs(fields: seq<string>): seq<(string, string)> {
    if fields == [] then [] else [SplitFirst(fields[0], '=')] + NameValuePairs(fields[1..])
  }

  /** The parameters a server reads from a raw query string, in order. */
  function QueryParams(q: string): seq<(string, string)> {
    NameValuePairs(Split(q, '&'))
  }

  lemma {:induction false} SplitWithoutSeparator(s: string, sep: char)
    requires sep !in s
    ensures Split(s, sep) == [s]
  {
    if s != [] {
      SplitWithoutSeparator(s[1..], sep);
      assert [s[0]] + s[1..] == s;
    }
  }

  lemma {:induction false} SplitAtFirst(a: string, sep: char, b: string)
    requires sep !in a
    ensures Split(a + [sep] + b, sep) == [a] + Split(b, sep)
  {
    if a == [] {
      assert (a + [sep] + b)[1..] == b;
    } else {
      assert (a + [sep] + b)[1..] == a[1..] + [sep] + b;
      SplitAtFirst(a[1..], sep, b);
      assert [a[0]] + a[1..] == a;
    }
  }

  lemma {:induction false} SplitFirstAt(name: string, sep: char, value: string)
    requires sep !in name
    ensures SplitFirst(name + [sep] + value, sep) == (name, value)
  {
    if name == [] {
      assert (name + [sep] + value)[1..] == value;
    } else {
      assert (name + [sep] + value)[1..] == name[1..] + [sep] + value;
      SplitFirstAt(name[1..], sep, value);
      assert [name[0]] + name[1..] == name;
    }
  }

  /** The fixed part of the unread-items query is the two fields `r=n` and `xt=<read state>`. */
  lemma UnreadQueryFields()
    ensures Split(UNREAD_QUERY, '&') == ["r=n", "xt=" + READ_STATE]
  {
    assert '&' !in "r=n";
    assert '&' !in "xt=" + READ_STATE;
    SplitWithoutSeparator("xt=" + READ_STATE, '&');
    SplitAtFirst("r=n", '&', "xt=" + READ_STATE);
    assert UNREAD_QUERY == "r=n" + ['&'] + ("xt=" + READ_STATE);
  }

  lemma UnreadQueryPairs()
    ensures NameValuePairs(["r=n", "xt=" + READ_STATE]) == [("r", "n"), ("xt", READ_STATE)]
  {
    var fixedParts := ["r=n", "xt=" + READ_STATE];
    assert "r=n" == "r" + ['='] + "n";
    SplitFirstAt("r", '=', "n");
    assert "xt=" + READ_STATE == "xt" + ['='] + READ_STATE;
    SplitFirstAt("xt", '=', READ_STATE);
    assert fixedParts[1..] == ["xt=" + READ_STATE];
    assert NameValuePairs(fixedParts[1..]) == [("xt", READ_STATE)];
  }

  /** The server reads back exactly the parameters the client meant: the continuation first,
      then newest-first ordering and the exclusion of read items. A continuation holding `&`
      would be cut there, since the query is not escaped for `&`. */
  lemma UnreadItemsQueryParams(continuation: Option<string>)
    requires continuation.Some? ==> '&' !in continuation.value
    ensures QueryParams(UnreadItemsQuery(continuation)) ==
      (if continuation.Some? then [("c", continuation.value)] else [])
      + [("r", "n"), ("xt", READ_STATE)]
  {
    var fixedParts := ["r=n", "xt=" + READ_STATE];
    UnreadQueryFields();
    UnreadQueryPairs();
    match continuation
    case None =>
    case Some(c) =>
      var field := "c=" + c;
      assert '&' !in field;
      SplitAtFirst(field, '&', UNREAD_QUERY);
      assert UnreadItemsQuery(continuation) == field + ['&'] + UNREAD_QUERY;
      SplitFirstAt("c", '=', c);
      assert field == "c" + ['='] + c;
      var parts := [field] + fixedParts;
      assert parts[1..] == fixedParts;
  }

  /** The value of the Authorization header for an auth token. */
  function AuthorizationValue(token: string): (h: string)
    ensures TokenOfAuthorization(h) == Some(token)
  {
    AUTH_SCHEME + token
  }

  /** The auth token a server reads from an Authorization value. */
  function TokenOfAuthorization(h: string): Option<string> {
    if |h| >= |AUTH_SCHEME| && h[..|AUTH_SCHEME|] == AUTH_SCHEME then Some(h[|AUTH_SCHEME|..]) else None
  }

  /** Distinct tokens give distinct headers, and every header of the scheme comes from its token. */
  lemma AuthorizationValueInverse(h: string, token: string)
    ensures TokenOfAuthorization(h) == Some(token) <==> h == AuthorizationValue(token)
  {
    if TokenOfAuthorization(h) == Some(token) {
      assert h == h[..|AUTH_SCHEME|] + h[|AUTH_SCHEME|..];
    }
  }

  /** The ClientLogin form. */
  function LoginForm(username: string, password: string): seq<(string, string)> {
    [("Email", username), ("Passwd", password)]
  }

  /** The edit-tag form: add the read state (`a`) with write token `T` to item `i`. */
  function EditTagForm(writeToken: string, itemId: string): seq<(string, string)> {
    [("a", READ_STATE), ("T", writeToken), ("i", itemId)]
  }

  /** The value a server reads for `name`: the first field of that name. */
  function FormValue(form: seq<(string, string)>, name: string): Option<string> {
    if form == [] then None
    else if form[0].0 == name then Some(form[0].1)
    else FormValue(form[1..], name)
  }

  lemma EditTagFormValues(writeToken: string, itemId: string)
    ensures FormValue(EditTagForm(writeToken, itemId), "a") == Some(READ_STATE)
    ensures FormValue(EditTagForm(writeToken, itemId), "T") == Some(writeToken)
    ensures FormValue(EditTagForm(writeToken, itemId), "i") == Some(itemId)
  {
    var form := EditTagForm(writeToken, itemId);
    assert form[1..] == [("T", writeToken), ("i", itemId)];
    assert form[1..][1..] == [("i", itemId)];
    assert "a" != "i" && "T" != "i" && "a" != "T";
    assert FormValue(form[1..][1..], "i") == Some(itemId);
    assert FormValue(form[1..], "i") == Some(itemId);
  }

  lemma LoginFormValues(username: string, password: string)
    ensures FormValue(LoginForm(username, password), "Email") == Some(username)
    ensures FormValue(LoginForm(username, password), "Passwd") == Some(password)
  {
    assert LoginForm(username, password)[1..] == [("Passwd", password)];
  }
}
