/** The GoogleReader session (src/lib.rs:13-25, 67-334): the server URL and credentials, and the
    three fields filled lazily: the auth token (set by login), the write token (set by
    get_write_token) and the HTTP client (created by the first login, modelled as a flag).
    Every network exchange is a call of the `server` parameter, and each operation returns,
    besides its result, the requests it sent, in order. */
module Reader {
  import opened Wrappers
  import opened Protocol
  import opened Decimal
  import opened Feed
  import AuthToken

  /** The server as one call sees it: the reply it gives to each request. */
  type Server = Request -> Reply

  /** JSON decoding of a reading-list body: the page, or None when the body is malformed. */
  type Decoder = string -> Option<Response>

  /** What a login exchange yields: the token of the leftmost `Auth=` match of the body. */
  function LoginOutcome(reply: Reply): (r: Result<string, Error>)
    ensures r.Success? <==> reply.Text? && AuthToken.ExtractAuthToken(reply.body).Some?
    ensures r.Success? ==> AuthToken.IsToken(r.value)
    ensures r.Success? ==> AuthToken.ExtractAuthToken(reply.body) == Some(r.value)
    ensures r.Failure? ==> r.error == (if reply.Text? then AuthTokenNotFound else Transport(ClientLogin))
  {
    match reply
    case TransportError => Failure(Transport(ClientLogin))
    case Text(body) =>
      match AuthToken.ExtractAuthToken(body)
      case None => Failure(AuthTokenNotFound)
      case Some(token) => Success(token)
  }

  /** What a write-token exchange yields: the body without one trailing line feed. Any body is
      accepted, the empty one included. */
  function WriteTokenOutcome(reply: Reply): (r: Result<string, Error>)
    ensures r.Failure? <==> reply.TransportError?
    ensures r.Failure? ==> r.error == Transport(Token)
    ensures r.Success? ==> reply.body == r.value || reply.body == r.value + "\n"
    ensures r.Success? ==> (reply.body == r.value <==> reply.body == [] || reply.body[|reply.body| - 1] != '\n')
  {
    match reply
    case TransportError => Failure(Transport(Token))
    case Text(body) => Success(StripOneTrailing(body, '\n'))
  }

  /** What a reading-list exchange yields: the decoded page, never a partial one. */
  function UnreadItemsOutcome(reply: Reply, decode: Decoder): (r: Result<Response, Error>)
    ensures r.Success? <==> reply.Text? && decode(reply.body).Some?
    ensures r.Success? ==> decode(reply.body) == Some(r.value)
    ensures r.Failure? ==> r.error == (if reply.Text? then MalformedUnreadItems else Transport(ReadingList))
  {
    match reply
    case TransportError => Failure(Transport(ReadingList))
    case Text(body) =>
      match decode(body)
      case None => Failure(MalformedUnreadItems)
      case Some(page) => Success(page)
  }

  /** What an edit-tag exchange yields: the body, verbatim. */
  function EditTagOutcome(reply: Reply): (r: Result<string, Error>)
    ensures r.Failure? <==> reply.TransportError?
    ensures r.Failure? ==> r.error == Transport(EditTag)
    ensures r.Success? ==> r.value == reply.body
  {
    match reply
    case TransportError => Failure(Transport(EditTag))
    case Text(body) => Success(body)
  }

  /** What an unread-count exchange yields: the body read as a usize, or an error; never a
      default value. */
  function UnreadCountOutcome(reply: Reply): (r: Result<Usize, Error>)
    ensures r.Success? <==> reply.Text? && ParseUsize(reply.body).Some?
    ensures r.Success? ==> ParseUsize(reply.body) == Some(r.value)
    ensures r.Failure? ==> r.error == (if reply.Text? then MalformedUnreadCount else Transport(UnreadCount))
  {
    match reply
    case TransportError => Failure(Transport(UnreadCount))
    case Text(body) =>
      match ParseUsize(body)
      case None => Failure(MalformedUnreadCount)
      case Some(n) => Success(n)
  }

  class GoogleReader {
    const username: string
    const password: string
    /** The server URL as stored, after one trailing `/` was removed. */
    const serverUrl: string
    var authtoken: Option<string>
    var writeToken: Option<string>
    /** Whether the HTTP client has been created. */
    var client: bool

    /** A stored auth token is a non-empty run of non-whitespace characters and was obtained
        through the client; a write token is only ever fetched with an auth token in hand. */
    ghost predicate Valid()
      reads this
    {
      && (authtoken.Some? ==> client && AuthToken.IsToken(authtoken.value))
      && (writeToken.Some? ==> authtoken.Some?)
    }

    constructor (username: string, password: string, serverUrl: string)
      ensures this.username == username && this.password == password && this.serverUrl == serverUrl
      ensures authtoken == None && writeToken == None && !client
      ensures Valid()
    {
      this.username := username;
      this.password := password;
      this.serverUrl := serverUrl;
      authtoken := None;
      writeToken := None;
      client := false;
    }

    /** try_new: strips one trailing `/` from the server URL, fails when the URL parser rejects
        the result, and otherwise starts a session with nothing cached. `parsesAsUrl` stands for
        the URL parser. */
    static method TryNew(username: string, password: string, serverUrl: string, parsesAsUrl: string -> bool)
      returns (result: Result<GoogleReader, Error>)
      ensures var url := StripOneTrailing(serverUrl, '/');
        && (result.Failure? <==> !parsesAsUrl(url))
        && (result.Failure? ==> result.error == InvalidServerUrl)
        && (result.Success? ==>
              && fresh(result.value)
              && result.value.Valid()
              && result.value.serverUrl == url
              && result.value.username == username
              && result.value.password == password
              && result.value.authtoken.None?
              && result.value.writeToken.None?
              && !result.value.client)
    {
      var url := StripOneTrailing(serverUrl, '/');
      if !parsesAsUrl(url) {
        return Failure(InvalidServerUrl);
      }
      var reader := new GoogleReader(username, password, url);
      result := Success(reader);
    }

    /** POST <server>/accounts/ClientLogin with the Email and Passwd form fields. */
    function LoginRequest(): (r: Request)
      ensures r.verb == Post && r.base == serverUrl && r.path == ["accounts", "ClientLogin"]
      ensures r.query.None? && r.authorization.None?
      ensures FormValue(r.form, "Email") == Some(username) && FormValue(r.form, "Passwd") == Some(password)
      ensures |r.form| == 2 && r.form[0].0 == "Email" && r.form[1].0 == "Passwd"
    {
      Request(Post, serverUrl, LOGIN_PATH, None, LoginForm(username, password), None)
    }

    /** GET <server>/reader/api/0/token. */
    function TokenRequest(authorization: string): (r: Request)
      ensures r.verb == Get && r.base == serverUrl && r.path == ["reader", "api", "0", "token"]
      ensures r.query.None? && r.form == [] && r.authorization == Some(authorization)
    {
      Request(Get, serverUrl, TOKEN_PATH, None, [], Some(authorization))
    }

    /** GET <server>/reader/api/0/stream/contents/user/-/state/com.google/reading-list?<query>. */
    function UnreadItemsRequest(authorization: string, continuation: Option<string>): (r: Request)
      ensures r.verb == Get && r.base == serverUrl
      ensures r.path == ["reader", "api", "0", "stream", "contents", "user", "-", "state", "com.google", "reading-list"]
      ensures r.query == Some(UnreadItemsQuery(continuation))
      ensures r.form == [] && r.authorization == Some(authorization)
    {
      Request(Get, serverUrl, READING_LIST_PATH, Some(UnreadItemsQuery(continuation)), [], Some(authorization))
    }

    /** POST <server>/reader/api/0/edit-tag with the a, T and i form fields. */
    function EditTagRequest(authorization: string, writeToken: string, itemId: string): (r: Request)
      ensures r.verb == Post && r.base == serverUrl && r.path == ["reader", "api", "0", "edit-tag"]
      ensures r.query.None? && r.authorization == Some(authorization)
      ensures FormValue(r.form, "a") == Some(READ_STATE)
      ensures FormValue(r.form, "T") == Some(writeToken) && FormValue(r.form, "i") == Some(itemId)
      ensures |r.form| == 3 && r.form[0].0 == "a" && r.form[1].0 == "T" && r.form[2].0 == "i"
    {
      EditTagFormValues(writeToken, itemId);
      Request(Post, serverUrl, EDIT_TAG_PATH, None, EditTagForm(writeToken, itemId), Some(authorization))
    }

    /** GET <server>/reader/api/0/unread-count. */
    function UnreadCountRequest(authorization: string): (r: Request)
      ensures r.verb == Get && r.base == serverUrl && r.path == ["reader", "api", "0", "unread-count"]
      ensures r.query.None? && r.form == [] && r.authorization == Some(authorization)
    {
      Request(Get, serverUrl, UNREAD_COUNT_PATH, None, [], Some(authorization))
    }

    /** get_auth_headers: the Authorization value carrying the cached auth token. The source
        unwraps the token, so every caller must have one; the verifier checks that each does. */
    function AuthHeaders(): (h: string)
      reads this
      requires authtoken.Some?
      ensures TokenOfAuthorization(h) == authtoken
    {
      AuthorizationValue(authtoken.value)
    }

    /** The auth token an operation works with when it finds `cached`: the cached token, or
        else the token of the one login it sends first. */
    function AuthFor(cached: Option<string>, server: Server): Result<string, Error> {
      if cached.Some? then Success(cached.value)
      else
        match LoginOutcome(server(LoginRequest()))
        case Success(token) => Success(token)
        case Failure(e) => Failure(LoginFailed(e))
    }

    /** The login an operation sends before its own request: one when no token is cached. */
    function LoginSent(cached: Option<string>): seq<Request> {
      if cached.Some? then [] else [LoginRequest()]
    }

    /** login: creates the client if needed, sends the login request, and on a match stores the
        token, replacing any earlier one; on a failure the auth token is left as it was. */
    method Login(server: Server) returns (result: Result<(), Error>, sent: seq<Request>)
      requires Valid()
      modifies this
      ensures Valid() && client
      ensures sent == [LoginRequest()]
      ensures writeToken == old(writeToken)
      ensures var outcome := LoginOutcome(server(LoginRequest()));
        && (outcome.Success? ==> result == Success(()) && authtoken == Some(outcome.value))
        && (outcome.Failure? ==> result == Failure(outcome.error) && authtoken == old(authtoken))
    {
      var request := LoginRequest();
      if !client {
        client := true;
      }
      sent := [request];
      match server(request)
      case TransportError =>
        result := Failure(Transport(ClientLogin));
      case Text(body) =>
        match AuthToken.ExtractAuthToken(body)
        case None =>
          result := Failure(AuthTokenNotFound);
        case Some(token) =>
          authtoken := Some(token);
          result := Success(());
    }

    /** get_write_token: logs in only when no auth token is cached, then always fetches a new
        write token (a cached one is never read), stores it and returns it. */
    method GetWriteToken(server: Server) returns (result: Result<string, Error>, sent: seq<Request>)
      requires Valid()
      modifies this
      ensures Valid()
      ensures client == (old(client) || old(authtoken).None?)
      ensures var auth := AuthFor(old(authtoken), server);
        && (auth.Failure? ==>
              && result == Failure(auth.error)
              && sent == LoginSent(old(authtoken))
              && authtoken == old(authtoken) && writeToken == old(writeToken))
        && (auth.Success? ==>
              var request := TokenRequest(AuthorizationValue(auth.value));
              && authtoken == Some(auth.value)
              && sent == LoginSent(old(authtoken)) + [request]
              && result == WriteTokenOutcome(server(request))
              && writeToken == (if result.Success? then Some(result.value) else old(writeToken)))
    {
      sent := [];
      if authtoken.None? {
        var login;
        login, sent := Login(server);
        if login.Failure? {
          return Failure(LoginFailed(login.error)), sent;
        }
      }
      var request := TokenRequest(AuthHeaders());
      sent := sent + [request];
      assert client;  // the client the source unwraps to send exists
      match server(request)
      case TransportError =>
        result := Failure(Transport(Token));
      case Text(body) =>
        var token := StripOneTrailing(body, '\n');
        writeToken := Some(token);
        result := Success(token);
    }

    /** get_unread_items: logs in only when no auth token is cached, then fetches one page of
        the reading list, starting at `continuation` when one is given. */
    method GetUnreadItems(continuation: Option<string>, server: Server, decode: Decoder)
      returns (result: Result<Response, Error>, sent: seq<Request>)
      requires Valid()
      modifies this
      ensures Valid()
      ensures client == (old(client) || old(authtoken).None?)
      ensures writeToken == old(writeToken)
      ensures var auth := AuthFor(old(authtoken), server);
        && (auth.Failure? ==>
              && result == Failure(auth.error)
              && sent == LoginSent(old(authtoken))
              && authtoken == old(authtoken))
        && (auth.Success? ==>
              var request := UnreadItemsRequest(AuthorizationValue(auth.value), continuation);
              && authtoken == Some(auth.value)
              && sent == LoginSent(old(authtoken)) + [request]
              && result == UnreadItemsOutcome(server(request), decode))
    {
      sent := [];
      if authtoken.None? {
        var login;
        login, sent := Login(server);
        if login.Failure? {
          return Failure(LoginFailed(login.error)), sent;
        }
      }
      var request := UnreadItemsRequest(AuthHeaders(), continuation);
      sent := sent + [request];
      assert client;  // the client the source unwraps to send exists
      match server(request)
      case TransportError =>
        result := Failure(Transport(ReadingList));
      case Text(body) =>
        match decode(body)
        case None =>
          result := Failure(MalformedUnreadItems);
        case Some(page) =>
          result := Success(page);
    }

    /** mark_item_read: logs in only when no auth token is cached, reuses a cached write token
        or else fetches one, then posts the edit-tag form and returns the reply body verbatim. */
    method MarkItemRead(itemId: string, server: Server) returns (result: Result<string, Error>, sent: seq<Request>)
      requires Valid()
      modifies this
      ensures Valid()
      ensures client == (old(client) || old(authtoken).None?)
      ensures var auth := AuthFor(old(authtoken), server);
        && (auth.Failure? ==>
              && result == Failure(auth.error)
              && sent == LoginSent(old(authtoken))
              && authtoken == old(authtoken) && writeToken == old(writeToken))
        && (auth.Success? ==> authtoken == Some(auth.value))
        && (auth.Success? && old(writeToken).Some? ==>
              var request := EditTagRequest(AuthorizationValue(auth.value), old(writeToken).value, itemId);
              && sent == [request]
              && writeToken == old(writeToken)
              && result == EditTagOutcome(server(request)))
        && (auth.Success? && old(writeToken).None? ==>
              var tokenRequest := TokenRequest(AuthorizationValue(auth.value));
              var fetched := WriteTokenOutcome(server(tokenRequest));
              && (fetched.Failure? ==>
                    && result == Failure(WriteTokenFailed(fetched.error))
                    && sent == LoginSent(old(authtoken)) + [tokenRequest]
                    && writeToken == None)
              && (fetched.Success? ==>
                    var request := EditTagRequest(AuthorizationValue(auth.value), fetched.value, itemId);
                    && writeToken == Some(fetched.value)
                    && sent == LoginSent(old(authtoken)) + [tokenRequest, request]
                    && result == EditTagOutcome(server(request))))
    {
      sent := [];
      if authtoken.None? {
        var login;
        login, sent := Login(server);
        if login.Failure? {
          return Failure(LoginFailed(login.error)), sent;
        }
      }
      var token;
      match writeToken {
        case Some(cached) =>
          token := cached;
        case None =>
          var fetched, tokenSent := GetWriteToken(server);
          sent := sent + tokenSent;
          if fetched.Failure? {
            return Failure(WriteTokenFailed(fetched.error)), sent;
          }
          token := fetched.value;
      }
      var request := EditTagRequest(AuthHeaders(), token, itemId);
      sent := sent + [request];
      assert client;  // the client the source unwraps to send exists
      match server(request)
      case TransportError =>
        result := Failure(Transport(EditTag));
      case Text(body) =>
        result := Success(body);
    }

    /** unread_count: logs in only when no auth token is cached, then reads the count; a body
        that is not a usize is an error. */
    method UnreadCount(server: Server) returns (result: Result<Usize, Error>, sent: seq<Request>)
      requires Valid()
      modifies this
      ensures Valid()
      ensures client == (old(client) || old(authtoken).None?)
      ensures writeToken == old(writeToken)
      ensures var auth := AuthFor(old(authtoken), server);
        && (auth.Failure? ==>
              && result == Failure(auth.error)
              && sent == LoginSent(old(authtoken))
              && authtoken == old(authtoken))
        && (auth.Success? ==>
              var request := UnreadCountRequest(AuthorizationValue(auth.value));
              && authtoken == Some(auth.value)
              && sent == LoginSent(old(authtoken)) + [request]
              && result == UnreadCountOutcome(server(request)))
    {
      sent := [];
      if authtoken.None? {
        var login;
        login, sent := Login(server);
        if login.Failure? {
          return Failure(LoginFailed(login.error)), sent;
        }
      }
      var request := UnreadCountRequest(AuthHeaders());
      sent := sent + [request];
      assert client;  // the client the source unwraps to send exists
      match server(request)
      case TransportError =>
        result := Failure(Transport(Endpoint.UnreadCount));
      case Text(body) =>
        match ParseUsize(body)
        case None =>
          result := Failure(MalformedUnreadCount);
        case Some(n) =>
          result := Success(n);
    }
  }

  /** A server that answers the usual way, told apart by the path of a request. */
  function UsualServer(request: Request): Reply {
    if request.path == LOGIN_PATH then Text("SID=xxx\nAuth=abc123\n")
    else if request.path == TOKEN_PATH then Text("wT123\n")
    else if request.path == EDIT_TAG_PATH then Text("OK")
    else if request.path == UNREAD_COUNT_PATH then Text("ERROR")
    else Text("{}")
  }

  lemma UsualServerAnswers(reader: GoogleReader, authorization: string, writeToken: string, itemId: string)
    ensures UsualServer(reader.LoginRequest()) == Text("SID=xxx\nAuth=abc123\n")
    ensures UsualServer(reader.TokenRequest(authorization)) == Text("wT123\n")
    ensures UsualServer(reader.EditTagRequest(authorization, writeToken, itemId)) == Text("OK")
    ensures UsualServer(reader.UnreadCountRequest(authorization)) == Text("ERROR")
    ensures UsualServer(reader.UnreadItemsRequest(authorization, None)) == Text("{}")
  {
  }

  /** What a caller can conclude from the contracts alone, against UsualServer: a fresh session
      lists one page of unread items after exactly one login, and the page is the decoded body. */
  method ListOnFreshSession() {
    var reader := new GoogleReader("user", "secret", "https://example.com/api/greader.php");
    var itemA := Item("a", None, None, None, None, "First", [], [], [], map[], Summary(None, None));
    var itemB := Item("b", None, None, None, None, "Second", [], [], [], map[], Summary(None, None));
    var page := Response("user/-/state/com.google/reading-list", [itemA, itemB], 0, None);
    var decode: Decoder := (body: string) => Some(page);
    var authorization := AuthorizationValue("abc123");
    UsualServerAnswers(reader, authorization, "", "");
    AuthToken.ExtractFromUsualReply();
    assert reader.AuthFor(None, UsualServer) == Success("abc123");
    assert UnreadItemsOutcome(Text("{}"), decode) == Success(page);
    var listed, sent := reader.GetUnreadItems(None, UsualServer, decode);
    assert listed == Success(page) && page.continuation.None?;
    assert sent == [reader.LoginRequest(), reader.UnreadItemsRequest(authorization, None)];
    assert reader.authtoken == Some("abc123") && reader.writeToken.None?;
  }

  /** On the session ListOnFreshSession leaves behind, marking item "a" read fetches one write
      token and posts it as `T` with `i=a`, without logging in again. */
  method ListThenMarkRead() {
    var reader := new GoogleReader("user", "secret", "https://example.com/api/greader.php");
    var page := Response("user/-/state/com.google/reading-list", [], 0, None);
    var decode: Decoder := (body: string) => Some(page);
    var authorization := AuthorizationValue("abc123");
    UsualServerAnswers(reader, authorization, "wT123", "a");
    AuthToken.ExtractFromUsualReply();
    StripOneTrailingExamples();
    assert reader.AuthFor(None, UsualServer) == Success("abc123");
    assert UnreadItemsOutcome(Text("{}"), decode) == Success(page);
    assert WriteTokenOutcome(Text("wT123\n")) == Success("wT123");
    var listed, listSent := reader.GetUnreadItems(None, UsualServer, decode);
    assert reader.authtoken == Some("abc123") && reader.writeToken.None?;
    var marked, sent := reader.MarkItemRead("a", UsualServer);
    assert sent == [reader.TokenRequest(authorization), reader.EditTagRequest(authorization, "wT123", "a")];
    assert marked == Success("OK") && reader.writeToken == Some("wT123");
    assert FormValue(sent[1].form, "T") == Some("wT123") && FormValue(sent[1].form, "i") == Some("a");
  }

  /** Once a session has fetched a write token, marking an item read reuses it: one edit-tag
      request, no login and no token request. */
  method MarkReadReusesWriteToken() {
    var reader := new GoogleReader("user", "secret", "https://example.com/api/greader.php");
    var authorization := AuthorizationValue("abc123");
    UsualServerAnswers(reader, authorization, "wT123", "b");
    AuthToken.ExtractFromUsualReply();
    StripOneTrailingExamples();
    assert reader.AuthFor(None, UsualServer) == Success("abc123");
    assert WriteTokenOutcome(Text("wT123\n")) == Success("wT123");
    var first, firstSent := reader.GetWriteToken(UsualServer);
    assert reader.writeToken == Some("wT123") && reader.authtoken == Some("abc123");
    var again, againSent := reader.MarkItemRead("b", UsualServer);
    assert againSent == [reader.EditTagRequest(authorization, "wT123", "b")];
    assert again == Success("OK");
  }

  /** Against a server whose unread-count body is "ERROR", the count is a parse failure. */
  method UnreadCountOfErrorBody() {
    var reader := new GoogleReader("user", "secret", "https://example.com/api/greader.php");
    var authorization := AuthorizationValue("abc123");
    UsualServerAnswers(reader, authorization, "", "");
    AuthToken.ExtractFromUsualReply();
    assert reader.AuthFor(None, UsualServer) == Success("abc123");
    ParseUsizeRejectsNonNumeric(0);
    assert UnreadCountOutcome(Text("ERROR")) == Failure(MalformedUnreadCount);
    var count, sent := reader.UnreadCount(UsualServer);
    assert count == Failure(MalformedUnreadCount);
    assert sent == [reader.LoginRequest(), reader.UnreadCountRequest(authorization)];
  }
}
