/** One gateway session (`Gateway`): the decisions it makes on each request
    once its I/O is abstracted. Every HTTP round trip becomes a function
    parameter from the request to what came back; the JSON decoders become
    parameters from a body to the record they fill in. */
module Gateway {
  import opened GoValues
  import opened TeslaErrors
  import opened Writer

  /** What `NewGateway` records. The HTTP client, its cookie jar and the
      login guard are not modelled. */
  datatype Gateway = Gateway(host: Bytes, email: Bytes, password: Bytes, loginTimeout: int)

  function NewGateway(host: Bytes, email: Bytes, password: Bytes, loginTimeout: int): (g: Gateway)
    ensures g.host == host && g.email == email && g.password == password
    ensures g.loginTimeout == loginTimeout
  {
    Gateway(host, email, password, loginTimeout)
  }

  const Scheme: Bytes := Of("https://")
  const Slash: byte := 47

  /** The outcome of one HTTP round trip: an error before a body could be
      read in full (a URL that does not parse, a request that cannot be
      built, a transport failure, a failed read), or the whole body. */
  datatype Fetch = Failed(err: Error) | Received(body: Bytes)

  /** What a call to the gateway returns: the bytes and an error. */
  datatype CallResult = CallResult(data: Bytes, err: Option<Error>)

  // ---- URLs ----

  /** The URL a request is forwarded to (`convertToTeslaPath`): the scheme,
      the gateway's host, a slash, then the inbound path copied verbatim.
      Inbound paths begin with a slash, so the result carries two. */
  function ProxyUrl(g: Gateway, path: Bytes): Bytes
  {
    Scheme + g.host + [Slash] + path
  }

  const LoginPath: Bytes := Of("api/login/Basic")

  /** The URL the login request is posted to. */
  function LoginUrl(g: Gateway): Bytes
  {
    Scheme + g.host + [Slash] + LoginPath
  }

  function IndexOf(s: Bytes, b: byte): (r: Option<nat>)
    ensures r.Some? ==> r.value < |s| && s[r.value] == b
    ensures r.Some? ==> forall j :: 0 <= j < r.value ==> s[j] != b
    ensures r.None? ==> b !in s
    decreases |s|
  {
    if |s| == 0 then None
    else if s[0] == b then Some(0)
    else match IndexOf(s[1..], b)
      case None => None
      case Some(k) => Some(k + 1)
  }

  /** Reads an https URL back into its host and the path after the first
      slash. */
  function SplitUrl(u: Bytes): Option<(Bytes, Bytes)>
  {
    if |u| >= |Scheme| && u[..|Scheme|] == Scheme then
      var rest := u[|Scheme|..];
      match IndexOf(rest, Slash)
      case None => None
      case Some(k) => Some((rest[..k], rest[k + 1..]))
    else None
  }

  lemma {:induction false} IndexOfAfterPrefix(host: Bytes, tail: Bytes)
    requires Slash !in host
    ensures IndexOf(host + [Slash] + tail, Slash) == Some(|host|)
    decreases |host|
  {
    var s := host + [Slash] + tail;
    if |host| > 0 {
      assert s[1..] == host[1..] + [Slash] + tail;
      IndexOfAfterPrefix(host[1..], tail);
    }
  }

  lemma SplitJoined(host: Bytes, tail: Bytes)
    requires Slash !in host
    ensures SplitUrl(Scheme + host + [Slash] + tail) == Some((host, tail))
  {
    var u := Scheme + host + [Slash] + tail;
    assert u[..|Scheme|] == Scheme;
    var rest := host + [Slash] + tail;
    assert u[|Scheme|..] == rest;
    IndexOfAfterPrefix(host, tail);
    assert rest[..|host|] == host;
    assert rest[|host| + 1..] == tail;
  }

  /** For a host without a slash, the proxied URL loses nothing: host and
      path are read back exactly, the path byte for byte. A host is only
      checked for being non-empty, so one with a slash is accepted, and its
      URL then reads back as a different host and path. */
  lemma ProxyUrlRoundTrip(g: Gateway, path: Bytes)
    requires Slash !in g.host
    ensures SplitUrl(ProxyUrl(g, path)) == Some((g.host, path))
  {
    SplitJoined(g.host, path);
  }

  /** For a host without a slash, the login request goes to the same host,
      at `api/login/Basic`. */
  lemma LoginUrlRoundTrip(g: Gateway)
    requires Slash !in g.host
    ensures SplitUrl(LoginUrl(g)) == Some((g.host, LoginPath))
  {
    SplitJoined(g.host, LoginPath);
  }

  // ---- login ----

  /** The login request body's fields. */
  datatype LoginRequest = LoginRequest(url: Bytes, username: Bytes, email: Bytes, password: Bytes, forceSmOff: bool)

  const LoginUsername: Bytes := Of("customer")

  function LoginRequestFor(g: Gateway): LoginRequest
  {
    LoginRequest(LoginUrl(g), LoginUsername, g.email, g.password, false)
  }

  /** What decoding a login reply into `{token, loginTime}` gives: the token
      field (empty when absent), or the decoder's error. */
  datatype TokenDecode = TokenField(token: Bytes) | Undecodable(err: Error)

  /** One login attempt (`runLogin`). A transport failure is returned as is;
      an error classified from the body comes next, before the token is
      looked at; then a decode failure; then a clean reply without a token
      is itself an error. */
  function RunLogin(g: Gateway, post: LoginRequest -> Fetch,
                    decodeError: Bytes -> JsonRecord, decodeToken: Bytes -> TokenDecode): (r: Option<Error>)
    ensures var reply := post(LoginRequestFor(g));
      && (reply.Failed? ==> r == Some(reply.err))
      && (reply.Received? && GetError(decodeError(reply.body)).Some? ==> r == GetError(decodeError(reply.body)))
      && ((reply.Received? && GetError(decodeError(reply.body)).None? && decodeToken(reply.body).Undecodable?)
          ==> r == Some(decodeToken(reply.body).err))
      && ((reply.Received? && GetError(decodeError(reply.body)).None? && decodeToken(reply.body) == TokenField([]))
          ==> r == Some(TokenMissing))
    ensures var reply := post(LoginRequestFor(g));
      r.None? <==> reply.Received? && GetError(decodeError(reply.body)).None?
                   && decodeToken(reply.body).TokenField? && decodeToken(reply.body).token != []
  {
    match post(LoginRequestFor(g))
    case Failed(err) => Some(err)
    case Received(body) =>
      match GetError(decodeError(body))
      case Some(err) => Some(err)
      case None =>
        match decodeToken(body)
        case Undecodable(err) => Some(err)
        case TokenField(token) => if token == [] then Some(TokenMissing) else None
  }

  /** The request posted by a login attempt: user `customer`, the
      configured email and password, `force_sm_off` false, at the login URL. */
  lemma LoginRequestShape(g: Gateway)
    ensures var req := LoginRequestFor(g);
      && req.url == LoginUrl(g)
      && req.username == LoginUsername
      && req.email == g.email && req.password == g.password
      && !req.forceSmOff
  {
  }

  /** For a host without a slash, the login request is posted to that host
      at the login path. */
  lemma LoginRequestTarget(g: Gateway)
    requires Slash !in g.host
    ensures SplitUrl(LoginRequestFor(g).url) == Some((g.host, LoginPath))
  {
    LoginUrlRoundTrip(g);
  }

  /** A reply whose body classifies as an error fails the login with that
      error, whatever token the body also carries. */
  lemma LoginBodyErrorFirst(g: Gateway, post: LoginRequest -> Fetch,
                            decodeError: Bytes -> JsonRecord, decodeToken: Bytes -> TokenDecode, body: Bytes)
    requires post(LoginRequestFor(g)) == Received(body)
    requires GetError(decodeError(body)).Some?
    ensures RunLogin(g, post, decodeError, decodeToken) == GetError(decodeError(body))
  {
  }

  /** Where `Login` waits: the caller's context, which `Background` never
      finishes, or one that finishes with the given cause. */
  datatype CallerContext = Background | Cancelable(cause: ContextError)

  /** Which of the two waited-for events happens first in `Login`'s select. */
  datatype Race = ContextFirst | LoginFirst

  /** `Login`: starts (or joins) a login in the background and waits for it
      or for the caller's context. The login's own outcome is only logged. */
  function Login(ctx: CallerContext, race: Race, loginOutcome: Option<Error>): (r: Option<Error>)
    ensures r.Some? <==> ctx.Cancelable? && race == ContextFirst
    ensures r.Some? ==> r.value == Context(ctx.cause)
  {
    if ctx.Cancelable? && race == ContextFirst then Some(Context(ctx.cause)) else None
  }

  /** The login's own success or failure never reaches `Login`'s caller. */
  lemma LoginIgnoresOutcome(ctx: CallerContext, race: Race, a: Option<Error>, b: Option<Error>)
    ensures Login(ctx, race, a) == Login(ctx, race, b)
  {
  }

  /** Waiting on a context that never finishes always returns nil. */
  lemma BackgroundLoginIsNil(race: Race, loginOutcome: Option<Error>)
    ensures Login(Background, race, loginOutcome).None?
  {
  }

  // ---- proxying ----

  /** One forwarded call (`ProxyCall`): GET the proxied URL; any failure
      before the body is read yields no bytes; otherwise the whole body is
      returned together with its classification. */
  function ProxyCall(g: Gateway, path: Bytes, get: Bytes -> Fetch, decodeError: Bytes -> JsonRecord): (r: CallResult)
    ensures get(ProxyUrl(g, path)).Failed? ==> r == CallResult([], Some(get(ProxyUrl(g, path)).err))
    ensures get(ProxyUrl(g, path)).Received? ==>
      r.data == get(ProxyUrl(g, path)).body && r.err == GetError(decodeError(r.data))
  {
    match get(ProxyUrl(g, path))
    case Failed(err) => CallResult([], Some(err))
    case Received(body) => CallResult(body, GetError(decodeError(body)))
  }

  /** Data is returned without an error only when a body was read and it
      does not classify as an error. */
  lemma ProxyCallCleanMeansBody(g: Gateway, path: Bytes, get: Bytes -> Fetch, decodeError: Bytes -> JsonRecord)
    ensures ProxyCall(g, path, get, decodeError).err.None? <==>
      get(ProxyUrl(g, path)).Received? && GetError(decodeError(get(ProxyUrl(g, path)).body)).None?
  {
  }

  const MaxAttempts := 2

  /** Errors after which a fresh login is attempted. */
  predicate TriggersLogin(e: Error) {
    e == Unauthorized || e == Context(Canceled)
  }

  /** The retry predicate: `loginResult` is what `Login` returned, and is
      consulted only when the error triggers a login. */
  predicate RetryIf(e: Error, loginResult: Option<Error>) {
    TriggersLogin(e) && loginResult.None?
  }

  /** The attempt loop of `ServeHTTP`. `calls[k]` is what attempt k+1 of
      `ProxyCall` returns and `logins[k]` what `Login` returns if it is
      invoked after that attempt. Another attempt is made only while the
      bound allows one and the last error passes the retry predicate. */
  method Attempts(calls: seq<CallResult>, logins: seq<Option<Error>>) returns (n: nat, last: CallResult)
    requires |calls| == MaxAttempts && |logins| == MaxAttempts
    ensures 1 <= n <= MaxAttempts
    ensures last == calls[n - 1]
    ensures forall k :: 0 <= k < n - 1 ==> calls[k].err.Some? && RetryIf(calls[k].err.value, logins[k])
    ensures n < MaxAttempts ==> last.err.None? || !RetryIf(last.err.value, logins[n - 1])
    ensures n == 2 <==> calls[0].err.Some? && RetryIf(calls[0].err.value, logins[0])
  {
    n := 1;
    last := calls[0];
    while n < MaxAttempts && last.err.Some? && RetryIf(last.err.value, logins[n - 1])
      invariant 1 <= n <= MaxAttempts
      invariant last == calls[n - 1]
      invariant forall k :: 0 <= k < n - 1 ==> calls[k].err.Some? && RetryIf(calls[k].err.value, logins[k])
      decreases MaxAttempts - n
    {
      last := calls[n];
      n := n + 1;
    }
  }

  // ---- the reply ----

  const ContentType: Bytes := Of("Content-Type")
  const JsonType: Bytes := Of("application/json")
  const TextType: Bytes := Of("text/plain; charset=utf-8")
  const Newline: byte := 10

  /** `http.Error`: a plain-text header, the status, then the text and a
      newline. */
  function HttpError(text: Bytes, code: int): seq<WriterOp>
  {
    [SetHeader(ContentType, TextType), SetHeader(Of("X-Content-Type-Options"), Of("nosniff")),
     WriteHeader(code), Write(text + [Newline])]
  }

  /** The reply for the final error of the attempt loop: 403 for the
      unauthorized error, 400 for any other, the raw data as JSON for none. */
  function Respond(final: Option<Error>, data: Bytes): seq<WriterOp>
  {
    match final
    case Some(Unauthorized) => HttpError(ErrorText(Unauthorized), 403)
    case Some(e) => HttpError(ErrorText(e), 400)
    case None => [SetHeader(ContentType, JsonType), Write(data)]
  }

  /** What a buffered writer captures from that reply. */
  function StatusFor(final: Option<Error>): int
  {
    match final
    case None => 0
    case Some(Unauthorized) => 403
    case Some(_) => 400
  }

  lemma RespondCaptured(final: Option<Error>, data: Bytes)
    ensures Replay(Fresh, Respond(final, data)) ==
      if final.None? then Captured(0, data)
      else Captured(StatusFor(final), ErrorText(final.value) + [Newline])
    ensures final.None? ==> SetHeader(ContentType, JsonType) in Respond(final, data)
    ensures final.Some? ==> SetHeader(ContentType, TextType) in Respond(final, data)
  {
    var ops := Respond(final, data);
    HeadersAreDiscarded(Fresh, ops);
    assert ops[2..] == WithoutHeaders(ops[2..]) by {
      if final.None? {
        assert ops[2..] == [];
      } else {
        assert ops[2..] == [ops[2], ops[3]];
        assert ops[2..][1..] == [ops[3]];
        assert ops[2..][1..][1..] == [];
      }
    }
    if final.None? {
      assert WithoutHeaders(ops) == [Write(data)] by {
        assert ops[1..] == [Write(data)];
        assert ops[1..][1..] == [];
      }
      ReplayShort(Fresh, Write(data), Write(data));
    } else {
      var text := ErrorText(final.value) + [Newline];
      assert WithoutHeaders(ops) == [WriteHeader(StatusFor(final)), Write(text)] by {
        assert ops[1..][1..] == ops[2..];
      }
      ReplayShort(Fresh, WriteHeader(StatusFor(final)), Write(text));
    }
  }
}
