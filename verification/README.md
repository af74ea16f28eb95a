# tesla-powerwall-local: the proxy's decision logic in Dafny

The proxy stands in front of one or more Tesla Powerwall gateways. Each
gateway speaks HTTPS only and needs a cookie-based login session. The proxy
hides the login behind a plain HTTP interface. When several gateways are
configured, it sends every request to all of them and returns the first
usable answer.

This project models the sequential decisions the proxy makes, with the
goroutines, HTTP and JSON plumbing abstracted away:

- **Fan-out response selection** (`Handlers.ServeHTTP`, module `FanOut`).
  It is a fold over the per-backend captures, taken in arrival order. The
  result is the list of calls the aggregator makes on the caller's response
  writer. The buffered writer (module `Writer`) replays such a list of
  calls.
- **The error-body classifier** (`jsonError.getError`, module
  `TeslaErrors`). It is total and gives one of three answers: Unauthorized,
  no error, or a generic API error.
- **One gateway session** (`Gateway`, module `Gateway`). This covers:
  - the URLs it builds;
  - the login request and the rule for a login reply;
  - what `ProxyCall` returns;
  - the attempt loop with its retry predicate and 2-attempt bound;
  - the mapping of the final error to a reply (403, 400, or the JSON data);
  - the result rule of `Login`.
- **Start-up** (`main` and `validateParameters`, module `Startup`): the
  ordered validator, one handler per host, and the go/no-go gate.
- **Gateways behind the fan-out** (module `GatewayFanOut`): what the aggregator
  makes of the replies that gateways write.

Go strings and byte slices are both modelled as `GoValues.Bytes`, a sequence
of bytes. Every network round trip is a function parameter. It maps the
request (or URL) to either a failure or the whole body. The JSON decoders
are also parameters: each maps a body to the record that decoding fills in.
The all-zero record stands for a body that does not decode.

Some consequences of the code that the model keeps:

- A canceled gateway call is answered with 400, because `ServeHTTP` has no
  408 branch (pkg/tesla/proxy.go:82-91). As a result, gateway replies are
  never skipped as "not ready" by the aggregator
  (`GatewayFanOut.GatewayCapture`, `GatewayFanOut.FanOutOverGateways`).
- The winning success's status is not copied to the caller; only its body
  is written (pkg/httpsproxy/handlers.go:48).
- An empty `message` field on its own classifies as "no error", by Go's
  precedence of `&&` over `||` at pkg/tesla/json_error.go:21.
- The proxied URL is `https://` + host + `/` + the inbound path, with the
  path copied verbatim. Inbound paths begin with `/`, so the URL contains
  `//` after the host. The model keeps this.
- A host is only checked for being non-empty
  (cmd/tesla-powerwall-proxy/tesla-powerwall-proxy.go:61-65), so a host
  containing `/` is accepted. The URL round trips are stated for hosts
  without a slash.

## Model

| member | source | states |
|---|---|---|
| GoValues.DecimalRoundTrip | pkg/tesla/json_error.go:24-28 | The `%d` rendering of the error code can be read back to the same integer, negative codes included. |
| GoValues.Quote | pkg/tesla/json_error.go:24-28 | A `%q` rendering is enclosed in double quotes. Unescaping its inside gives back the original string. |
| Writer.Header | pkg/httpsproxy/handlers.go:67-69 | `Header` returns a fresh, empty (non-nil) map on every call. |
| Writer.WriteHeaderTo | pkg/httpsproxy/handlers.go:71-73 | `WriteHeader` overwrites the stored status and leaves the body unchanged. |
| Writer.WriteTo | pkg/httpsproxy/handlers.go:75-77 | `Write` appends the bytes after the existing body and leaves the status unchanged. |
| Writer.ReplayMeaning | pkg/httpsproxy/handlers.go:62-77 | After any sequence of calls, the writer holds the status of the last `WriteHeader` (the earlier status if there was none) and every written byte, concatenated in call order. |
| Writer.HeadersAreDiscarded | pkg/httpsproxy/handlers.go:67-69 | Headers a handler sets never reach the capture: the result is the same with or without them. |
| Writer.WriterTest | pkg/httpsproxy/handlers_test.go:119-136 | The writer's own test: the header map is non-nil and empty; 418 is then stored; then "hello" is the body. |
| FanOut.ScanRemembering | pkg/httpsproxy/handlers.go:32-36 | Once a failure is remembered, every later non-OK result is ignored. Only a later success displaces the remembered failure. |
| FanOut.ServeOpsFollowsPolicy | pkg/httpsproxy/handlers.go:30-58 | The selection loop equals the position-based policy: body of the first success; else the first non-OK, non-408 result replayed with its status; else 417. |
| FanOut.Aggregate | pkg/httpsproxy/handlers.go:47-58 | No arrivals give 417 with an empty body. The status is never 408. The status is 0 (success), 417, or some input's status. The body is empty or some input's body. |
| FanOut.FirstSuccessWins | pkg/httpsproxy/handlers.go:30-50 | The first result with status 0 or 200 wins, even after earlier failures. Only its body is written; no status is written. |
| FanOut.LaterArrivalsIgnored | pkg/httpsproxy/handlers.go:47-49 | Results that arrive after the winning success do not change the response. |
| FanOut.FirstFailureReported | pkg/httpsproxy/handlers.go:30-58 | With no success, the caller gets the status and body of the first result that is not 0, 200 or 408. Later failures are discarded. |
| FanOut.OnlySoftTimeouts | pkg/httpsproxy/handlers.go:37-55 | When every result is 408, or there are none, the caller gets 417 and an empty body. A 408 is never reported. |
| FanOut.SuccessIffSomeSuccess | pkg/httpsproxy/handlers.go:30-58 | The aggregate is a success exactly when some backend result is a success. |
| FanOut.SuccessIndependentOfArrivalOrder | pkg/httpsproxy/handlers.go:12-31 | Whether the caller gets a success does not depend on the order in which the concurrent handlers finish. |
| FanOut.TableTests | pkg/httpsproxy/handlers_test.go:11-117 | The seven table tests of the fan-out handler, as arrival sequences, give the expected status and body. |
| TeslaErrors.GetError | pkg/tesla/json_error.go:17-29 | The classifier returns nil, the Unauthorized sentinel, or a generic API error that carries the record's code, error and message unchanged. |
| TeslaErrors.UnauthorizedWhateverError | pkg/tesla/json_error.go:18-20 | Code 403 with exactly the "adequate access rights" message classifies as Unauthorized, whatever the error field holds. |
| TeslaErrors.UnauthorizedExactly | pkg/tesla/json_error.go:18-20 | Unauthorized is returned if and only if the code is 403 and the message is the sentinel text. No other code yields it. |
| TeslaErrors.NoErrorExactly | pkg/tesla/json_error.go:21-23 | "No error" holds if and only if the message is empty, or both the code is 0 and the error is empty. |
| TeslaErrors.ApiErrorOtherwise | pkg/tesla/json_error.go:24-28 | Every other record classifies as a generic API error with its code, error and message. |
| TeslaErrors.ZeroRecordIsClean | pkg/tesla/proxy.go:220-224 | The all-zero record, which an undecodable or unrelated body leaves behind, classifies as no error. |
| GoValues.ReadDecimalRoundTrip | pkg/tesla/json_error.go:24-28 | A `%d` rendering followed by a non-digit is read back to the same integer, and reading stops exactly where the rendering ends. |
| GoValues.ReadQuotedRoundTrip | pkg/tesla/json_error.go:24-28 | An escaped `%q` body contains no unescaped double quote, so a `%q` rendering followed by anything is read back to the original string, and reading stops at its closing quote. |
| TeslaErrors.ApiTextRoundTrip | pkg/tesla/json_error.go:24-28 | The generic error text has the layout `error from api: code %d, error: %q, message: %q`, and parsing it gives back exactly the code, error and message. |
| TeslaErrors.ApiTextInjective | pkg/tesla/json_error.go:24-28 | Two generic errors with the same text have the same code, error and message. |
| Gateway.NewGateway | pkg/tesla/proxy.go:30-46 | A new gateway records the host, email, password and login timeout it was given. |
| Gateway.ProxyUrlRoundTrip | pkg/tesla/proxy.go:216-218 | For a host without a slash, the proxied URL is `https://` + host + `/` + path, and splitting it returns the host and the path exactly. |
| Gateway.LoginUrlRoundTrip | pkg/tesla/proxy.go:146 | For a host without a slash, the login URL names the same host, with path `api/login/Basic`. |
| Gateway.LoginRequestShape | pkg/tesla/proxy.go:131-146 | For every host, the login posts username "customer", the configured email and password, and `force_sm_off` false, to the login URL. |
| Gateway.LoginRequestTarget | pkg/tesla/proxy.go:131-146 | For a host without a slash, the login request is posted to that host at `api/login/Basic`. |
| Gateway.RunLogin | pkg/tesla/proxy.go:130-188 | A transport failure is returned unchanged. Then a body classified as an error is returned, before the token is checked. Then a token decode error. Then an empty token gives "token missing, unknown response error". The login succeeds if and only if none of these apply. |
| Gateway.LoginBodyErrorFirst | pkg/tesla/proxy.go:169-171 | A reply whose body classifies as an error fails the login with that error, whatever token the body carries. |
| Gateway.Login | pkg/tesla/proxy.go:102-127 | `Login` returns the context's error if and only if the caller's context finishes first. Otherwise it returns nil. |
| Gateway.LoginIgnoresOutcome | pkg/tesla/proxy.go:107-115 | The background login's own success or failure never changes what `Login` returns. |
| Gateway.BackgroundLoginIsNil | pkg/tesla/proxy.go:119-126 | Waiting on a background context, which is never done, always returns nil. |
| Gateway.ProxyCall | pkg/tesla/proxy.go:191-214 | Any failure before the body is read gives empty bytes and that error. Otherwise the call returns the full body and the body's classification. |
| Gateway.ProxyCallCleanMeansBody | pkg/tesla/proxy.go:208-213 | A call returns no error if and only if a body was read and it does not classify as an error. |
| Gateway.Attempts | pkg/tesla/proxy.go:65-81 | One or two attempts are made, and the last one's result is kept. A second attempt happens if and only if the first failed with Unauthorized or Canceled and `Login` then returned nil. |
| Gateway.RespondCaptured | pkg/tesla/proxy.go:82-97 | A final Unauthorized gives 403 with the error text. Any other error gives 400 with its text. No error gives the raw data, labelled `application/json`, with no status written. |
| GatewayFanOut.GatewayCapture | pkg/tesla/proxy.go:82-97 | A gateway's reply is never a 408. It is a success if and only if the final error is nil. |
| GatewayFanOut.FanOutOverGateways | pkg/httpsproxy/handlers.go:30-58 | Over gateway replies, the caller gets a success exactly when some gateway succeeded. The caller gets 417 only when there are no gateways. |
| Startup.MessageRoundTrip | cmd/tesla-powerwall-proxy/tesla-powerwall-proxy.go:57-71 | Each validation error has its own message; the message identifies the error. |
| Startup.HasEmptyHost | cmd/tesla-powerwall-proxy/tesla-powerwall-proxy.go:61-65 | The host loop detects an empty string if and only if one of the hosts is empty. |
| Startup.ValidateParameters | cmd/tesla-powerwall-proxy/tesla-powerwall-proxy.go:57-74 | Checks run in the order: hosts present, no empty host, username, password. The first failing check's error is returned. Nil is returned if and only if all four checks pass. |
| Startup.HandlersFor | cmd/tesla-powerwall-proxy/tesla-powerwall-proxy.go:32-42 | There is one gateway per host, in host order, each built with the shared credentials and timeout. |
| Startup.CountNil | cmd/tesla-powerwall-proxy/tesla-powerwall-proxy.go:30-39 | The success count is at most the number of hosts. It is 0 exactly when every result is an error, and equals the number of hosts exactly when none is. |
| Startup.MainAsWritten | cmd/tesla-powerwall-proxy/tesla-powerwall-proxy.go:17-47 | An invalid configuration ends start-up with that validation error's message. |
| Startup.MainAsWrittenIgnoresLogins | cmd/tesla-powerwall-proxy/tesla-powerwall-proxy.go:30-47 | As written, a valid configuration always serves one gateway per host, whatever the logins ended with and whatever `force` says. |
| Startup.WrongPasswordStillServes | cmd/tesla-powerwall-proxy/tesla-powerwall-proxy.go:34-47 | One host, a rejected login and no `force`: as written, the proxy still starts serving. |
| Startup.Main | cmd/tesla-powerwall-proxy/tesla-powerwall-proxy.go:44-47 | Corrected start-up: the success count is taken from the real login outcomes rather than from `Login` on a background context, so a valid configuration serves exactly when `force` is set or some login succeeded. An invalid configuration still ends start-up with that validation error's message. |
| Startup.MainGate | cmd/tesla-powerwall-proxy/tesla-powerwall-proxy.go:44-47 | With a valid configuration, start-up serves if and only if `force` is set or some login succeeded. When it serves, every host has a handler, failed ones included. Otherwise it exits with a message naming the hosts. |

## Findings

| source | as written | input that shows it | evidently intended | confidence | as-written member | corrected member |
|---|---|---|---|---|---|---|
| cmd/tesla-powerwall-proxy/tesla-powerwall-proxy.go:34 | `main` waits for each login with `Login(context.Background())`. A background context is never done, so `Login` always returns nil. `successes` then equals the number of hosts, and the `force` check at line 45 can never stop start-up. | One host, a wrong password, `force` off: the login fails, yet the proxy starts serving. | A host counts as a success only when its login succeeded. The comment at line 44, the "check your username/password" log text and the `force` flag's help text all say so. | high that the gate cannot fire; medium on the intended rule; not executed | Startup.MainAsWrittenIgnoresLogins | Startup.MainGate |

## Left out

- The resettable single-flight guard (pkg/retrysync/once.go): its behaviour is concurrent deduplication of waiters. Logins are taken as finished with some outcome.
- Goroutines, the channel and the wait group of the fan-out: they become an arrival order given as input. Handlers that lose the race are not modelled, and neither is their cancellation.
- The `net/http` client, the cookie jar, the process-wide TLS override, `ioutil.ReadAll`, context deadlines and the login timeout's effect: library or runtime behaviour. Each round trip is a parameter that yields a failure or a whole body.
- `url.Parse`: a URL that does not parse is one of the failures a round trip can yield. JSON marshalling of the login body is not modelled (it cannot fail for that record); the login request is the record of its fields.
- JSON decoding: each decoder is a parameter from a body to the record it fills in.
- Gateway.Attempts: does not model the error value `retry.Do` returns, whether the retry predicate (and so `Login`) runs again after the last attempt, or the abort when the request context ends between attempts. These are library internals. For the same reason, the final error is an independent input to `Respond`.
- Gateway.ProxyCall: does not model the wrapping of a canceled request in a URL error by the HTTP client. A failure may be given as the bare `Canceled` error directly.
- Gateway.ProxyUrlRoundTrip, Gateway.LoginUrlRoundTrip, Gateway.LoginRequestTarget: stated only for hosts without a slash. The validator accepts such a host, and its URL then splits at the host's own slash, so no round trip holds for it.
- GoValues.Quote: escapes only the double quote and the backslash. Go's `%q` also escapes control bytes, non-printable characters and invalid UTF-8.
- Gateway.RespondCaptured: does not model the `Content-Length` removal that `http.Error` does. A buffered writer drops headers, so headers appear only as `SetHeader` calls.
- Logging, `pflag` parsing, `ListenAndServe`, the static root page, and the fatal exit when the cookie jar cannot be created: I/O or process glue with no decision in it.
