/** The gateway's error values and the classifier of structured error
    bodies (`jsonError.getError`). Go compares error values by identity; here
    every error the proxy distinguishes is its own constructor, so identity
    becomes structural equality. */
module TeslaErrors {
  import opened GoValues

  /** The text of the `ErrUnauthorized` sentinel, which is also the message
      the gateway sends when a session is not (or no longer) logged in. */
  const UnauthorizedText: Bytes := Of("User does not have adequate access rights")

  const UnauthorizedCode := 403

  /** What `ctx.Err()` holds once a context is done. */
  datatype ContextError = Canceled | DeadlineExceeded

  datatype Error =
    | Unauthorized
      /** A structured error body that is not the unauthorized one. */
    | Api(code: int, error: Bytes, message: Bytes)
      /** A login reply that decoded cleanly but carried no token. */
    | TokenMissing
    | Context(cause: ContextError)
      /** An error produced by a library: a transport failure, a body that
          could not be read or decoded. Only its text is visible. */
    | Other(text: Bytes)

  /** The text `err.Error()` returns. */
  function ErrorText(e: Error): Bytes
  {
    match e
    case Unauthorized => UnauthorizedText
    case Api(code, error, message) =>
      Of("error from api: code ") + Decimal(code) + Of(", error: ") + Quote(error)
        + Of(", message: ") + Quote(message)
    case TokenMissing => Of("token missing, unknown response error")
    case Context(Canceled) => Of("context canceled")
    case Context(DeadlineExceeded) => Of("context deadline exceeded")
    case Other(text) => text
  }

  /** The fields an error body decodes into. A body that does not decode,
      or decodes without these fields, leaves them at their zero values. */
  datatype JsonRecord = JsonRecord(code: int, error: Bytes, message: Bytes)

  const ZeroRecord := JsonRecord(0, [], [])

  /** The classifier. Go's `&&` binds tighter than `||`, so the second test
      reads `(code == 0 && error == "") || message == ""`: an empty message
      on its own means "no error". */
  function GetError(j: JsonRecord): (r: Option<Error>)
    ensures r.Some? ==> r.value.Unauthorized? || r.value == Api(j.code, j.error, j.message)
  {
    if j.code == UnauthorizedCode && j.message == UnauthorizedText then Some(Unauthorized)
    else if (j.code == 0 && j.error == []) || j.message == [] then None
    else Some(Api(j.code, j.error, j.message))
  }

  /** Code 403 with the unauthorized message is Unauthorized, whatever the
      error field holds. */
  lemma UnauthorizedWhateverError(error: Bytes)
    ensures GetError(JsonRecord(UnauthorizedCode, error, UnauthorizedText)) == Some(Unauthorized)
  {
  }

  /** Unauthorized is reported for exactly one shape of body: code 403 and
      the unauthorized message. No other code ever yields it. */
  lemma UnauthorizedExactly(j: JsonRecord)
    ensures GetError(j) == Some(Unauthorized) <==> j.code == UnauthorizedCode && j.message == UnauthorizedText
    ensures j.code != UnauthorizedCode ==> GetError(j) != Some(Unauthorized)
  {
  }

  /** "No error" holds exactly when the message is empty or both the code
      and the error are empty; the unauthorized body is neither. */
  lemma NoErrorExactly(j: JsonRecord)
    ensures GetError(j).None? <==>
      (j.message == [] || (j.code == 0 && j.error == []))
    ensures j.message == [] ==> GetError(j).None?
    ensures j.code == 0 && j.error == [] ==> GetError(j).None?
  {
    assert |UnauthorizedText| > 0;
  }

  /** Every other body is a generic API error carrying all three fields. */
  lemma ApiErrorOtherwise(j: JsonRecord)
    requires j.message != []
    requires j.code != 0 || j.error != []
    requires !(j.code == UnauthorizedCode && j.message == UnauthorizedText)
    ensures GetError(j) == Some(Api(j.code, j.error, j.message))
  {
  }

  /** The record an undecodable or unrelated body leaves behind classifies
      as "no error": such a body is passed through as data. */
  lemma ZeroRecordIsClean()
    ensures GetError(ZeroRecord).None?
  {
  }

  const ApiTextPrefix: Bytes := Of("error from api: code ")
  const ApiTextErrorLabel: Bytes := Of(", error: ")
  const ApiTextMessageLabel: Bytes := Of(", message: ")

  /** Reads a generic error's text back into its code, error and message:
      the fixed prefix, a `%d` number, the error label, a `%q` string, the
      message label, a `%q` string, and nothing after it. */
  function ParseApiText(t: Bytes): Option<(int, Bytes, Bytes)>
  {
    match After(t, ApiTextPrefix)
    case None => None
    case Some(r0) =>
      match ReadDecimal(r0)
      case None => None
      case Some((code, r1)) =>
        match After(r1, ApiTextErrorLabel)
        case None => None
        case Some(r2) =>
          match ReadQuoted(r2)
          case None => None
          case Some((error, r3)) =>
            match After(r3, ApiTextMessageLabel)
            case None => None
            case Some(r4) =>
              match ReadQuoted(r4)
              case None => None
              case Some((message, r5)) => if r5 == [] then Some((code, error, message)) else None
  }

  /** The fields, rendered and joined by the labels, read back exactly. */
  lemma ParseApiLayout(code: int, error: Bytes, message: Bytes)
    ensures ParseApiText(ApiTextPrefix + (Decimal(code) + (ApiTextErrorLabel + (Quote(error)
              + (ApiTextMessageLabel + Quote(message))))))
            == Some((code, error, message))
  {
    var r3 := ApiTextMessageLabel + Quote(message);
    var r1 := ApiTextErrorLabel + (Quote(error) + r3);
    AfterPrefix(ApiTextPrefix, Decimal(code) + r1);
    assert !IsDigit(r1[0]) by { assert r1[0] == ApiTextErrorLabel[0] == 44; }
    ReadDecimalRoundTrip(code, r1);
    AfterPrefix(ApiTextErrorLabel, Quote(error) + r3);
    ReadQuotedRoundTrip(error, r3);
    AfterPrefix(ApiTextMessageLabel, Quote(message));
    ReadQuotedRoundTrip(message, []);
    assert Quote(message) + [] == Quote(message);
  }

  /** The generic error's text has the layout `error from api: code %d,
      error: %q, message: %q`, and its three fields are read back from it
      exactly. */
  lemma ApiTextRoundTrip(code: int, error: Bytes, message: Bytes)
    ensures ParseApiText(ErrorText(Api(code, error, message))) == Some((code, error, message))
  {
    ParseApiLayout(code, error, message);
    RightNested(ApiTextPrefix, Decimal(code), ApiTextErrorLabel, Quote(error), ApiTextMessageLabel, Quote(message));
  }

  lemma RightNested(a: Bytes, b: Bytes, c: Bytes, d: Bytes, e: Bytes, f: Bytes)
    ensures a + b + c + d + e + f == a + (b + (c + (d + (e + f))))
  {
  }

  /** Two generic errors with the same text are the same error. */
  lemma ApiTextInjective(c1: int, e1: Bytes, m1: Bytes, c2: int, e2: Bytes, m2: Bytes)
    requires ErrorText(Api(c1, e1, m1)) == ErrorText(Api(c2, e2, m2))
    ensures c1 == c2 && e1 == e2 && m1 == m2
  {
    ApiTextRoundTrip(c1, e1, m1);
    ApiTextRoundTrip(c2, e2, m2);
  }
}
