/** The request helpers every route handler starts from: reading the bearer
    token of the `Authorization` header, and building JSON replies. */
module ApiUtils {
  import opened Common

  /** What a verified access token carries. */
  datatype TokenPayload = TokenPayload(userId: nat, email: string, role: string)

  const Unauthorized := ApiError(401, "Unauthorized")
  const BadToken := ApiError(401, "Invalid or expired token")

  const Scheme := "Bearer "

  /** The token of the header: absent, or not of the form `Bearer <token>`,
      gives nothing; otherwise the header with its first seven characters
      dropped. */
  function BearerToken(header: Option<string>): (t: Option<string>)
    ensures t.Some? <==> header.Some? && StartsWith(header.value, Scheme)
    ensures t.Some? ==> header.value == Scheme + t.value
  {
    if header.None? || !StartsWith(header.value, Scheme) then None
    else
      var h := header.value;
      assert h == h[..7] + h[7..];
      Some(h[7..])
  }

  /** `Bearer <t>` gives back exactly `t`. */
  lemma BearerRoundTrip(t: string)
    ensures BearerToken(Some(Scheme + t)) == Some(t)
  {
    var h := Scheme + t;
    assert h[..7] == Scheme;
    assert h[7..] == t;
  }

  /** `authenticateRequest`: `verify` stands for the token check, `None` for
      the error it throws on a bad signature or an expired token. */
  function Authenticate(header: Option<string>, verify: string -> Option<TokenPayload>)
    : (r: Result<TokenPayload>)
    ensures BearerToken(header).None? ==> r == Err(Unauthorized)
    ensures BearerToken(header).Some? && verify(BearerToken(header).value).None? ==> r == Err(BadToken)
    ensures BearerToken(header).Some? && verify(BearerToken(header).value).Some? ==>
      r == Ok(verify(BearerToken(header).value).value)
  {
    match BearerToken(header)
    case None => Err(Unauthorized)
    case Some(token) =>
      match verify(token)
      case None => Err(BadToken)
      case Some(user) => Ok(user)
  }

  /** A header without the bearer scheme is refused whatever the verifier
      would say: the verifier is never consulted. */
  lemma RejectsBeforeVerifying(header: Option<string>, v1: string -> Option<TokenPayload>,
                               v2: string -> Option<TokenPayload>)
    requires BearerToken(header).None?
    ensures Authenticate(header, v1) == Authenticate(header, v2) == Err(Unauthorized)
  {
  }

  /** A caller is let in exactly when the header is `Bearer <t>` for a `t`
      the verifier accepts, and then as the identity the verifier gave. */
  lemma AuthenticatedIff(header: Option<string>, verify: string -> Option<TokenPayload>, u: TokenPayload)
    ensures Authenticate(header, verify) == Ok(u) <==>
      exists t :: header == Some(Scheme + t) && verify(t) == Some(u)
  {
    if Authenticate(header, verify) == Ok(u) {
      var t := BearerToken(header).value;
      assert header == Some(Scheme + t);
    }
    if exists t :: header == Some(Scheme + t) && verify(t) == Some(u) {
      var t :| header == Some(Scheme + t) && verify(t) == Some(u);
      BearerRoundTrip(t);
    }
  }

  /** The scheme is case-sensitive: `bearer <t>` is refused. */
  lemma LowerCaseSchemeRefused(t: string)
    ensures Authenticate(Some("bearer " + t), (s: string) => Some(TokenPayload(0, "", ""))) == Err(Unauthorized)
  {
    var h := "bearer " + t;
    assert h[0] == 'b';
  }

  /** A JSON reply: its HTTP status and its body. */
  datatype Reply<T> = Reply(status: int, body: T)

  /** The body of every error reply, `{ error: message }`. */
  datatype ErrorBody = ErrorBody(error: string)

  /** `createApiResponse(data, status = 200)`; `None` is a call without a status. */
  function ApiResponse<T>(data: T, status: Option<int>): (r: Reply<T>)
    ensures r.body == data
    ensures status.None? ==> r.status == 200
    ensures status.Some? ==> r.status == status.value
  {
    Reply(if status.Some? then status.value else 200, data)
  }

  /** `createErrorResponse(message, status = 400)`. */
  function ErrorResponse(message: string, status: Option<int>): (r: Reply<ErrorBody>)
    ensures r.body == ErrorBody(message)
    ensures status.None? ==> r.status == 400
    ensures status.Some? ==> r.status == status.value
  {
    ApiResponse(ErrorBody(message), Some(if status.Some? then status.value else 400))
  }

  /** The reply a handler's error becomes. */
  function ReplyOf(e: ApiError): (r: Reply<ErrorBody>)
    ensures r.status == e.status && r.body.error == e.message
  {
    ErrorResponse(e.message, Some(e.status))
  }

  /** An error reply differs from a plain reply only by its default status. */
  lemma ErrorResponseDefaults(message: string, status: Option<int>)
    ensures status.Some? ==> ErrorResponse(message, status) == ApiResponse(ErrorBody(message), status)
    ensures status.None? ==> ErrorResponse(message, status) == ApiResponse(ErrorBody(message), Some(400))
    ensures ErrorResponse(message, None) != ApiResponse(ErrorBody(message), None)
  {
  }

  /** Both refusals of `Authenticate` are 401 replies. */
  lemma RefusalsAre401(header: Option<string>, verify: string -> Option<TokenPayload>)
    ensures Authenticate(header, verify).Err? ==> ReplyOf(Authenticate(header, verify).error).status == 401
  {
  }
}
