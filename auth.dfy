/**
 * The authentication middleware: the checks on the `Authorization` header in
 * `Middleware` and `OptionalAuth`, and `GetUserID` on the request context.
 * Verifying a token's signature and expiry (`parseToken`) is a function given
 * to the middleware: the claims of a good token, `None` for any other.
 */
module Auth {
  import opened Wrappers
  import opened Text
  import opened Uuids

  const Unauthorized := 401

  const HeaderRequired := "Authorization header is required"
  const HeaderFormat := "Authorization header format must be Bearer {token}"
  const InvalidToken := "Invalid or expired token"
  const NoUserId := "user ID not found in context"
  const BadUserId := "invalid user ID in context"

  const Scheme := "Bearer"

  /** `JWTClaims`: the signed user id, as text. */
  datatype Claims = Claims(userId: string)

  type TokenParser = string -> Option<Claims>

  /** What the middleware does with a request: answer it with an error, or pass it on, with a user id or without. */
  datatype Outcome = Rejected(status: int, message: string) | Forwarded(userId: Option<string>)

  /** What the context holds under the user-id key. */
  datatype ContextValue = Absent | TextValue(text: string) | OtherValue

  /**
   * The token of a header that splits at spaces into exactly the scheme and
   * one more part; such a header is the scheme, a space and the token.
   */
  function BearerToken(header: string): (r: Option<string>)
    ensures r.Some? ==> header == Scheme + " " + r.value && ' ' !in r.value
  {
    var parts := Split(header, ' ');
    if |parts| != 2 || parts[0] != Scheme then None
    else
      JoinSplit(header, ' ');
      SplitPartsAvoidSeparator(header, ' ');
      assert Join(parts, " ") == parts[0] + " " + Join(parts[1..], " ");
      assert parts[1..] == [parts[1]];
      Some(parts[1])
  }

  /** A header names a token exactly when it is the scheme, one space and a token without spaces. */
  lemma BearerTokenIff(header: string, token: string)
    ensures BearerToken(header) == Some(token) <==> header == Scheme + " " + token && ' ' !in token
  {
    if header == Scheme + " " + token && ' ' !in token {
      BearerTokenComplete(token);
    }
  }

  lemma BearerTokenComplete(token: string)
    requires ' ' !in token
    ensures BearerToken(Scheme + " " + token) == Some(token)
  {
    assert Scheme + " " + token == Scheme + [' '] + token;
    SplitAtSeparator(Scheme, token, ' ');
    SplitSingle(Scheme, ' ');
    SplitSingle(token, ' ');
  }

  /** Two spaces after the scheme are not the expected format. */
  lemma DoubleSpaceRejected(token: string)
    ensures BearerToken(Scheme + "  " + token) == None
  {
    var header := Scheme + "  " + token;
    assert header == Scheme + [' '] + ([' '] + token);
    SplitAtSeparator(Scheme, [' '] + token, ' ');
    SplitSingle(Scheme, ' ');
    SplitSeparatorFirst(token, ' ');
    assert |Split(header, ' ')| >= 3;
  }

  /** `Middleware`: every failure is answered with 401 and its own message. */
  function Middleware(parse: TokenParser, header: string): (o: Outcome)
    ensures o.Rejected? ==> o.status == Unauthorized
    ensures header == "" ==> o == Rejected(Unauthorized, HeaderRequired)
  {
    if header == "" then Rejected(Unauthorized, HeaderRequired)
    else match BearerToken(header)
      case None => Rejected(Unauthorized, HeaderFormat)
      case Some(token) =>
        match parse(token)
        case None => Rejected(Unauthorized, InvalidToken)
        case Some(claims) => Forwarded(Some(claims.userId))
  }

  /** `RequireAuth` is `Middleware`: it rejects with 401, or passes the request on with a user id. */
  function RequireAuth(parse: TokenParser, header: string): (o: Outcome)
    ensures o.Rejected? ==> o.status == Unauthorized
    ensures o.Forwarded? ==> o.userId.Some?
  {
    Middleware(parse, header)
  }

  /** `OptionalAuth`: the same checks, but a failure passes the request on without a user id. */
  function OptionalAuth(parse: TokenParser, header: string): (o: Outcome)
    ensures o.Forwarded?
  {
    if header == "" then Forwarded(None)
    else match BearerToken(header)
      case None => Forwarded(None)
      case Some(token) =>
        match parse(token)
        case None => Forwarded(None)
        case Some(claims) => Forwarded(Some(claims.userId))
  }

  /** The middleware lets a request through exactly for a well-formed header whose token verifies, and passes on that token's user id. */
  lemma MiddlewareForwardsIff(parse: TokenParser, header: string)
    ensures Middleware(parse, header).Forwarded? <==>
            exists token :: header == Scheme + " " + token && ' ' !in token && parse(token).Some?
    ensures Middleware(parse, header).Forwarded? ==>
            var token := header[|Scheme| + 1..];
            Middleware(parse, header).userId == Some(parse(token).value.userId)
  {
    var b := BearerToken(header);
    if b.Some? {
      BearerTokenIff(header, b.value);
      assert header[|Scheme| + 1..] == b.value;
    }
    if token :| header == Scheme + " " + token && ' ' !in token && parse(token).Some? {
      BearerTokenIff(header, token);
    }
  }

  /** Optional authentication agrees with required authentication where that passes, and forwards anonymously where it rejects. */
  lemma OptionalAgreesWithRequired(parse: TokenParser, header: string)
    ensures Middleware(parse, header).Forwarded? ==> OptionalAuth(parse, header) == Middleware(parse, header)
    ensures Middleware(parse, header).Rejected? ==> OptionalAuth(parse, header) == Forwarded(None)
  {
  }

  /** What the handler behind the middleware finds in its context. */
  function ContextAfter(o: Outcome): ContextValue
  {
    if o.Forwarded? && o.userId.Some? then TextValue(o.userId.value) else Absent
  }

  /** `GetUserID`. */
  function GetUserID(v: ContextValue): (r: Result<Uuid, string>)
    ensures v.Absent? || v.OtherValue? ==> r == Err(NoUserId)
    ensures v.TextValue? ==> (r.Ok? <==> Uuids.Parse(v.text).Some?)
    ensures v.TextValue? && r.Ok? ==> Uuids.Parse(v.text) == Some(r.value)
    ensures v.TextValue? && r.Err? ==> r.error == BadUserId
  {
    match v
    case TextValue(text) =>
      (match Uuids.Parse(text)
       case None => Err(BadUserId)
       case Some(id) => Ok(id))
    case _ => Err(NoUserId)
  }

  /**
   * A request with a well-formed header whose token carries the text form of a
   * user id reaches its handler with that id.
   */
  lemma SignedUserReachesHandler(parse: TokenParser, token: string, u: Uuid)
    requires ' ' !in token && parse(token) == Some(Claims(Format(u)))
    ensures GetUserID(ContextAfter(Middleware(parse, Scheme + " " + token))) == Ok(u)
    ensures GetUserID(ContextAfter(OptionalAuth(parse, Scheme + " " + token))) == Ok(u)
  {
    BearerTokenIff(Scheme + " " + token, token);
    ParseFormat(u);
  }

  /** A request that optional authentication lets through anonymously has no user id to read. */
  lemma AnonymousHasNoUser(parse: TokenParser, header: string)
    requires Middleware(parse, header).Rejected?
    ensures GetUserID(ContextAfter(OptionalAuth(parse, header))) == Err(NoUserId)
  {
  }
}
