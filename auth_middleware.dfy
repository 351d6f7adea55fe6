/**
 * The authentication middleware: it reads `Authorization: Bearer <token>`,
 * has the token verified, and either attaches the token's user to the
 * request or passes a 401 on. Token verification (the JWT library) is the
 * parameter `verify`, which either yields the payload or throws; the
 * library's own failures throw plain errors whose messages are
 * `Token expired`, `Invalid token` and `Failed to verify token`.
 */
module AuthMiddleware {
  import opened Wrappers
  import opened JsString
  import opened Errors
  import opened Records

  /** `req.user` as the middleware sets it. */
  datatype AuthUser = AuthUser(userId: string, email: string, role: Role)

  const TokenMissing := "Token tidak ditemukan"
  const BadFormat := "Format token tidak valid"
  const TokenRejected := "Token tidak valid atau expired"
  const AuthFailed := "Autentikasi gagal"

  /** The messages of the errors the token library throws. */
  const Expired := "Token expired"
  const Invalid := "Invalid token"
  const VerifyFailed := "Failed to verify token"

  /**
   * The token of the header: a missing or empty header, and a header that is
   * not exactly the word `Bearer`, one space and a token without spaces, are
   * each refused with their own 401.
   */
  function BearerToken(header: Option<string>): (r: Result<string, AppError>)
    ensures !Truthy(header) ==> r == Err(UnauthorizedError(Some(TokenMissing)))
    ensures Truthy(header) && r.Err? ==> r.error == UnauthorizedError(Some(BadFormat))
    ensures r.Ok? ==> Truthy(header) && header.value == "Bearer " + r.value && ' ' !in r.value
  {
    if !Truthy(header) then Err(UnauthorizedError(Some(TokenMissing)))
    else
      var parts := Split(header.value, ' ');
      if |parts| != 2 || parts[0] != "Bearer" then Err(UnauthorizedError(Some(BadFormat)))
      else
        assert Join(parts, ' ') == parts[0] + [' '] + Join(parts[1..], ' ');
        assert ' ' !in parts[1];
        Ok(parts[1])
  }

  /**
   * The `catch` block: a token the library found expired or malformed, an
   * error the middleware raised itself (passed on as it is), and anything
   * else, each becomes its own 401.
   */
  function AuthCatch(t: Thrown): (e: AppError)
    ensures WellFormed(e) && e.cls == Unauthorized && e.statusCode == 401
    ensures MessageOf(t) == Some(Expired) || MessageOf(t) == Some(Invalid) ==> e == UnauthorizedError(Some(TokenRejected))
    ensures MessageOf(t) != Some(Expired) && MessageOf(t) != Some(Invalid) ==>
      e == (if t.App? && t.error.cls == Unauthorized && WellFormed(t.error) then t.error
            else UnauthorizedError(Some(AuthFailed)))
  {
    if MessageOf(t).Some? then
      if MessageOf(t).value == Expired || MessageOf(t).value == Invalid then UnauthorizedError(Some(TokenRejected))
      else if t.App? && t.error.cls == Unauthorized && WellFormed(t.error) then t.error
      else UnauthorizedError(Some(AuthFailed))
    else UnauthorizedError(Some(AuthFailed))
  }

  function UserOf(p: JwtPayload): (u: AuthUser)
    ensures u.userId == p.userId && u.email == p.email && u.role == p.role
  {
    AuthUser(p.userId, p.email, p.role)
  }

  /**
   * `authMiddleware`: `Ok(user)` is `next()` with `req.user` set, `Err(e)` is
   * `next(e)`. Every refusal is a 401.
   */
  function Authenticate(header: Option<string>, verify: string -> Result<JwtPayload, Thrown>): (r: Result<AuthUser, AppError>)
    ensures r.Err? ==> WellFormed(r.error) && r.error.cls == Unauthorized && r.error.statusCode == 401
  {
    match BearerToken(header)
    case Err(e) => Err(AuthCatch(App(e)))
    case Ok(token) =>
      match verify(token)
      case Err(t) => Err(AuthCatch(t))
      case Ok(payload) => Ok(UserOf(payload))
  }

  /** The middleware's own errors reach `next` unchanged. */
  lemma HeaderErrorsPassThrough(header: Option<string>, verify: string -> Result<JwtPayload, Thrown>)
    requires BearerToken(header).Err?
    ensures Authenticate(header, verify) == Err(BearerToken(header).error)
  {
  }

  /** `Bearer`, one space and a space-free token: the verdict is the library's, mapped as the catch block maps it. */
  lemma {:induction false} WellFormedHeader(token: string, verify: string -> Result<JwtPayload, Thrown>)
    requires ' ' !in token
    ensures BearerToken(Some("Bearer " + token)) == Ok(token)
    ensures Authenticate(Some("Bearer " + token), verify) ==
      match verify(token)
      case Ok(p) => Ok(UserOf(p))
      case Err(t) => Err(AuthCatch(t))
  {
    var s := "Bearer " + token;
    assert s == "Bearer" + [' '] + token;
    CountSingle("Bearer ", ' ', 6);
    CountAppend("Bearer ", token, ' ');
    SplitAtSingle(s, ' ', 6);
    assert s[..6] == "Bearer" && s[7..] == token;
  }

  /** The converse: an accepted request carried `Bearer`, one space and a verified space-free token. */
  lemma AcceptedHeader(header: Option<string>, verify: string -> Result<JwtPayload, Thrown>)
    requires Authenticate(header, verify).Ok?
    ensures header.Some? && StartsWith(header.value, "Bearer ")
    ensures var token := header.value[7..];
      ' ' !in token && verify(token).Ok? && Authenticate(header, verify).value == UserOf(verify(token).value)
  {
    var token := BearerToken(header).value;
    assert header.value[..7] == "Bearer " && header.value[7..] == token;
  }

  /** Each failure of the token library, as the client sees it. */
  lemma LibraryFailures(token: string, verify: string -> Result<JwtPayload, Thrown>)
    requires ' ' !in token
    ensures verify(token) == Err(PlainError(Expired)) ==>
      Authenticate(Some("Bearer " + token), verify) == Err(UnauthorizedError(Some(TokenRejected)))
    ensures verify(token) == Err(PlainError(Invalid)) ==>
      Authenticate(Some("Bearer " + token), verify) == Err(UnauthorizedError(Some(TokenRejected)))
    ensures verify(token) == Err(PlainError(VerifyFailed)) ==>
      Authenticate(Some("Bearer " + token), verify) == Err(UnauthorizedError(Some(AuthFailed)))
  {
    WellFormedHeader(token, verify);
  }

  /** What `BearerToken` accepts, read off the raw header text. */
  lemma AcceptedShape(h: string)
    ensures BearerToken(Some(h)).Ok? ==> |h| >= 7 && h[..7] == "Bearer " && ' ' !in h[7..]
  {
    if BearerToken(Some(h)).Ok? {
      var token := BearerToken(Some(h)).value;
      assert h[7..] == token;
    }
  }

  /** A doubled space leaves a space in the token, so the header is refused before the token is looked at. */
  lemma DoubleSpaceRefused(verify: string -> Result<JwtPayload, Thrown>)
    ensures Authenticate(Some("Bearer  x"), verify) == Err(UnauthorizedError(Some(BadFormat)))
  {
    var h := "Bearer  x";
    AcceptedShape(h);
    assert h[7..][0] == ' ';
  }

  /** The scheme is compared case-sensitively. */
  lemma LowerCaseSchemeRefused(verify: string -> Result<JwtPayload, Thrown>)
    ensures Authenticate(Some("bearer x"), verify) == Err(UnauthorizedError(Some(BadFormat)))
  {
    var h := "bearer x";
    AcceptedShape(h);
    assert h[..7][0] != 'B';
  }

  /** A scheme without a token is malformed; an absent or empty header is a missing token. */
  lemma MissingTokenRefused(verify: string -> Result<JwtPayload, Thrown>)
    ensures Authenticate(Some("Bearer"), verify) == Err(UnauthorizedError(Some(BadFormat)))
    ensures Authenticate(Some(""), verify) == Err(UnauthorizedError(Some(TokenMissing)))
    ensures Authenticate(None, verify) == Err(UnauthorizedError(Some(TokenMissing)))
  {
    AcceptedShape("Bearer");
  }
}
