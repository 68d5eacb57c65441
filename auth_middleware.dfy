/**
 * `AuthMiddleware`: the bearer-token gate in front of protected routes. It
 * extracts the token from the `Authorization` header and asks the
 * authentication service to validate it.
 */
module AuthGate {
  import opened Common
  import opened Text
  import opened Http
  import opened UserStore
  import AuthService

  const BearerPrefix: string := "Bearer "
  const MissingTokenMessage: string := "Отсутствует токен авторизации"
  const UserNotFoundMessage: string := "Пользователь не найден"
  const ServerErrorMessage: string := "Ошибка сервера"

  /** What `authService.validateToken(token)` did: resolved to a user or to nothing, or threw. */
  datatype Validation = Returned(user: Option<UserRecord>) | Threw

  /**
   * `getTokenFromHeader`: for a header starting with `"Bearer "`, the second
   * part of the header split on spaces; `null` otherwise.
   */
  function GetTokenFromHeader(authorization: Option<string>): (token: Option<string>)
    ensures token.Some? <==> authorization.Some? && StartsWith(authorization.value, BearerPrefix)
    ensures token.Some? ==> ' ' !in token.value
  {
    if authorization.Some? && StartsWith(authorization.value, BearerPrefix) then
      var header := authorization.value;
      SplitAfterPart("Bearer", ' ', header[|BearerPrefix|..]);
      assert header == "Bearer" + [' '] + header[|BearerPrefix|..];
      Some(Split(header, ' ')[1])
    else
      None
  }

  /**
   * The token of `"Bearer " + rest` is `rest` up to its first space: all of
   * `rest` when it has none, and the empty string when `rest` starts with one.
   */
  lemma BearerToken(rest: string)
    ensures var token := GetTokenFromHeader(Some(BearerPrefix + rest));
      && token.Some?
      && |token.value| <= |rest|
      && token.value == rest[..|token.value|]
      && (|token.value| == |rest| || rest[|token.value|] == ' ')
      && (' ' !in rest ==> token.value == rest)
      && (|rest| > 0 && rest[0] == ' ' ==> token.value == "")
  {
    var header := BearerPrefix + rest;
    assert header[..|BearerPrefix|] == BearerPrefix;
    assert header[|BearerPrefix|..] == rest;
    assert header == "Bearer" + [' '] + rest;
    SplitAfterPart("Bearer", ' ', rest);
    SplitFirst(rest, ' ');
    if ' ' !in rest {
      SplitWithoutSeparator(rest, ' ');
    }
  }

  /**
   * `execute`: no token (or an empty one) is a 401 without consulting the
   * service; a token the service resolves to no user is a 401; a token it
   * resolves to a user passes with `next()`; a throwing service is a 500.
   */
  function Execute(authorization: Option<string>, validateToken: string -> Validation): (r: Decision)
    ensures r.consulted.Some? <==> GetTokenFromHeader(authorization).Some? && GetTokenFromHeader(authorization).value != ""
    ensures r.consulted.Some? ==> r.consulted == GetTokenFromHeader(authorization)
    ensures r.consulted.None? ==> r.action == Respond(401, MissingTokenMessage)
    ensures r.action.Next? <==> r.consulted.Some? && validateToken(r.consulted.value).Returned?
                                && validateToken(r.consulted.value).user.Some?
    ensures r.action.Respond? && r.action.status == 500 <==> r.consulted.Some? && validateToken(r.consulted.value).Threw?
    ensures r.action == Respond(401, UserNotFoundMessage) <==>
              r.consulted.Some? && validateToken(r.consulted.value) == Returned(None)
    ensures r.action.Respond? || r.action.Next?
  {
    match GetTokenFromHeader(authorization)
    case None => Decision(None, Respond(401, MissingTokenMessage))
    case Some(token) =>
      if token == "" then Decision(None, Respond(401, MissingTokenMessage))
      else
        match validateToken(token)
        case Threw => Decision(Some(token), Respond(500, ServerErrorMessage))
        case Returned(None) => Decision(Some(token), Respond(401, UserNotFoundMessage))
        case Returned(Some(_)) => Decision(Some(token), Next)
  }

  /** `JWTAuthService.validateToken` seen from the gate: it resolves to the user or throws. */
  function ServiceValidation(whitelist: set<string>, records: seq<UserRecord>, codec: AuthService.TokenCodec,
                             now: int): string -> Validation
  {
    token =>
      match AuthService.ValidateResult(whitelist, records, codec, token, now)
      case Success(user) => Returned(Some(user))
      case Failure(_) => Threw
  }

  /**
   * In front of `JWTAuthService`, a request with a token passes exactly when the
   * service validates it, and every refusal is a 500, never a 401: the service
   * throws instead of returning nothing, so a revoked token is a server error.
   */
  lemma GateOverService(rest: string, whitelist: set<string>, records: seq<UserRecord>,
                        codec: AuthService.TokenCodec, now: int)
    requires rest != "" && rest[0] != ' '
    ensures var token := GetTokenFromHeader(Some(BearerPrefix + rest)).value;
      var r := Execute(Some(BearerPrefix + rest), ServiceValidation(whitelist, records, codec, now));
      && r.consulted == Some(token)
      && (r.action.Next? <==> AuthService.ValidateResult(whitelist, records, codec, token, now).Success?)
      && (r.action.Respond? ==> r.action == Respond(500, ServerErrorMessage))
      && (token !in whitelist ==> r.action == Respond(500, ServerErrorMessage))
  {
    BearerToken(rest);
  }
}
