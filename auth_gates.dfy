/**
 * The two authorisation middlewares, middleware/auth.js (`requireAuth`) and
 * middleware/adminAuth.js (`requireAdmin`): early-return ladders over the `Authorization`
 * header, the JWT secret, the outcome of `jwt.verify` and the user the token names.
 */
module AuthGates {
  import opened Wrappers
  import opened Strings
  import opened Config
  import opened Tokens
  import opened Ids
  import opened UserModel
  import opened Messages

  /**
   * What a gate decides: the request goes on with `req.auth` naming the user stored under the
   * token's subject, or it is answered here.
   */
  datatype Gate = Admit(token: string, userId: string, user: User) | Refuse(status: nat, message: Message)

  /**
   * The scheme prefix both gates test for. RFC 6750 section 2.1 makes the scheme name
   * case-insensitive; the middlewares compare it case-sensitively, space included.
   */
  const Bearer := "Bearer "


  /**
   * The bearer token of an `Authorization` header (absent header read as ''): the text after
   * the prefix, trimmed; None when the prefix is missing or nothing but space follows it.
   */
  function BearerToken(header: Option<string>): (r: Option<string>)
    ensures r.None? <==> header.None? || !StartsWith(header.value, Bearer) || Trim(header.value[|Bearer|..]) == ""
    ensures r.Some? ==> r.value != "" && !IsJsSpace(r.value[0]) && !IsJsSpace(r.value[|r.value| - 1])
    ensures r.Some? ==> r.value == Trim(header.value[|Bearer|..])
  {
    var h := header.GetOr("");
    if !StartsWith(h, Bearer) then None
    else
      var t := Trim(h[|Bearer|..]);
      if t == "" then None else Some(t)
  }

  /** A token written after the prefix comes back unchanged. */
  lemma BearerRoundTrip(token: string)
    requires token != "" && !IsJsSpace(token[0]) && !IsJsSpace(token[|token| - 1])
    ensures BearerToken(Some(Bearer + token)) == Some(token)
  {
    var h := Bearer + token;
    assert h[..|Bearer|] == Bearer;
    assert h[|Bearer|..] == token;
    TrimStartOfTrimmed(token);
    TrimEndOfTrimmed(token);
  }

  /** Any other spelling of the scheme (`bearer x`, `Token x`, a missing space) is refused. */
  lemma OtherSchemeRefused(header: string)
    requires |header| < |Bearer| || header[..|Bearer|] != Bearer
    ensures BearerToken(Some(header)).None?
  {
  }

  /**
   * `requireAuth`, with `verdict` the outcome of `jwt.verify(token, secret)`. The subject is
   * looked up by `User.findById`, whose cast of a malformed id throws a CastError that the
   * catch answers with 500.
   */
  function RequireAuth(header: Option<string>, env: Env, verdict: JwtVerdict, users: Users): (r: Gate)
    ensures r.Admit? ==> BearerToken(header) == Some(r.token) && IsSet(env, SecretVar)
    ensures r.Admit? ==> verdict.Payload? && verdict.sub.Some? && CastObjectId(verdict.sub.value) == Some(r.userId)
    ensures r.Admit? ==> r.userId in users && users[r.userId] == r.user
    ensures r.Refuse? ==> r.status in {401, 500}
    ensures r == Refuse(401, TokenRequired) <==> BearerToken(header).None?
    ensures BearerToken(header).Some? && !IsSet(env, SecretVar) ==> r == Refuse(500, ConfigError)
    ensures BearerToken(header).Some? && IsSet(env, SecretVar) && verdict.Expired? ==> r == Refuse(401, TokenExpired)
    ensures BearerToken(header).Some? && IsSet(env, SecretVar) && verdict.Rejected? ==> r == Refuse(500, AuthorizeFailed)
    ensures (BearerToken(header).Some? && IsSet(env, SecretVar) && verdict.Payload?
             && (verdict.sub.None? || verdict.sub.value == ""))
            ==> r == Refuse(401, InvalidToken)
    ensures (BearerToken(header).Some? && IsSet(env, SecretVar) && verdict.Payload? && verdict.sub.Some?
             && verdict.sub.value != "" && CastObjectId(verdict.sub.value).None?)
            ==> r == Refuse(500, AuthorizeFailed)
    ensures (BearerToken(header).Some? && IsSet(env, SecretVar) && verdict.Payload? && verdict.sub.Some?
             && CastObjectId(verdict.sub.value).Some?)
            ==> var id := CastObjectId(verdict.sub.value).value;
              r == if id in users then Admit(BearerToken(header).value, id, users[id]) else Refuse(401, UserNotFound)
  {
    match BearerToken(header)
    case None => Refuse(401, TokenRequired)
    case Some(token) =>
      if !IsSet(env, SecretVar) then Refuse(500, ConfigError)
      else
        match verdict
        case Expired => Refuse(401, TokenExpired)
        case Rejected => Refuse(500, AuthorizeFailed)
        case Payload(sub) =>
          if sub.None? || sub.value == "" then Refuse(401, InvalidToken)
          else
            match CastObjectId(sub.value)
            case None => Refuse(500, AuthorizeFailed)
            case Some(id) =>
              if id !in users then Refuse(401, UserNotFound) else Admit(token, id, users[id])
  }

  /** `requireAdmin`: the same ladder, then a user whose `isAdmin` is not true gets 403. */
  function RequireAdmin(header: Option<string>, env: Env, verdict: JwtVerdict, users: Users): (r: Gate)
    ensures r.Admit? ==> r.user.isAdmin == Some(true) && r.userId in users && users[r.userId] == r.user
    ensures r.Refuse? ==> r.status in {401, 403, 500}
  {
    match BearerToken(header)
    case None => Refuse(401, TokenRequired)
    case Some(token) =>
      if !IsSet(env, SecretVar) then Refuse(500, ConfigError)
      else
        match verdict
        case Expired => Refuse(401, TokenExpired)
        case Rejected => Refuse(500, AuthorizeFailed)
        case Payload(sub) =>
          if sub.None? || sub.value == "" then Refuse(401, InvalidToken)
          else
            match CastObjectId(sub.value)
            case None => Refuse(500, AuthorizeFailed)
            case Some(id) =>
              if id !in users then Refuse(401, UserNotFound)
              else if users[id].isAdmin != Some(true) then Refuse(403, AdminRequired)
              else Admit(token, id, users[id])
  }

  /**
   * The admin gate is the user gate followed by the flag check: it refuses whatever the user
   * gate refuses, with the same answer, and of what the user gate admits it lets through
   * exactly the admins; a user without the flag, or with it false, gets 403.
   */
  lemma AdminIsAuthThenFlag(header: Option<string>, env: Env, verdict: JwtVerdict, users: Users)
    ensures var a := RequireAuth(header, env, verdict, users);
            var b := RequireAdmin(header, env, verdict, users);
            && (a.Refuse? ==> b == a)
            && (a.Admit? && a.user.isAdmin == Some(true) ==> b == a)
            && (a.Admit? && a.user.isAdmin != Some(true) ==> b == Refuse(403, AdminRequired))
  {
  }

  /**
   * A token this backend issued for a stored user, presented as `Bearer <token>` and verified
   * by the library as carrying its subject, admits that user.
   */
  lemma IssuedTokenAdmits(text: string, env: Env, users: Users, id: string, now: nat)
    requires text != "" && !IsJsSpace(text[0]) && !IsJsSpace(text[|text| - 1])
    requires id in users && IsObjectId(id)
    requires CreateToken(env, id, now).Issued?
    ensures var t := CreateToken(env, id, now).token;
            RequireAuth(Some(Bearer + text), env, Payload(Some(t.sub)), users) == Admit(text, id, users[id])
  {
    BearerRoundTrip(text);
  }
}
