/**
 * The credential routes of routes/auth.js: `/signup`, `/login` and `DELETE /account`, as
 * functions from the user collection to the new collection and the answer, and as the
 * handlers that perform them on the collection.
 */
module AuthFlow {
  import opened Wrappers
  import opened Strings
  import opened Json
  import opened Config
  import opened Tokens
  import opened Ids
  import opened UserModel
  import opened AuthGates
  import opened Messages

  /** A JSON answer: `{ message }`, or `{ token, user }` on a successful signup or login. */
  datatype AuthReply = Answer(status: nat, message: Message) | Session(status: nat, token: Jwt, user: SafeUser)

  datatype AuthStep = AuthStep(users: Users, reply: AuthReply)


  /**
   * The write of `/signup` once the e-mail (cast to a string) is free: `User.create` runs the
   * setters and validators, then the token is signed. A missing secret answers 500 after the
   * user has been stored.
   */
  function SignupWrite(users: Users, email: string, env: Env, now: nat, hash: string, newUserId: string): (r: AuthStep)
    requires IsObjectId(newUserId)
    ensures r.reply.status in {201, 500}
    ensures r.reply.Session? ==> r.reply.status == 201 && r.reply.token.sub == newUserId && r.reply.user.id == newUserId
  {
    match InsertUser(users, newUserId, email, hash, now)
    case ValidationFailed => AuthStep(users, Answer(500, SignupFailed))
    case DuplicateKey => AuthStep(users, Answer(500, SignupFailed))
    case Inserted(after, user) =>
      match CreateToken(env, newUserId, now)
      case MissingSecret => AuthStep(after, Answer(500, ConfigError))
      case Issued(token) => AuthStep(after, Session(201, token, ToSafeObject(user)))
  }

  /** `/signup` once the e-mail has been cast to the string `email`: the duplicate check, then the write. */
  function SignupCast(users: Users, email: string, password: Value, env: Env, now: nat, hash: string, newUserId: string): (r: AuthStep)
    requires IsObjectId(newUserId)
    ensures r.reply.status in {201, 409, 500}
    ensures r.reply.status == 409 ==> r == AuthStep(users, Answer(409, AlreadyRegistered))
    ensures r.reply.status == 409 <==> EmailTaken(users, NormalizeEmail(email))
  {
    if EmailTaken(users, NormalizeEmail(email)) then AuthStep(users, Answer(409, AlreadyRegistered))
    else if !password.Str? then AuthStep(users, Answer(500, SignupFailed))
    else SignupWrite(users, email, env, now, hash, newUserId)
  }

  /**
   * `POST /signup { email, password }` with `hash` the result of `bcrypt.hash(password, 10)`
   * and `newUserId` the id the new document would get. `User.findOne({ email })` and
   * `User.create` cast the e-mail to a string (an array or object fails the cast) and the
   * schema setters normalise it.
   */
  function Signup(users: Users, body: Body, env: Env, now: nat, hash: string, newUserId: string): (r: AuthStep)
    requires IsObjectId(newUserId)
    ensures r.reply.status in {201, 400, 409, 500}
    ensures r.reply.status == 400 <==> !Truthy(Get(body, "email")) || !Truthy(Get(body, "password"))
    ensures r.reply.status in {400, 409} ==> r.users == users
    ensures r.reply.status == 409 ==> r.reply == Answer(409, AlreadyRegistered)
    ensures var email := Get(body, "email");
            r.reply.status == 409 <==> && Truthy(email) && Truthy(Get(body, "password")) && CastString(email).Cast?
                                       && EmailTaken(users, NormalizeEmail(CastString(email).text))
  {
    var email := Get(body, "email");
    var password := Get(body, "password");
    if !Truthy(email) || !Truthy(password) then
      AuthStep(users, Answer(400, CredentialsRequired))
    else
      var cast := CastString(email);
      if cast.Cast? then SignupCast(users, cast.text, password, env, now, hash, newUserId)
      else AuthStep(users, Answer(500, SignupFailed))
  }

  /**
   * `POST /login { email, password }` with `passwordMatches` the outcome of
   * `bcrypt.compare(password, user.passwordHash)` for the user found. The collection is
   * never changed.
   */
  function Login(users: Users, body: Body, env: Env, now: nat, passwordMatches: bool): (r: AuthReply)
    requires UsersInv(users)
    ensures r.status in {200, 400, 401, 500}
    ensures r.status == 400 <==> !Truthy(Get(body, "email")) || !Truthy(Get(body, "password"))
    ensures r.status == 401 ==> r == Answer(401, BadCredentials)
    ensures r.Session? ==> r.status == 200 && r.token.sub == r.user.id && passwordMatches
    ensures r.Session? ==> r.user.id in users && ToSafeObject(users[r.user.id]) == r.user
    ensures r.Session? ==> CastString(Get(body, "email")).Cast?
                           && users[r.user.id].email == NormalizeEmail(CastString(Get(body, "email")).text)
    ensures var email := Get(body, "email");
            var password := Get(body, "password");
            r.status == 401 <==>
              && Truthy(email) && Truthy(password) && CastString(email).Cast?
              && (UserByEmail(users, NormalizeEmail(CastString(email).text)).None? || (password.Str? && !passwordMatches))
  {
    var email := Get(body, "email");
    var password := Get(body, "password");
    if !Truthy(email) || !Truthy(password) then Answer(400, CredentialsRequired)
    else
      var cast := CastString(email);
      if !cast.Cast? then Answer(500, LoginFailed)
      else
        match UserByEmail(users, NormalizeEmail(cast.text))
        case None => Answer(401, BadCredentials)
        case Some(user) =>
          if !password.Str? then Answer(500, LoginFailed)
          else if !passwordMatches then Answer(401, BadCredentials)
          else
            match CreateToken(env, user.id, now)
            case MissingSecret => Answer(500, ConfigError)
            case Issued(token) => Session(200, token, ToSafeObject(user))
  }

  /**
   * `DELETE /account` behind `requireAuth`: the gate's refusal, or the authenticated user's
   * document removed (`findByIdAndDelete`) and nothing else.
   */
  function DeleteAccount(users: Users, header: Option<string>, env: Env, verdict: JwtVerdict): (r: AuthStep)
    ensures r.reply.status in {200, 401, 500}
    ensures r.reply.status == 200 <==> RequireAuth(header, env, verdict, users).Admit?
    ensures r.reply.status == 200 ==> r.users == users - {RequireAuth(header, env, verdict, users).userId}
    ensures r.reply.status != 200 ==> r.users == users
  {
    match RequireAuth(header, env, verdict, users)
    case Refuse(status, message) => AuthStep(users, Answer(status, message))
    case Admit(_, userId, _) => AuthStep(users - {userId}, Answer(200, AccountDeleted))
  }
}

/** What the credential routes guarantee, stated over the functions of module AuthFlow. */
module AuthProperties {
  import opened Wrappers
  import opened Strings
  import opened Json
  import opened Config
  import opened Tokens
  import opened Ids
  import opened UserModel
  import opened AuthGates
  import opened Messages
  import opened AuthFlow

  function Credentials(email: string, password: string): (b: Body)
    ensures Get(b, "email") == Str(email) && Get(b, "password") == Str(password)
  {
    map["email" := Str(email), "password" := Str(password)]
  }

  /** The write of `/signup` stores what `User.create` produced, or nothing. */
  lemma SignupWriteStore(users: Users, email: string, env: Env, now: nat, hash: string, newUserId: string)
    requires IsObjectId(newUserId)
    ensures var ins := InsertUser(users, newUserId, email, hash, now);
            SignupWrite(users, email, env, now, hash, newUserId).users == if ins.Inserted? then ins.users else users
  {
  }

  /** `/signup` keeps the collection's invariant. */
  lemma SignupKeepsInv(users: Users, body: Body, env: Env, now: nat, hash: string, newUserId: string)
    requires UsersInv(users) && IsObjectId(newUserId)
    ensures UsersInv(Signup(users, body, env, now, hash, newUserId).users)
  {
    var email := Get(body, "email");
    var password := Get(body, "password");
    var r := Signup(users, body, env, now, hash, newUserId);
    var cast := CastString(email);
    if Truthy(email) && Truthy(password) && cast.Cast? {
      assert r == SignupCast(users, cast.text, password, env, now, hash, newUserId);
      if !EmailTaken(users, NormalizeEmail(cast.text)) && password.Str? {
        assert r == SignupWrite(users, cast.text, env, now, hash, newUserId);
        SignupWriteStore(users, cast.text, env, now, hash, newUserId);
        InsertUserKeepsInv(users, newUserId, cast.text, hash, now);
      }
    }
  }

  /**
   * A signup for a free e-mail with a fresh id adds exactly one user: the normalised e-mail,
   * the hash, not an admin. Without a JWT secret the answer is 500, yet the user stays.
   */
  lemma SignupCreatesOneUser(users: Users, email: string, password: string, env: Env, now: nat, hash: string, newUserId: string)
    requires IsObjectId(newUserId) && newUserId !in users
    requires email != "" && password != "" && hash != "" && NormalizeEmail(email) != ""
    requires !EmailTaken(users, NormalizeEmail(email))
    ensures var r := Signup(users, Credentials(email, password), env, now, hash, newUserId);
            var user := User(newUserId, NormalizeEmail(email), hash, Some(false), now, now);
            && r.users == users[newUserId := user]
            && (IsSet(env, SecretVar) ==> r.reply.Session? && r.reply.status == 201 && r.reply.user == ToSafeObject(user))
            && (!IsSet(env, SecretVar) ==> r.reply == Answer(500, ConfigError))
  {
  }

  /** A second signup for the same e-mail, in whatever case or padding, is refused with 409. */
  lemma SignupTwiceConflicts(users: Users, email: string, again: string, password: string, env: Env, now: nat,
                             hash: string, first: string, second: string)
    requires IsObjectId(first) && IsObjectId(second) && first !in users
    requires email != "" && password != "" && hash != "" && NormalizeEmail(email) != ""
    requires !EmailTaken(users, NormalizeEmail(email))
    requires again != "" && NormalizeEmail(again) == NormalizeEmail(email)
    ensures var one := Signup(users, Credentials(email, password), env, now, hash, first);
            var two := Signup(one.users, Credentials(again, password), env, now, hash, second);
            two.users == one.users && two.reply == Answer(409, AlreadyRegistered)
  {
    SignupCreatesOneUser(users, email, password, env, now, hash, first);
    var one := Signup(users, Credentials(email, password), env, now, hash, first);
    assert first in one.users && one.users[first].email == NormalizeEmail(again);
    assert EmailTaken(one.users, NormalizeEmail(again));
    var body := Credentials(again, password);
    assert CastString(Get(body, "email")) == Cast(again);
    assert Signup(one.users, body, env, now, hash, second) == SignupCast(one.users, again, Str(password), env, now, hash, second);
  }

  /**
   * Login does not tell an unknown e-mail from a wrong password: both answers are the same
   * 401.
   */
  lemma LoginHidesWhichCheckFailed(users: Users, unknown: string, known: string, password: string, env: Env, now: nat)
    requires UsersInv(users)
    requires unknown != "" && known != "" && password != ""
    requires !EmailTaken(users, NormalizeEmail(unknown)) && EmailTaken(users, NormalizeEmail(known))
    ensures Login(users, Credentials(unknown, password), env, now, true)
            == Login(users, Credentials(known, password), env, now, false)
            == Answer(401, BadCredentials)
  {
  }

  /** After signing up, logging in with the password the hash was made from returns that user. */
  lemma SignupThenLogin(users: Users, email: string, password: string, env: Env, now: nat, later: nat,
                        hash: string, newUserId: string)
    requires UsersInv(users) && IsObjectId(newUserId) && newUserId !in users
    requires email != "" && password != "" && hash != "" && NormalizeEmail(email) != ""
    requires !EmailTaken(users, NormalizeEmail(email)) && IsSet(env, SecretVar)
    ensures var one := Signup(users, Credentials(email, password), env, now, hash, newUserId);
            var two := Login(one.users, Credentials(email, password), env, later, true);
            && two.Session? && two.status == 200
            && two.user == SafeUser(newUserId, NormalizeEmail(email), false, now, now)
            && two.token.sub == newUserId
  {
    SignupCreatesOneUser(users, email, password, env, now, hash, newUserId);
    SignupKeepsInv(users, Credentials(email, password), env, now, hash, newUserId);
    var one := Signup(users, Credentials(email, password), env, now, hash, newUserId);
    var found := UserByEmail(one.users, NormalizeEmail(email));
    assert found == Some(one.users[newUserId]) by {
      assert one.users[newUserId].email == NormalizeEmail(email);
    }
  }

  /** Deleting the account removes only that user; the same token then finds no user. */
  lemma DeletedAccountLosesAccess(users: Users, header: Option<string>, env: Env, verdict: JwtVerdict)
    requires RequireAuth(header, env, verdict, users).Admit?
    ensures var r := DeleteAccount(users, header, env, verdict);
            var id := RequireAuth(header, env, verdict, users).userId;
            && r.users.Keys == users.Keys - {id}
            && (forall other :: other in r.users ==> r.users[other] == users[other])
            && RequireAuth(header, env, verdict, r.users) == Refuse(401, UserNotFound)
  {
  }
}

/** The handlers of routes/auth.js on the user collection. */
module AuthRoutes {
  import opened Wrappers
  import opened Strings
  import opened Json
  import opened Config
  import opened Tokens
  import opened Ids
  import opened UserModel
  import opened AuthGates
  import opened Messages
  import opened AuthFlow

  /** `POST /signup`. */
  method HandleSignup(users: UserCollection, body: Body, env: Env, now: nat, hash: string, newUserId: string)
    returns (reply: AuthReply)
    requires users.Valid() && IsObjectId(newUserId)
    modifies users
    ensures users.Valid()
    ensures AuthStep(users.docs, reply) == Signup(old(users.docs), body, env, now, hash, newUserId)
  {
    ghost var expected := Signup(users.docs, body, env, now, hash, newUserId);
    var email := Get(body, "email");
    var password := Get(body, "password");
    if !Truthy(email) || !Truthy(password) {
      return Answer(400, CredentialsRequired);
    }
    var cast := CastString(email);
    if !cast.Cast? {
      return Answer(500, SignupFailed);
    }
    var existing := users.FindByEmail(cast.text);
    if existing.Some? {
      return Answer(409, AlreadyRegistered);
    }
    if !password.Str? {
      return Answer(500, SignupFailed);
    }
    var outcome := users.Create(newUserId, cast.text, hash, now);
    if !outcome.Inserted? {
      return Answer(500, SignupFailed);
    }
    var token := CreateToken(env, newUserId, now);
    if token.MissingSecret? {
      return Answer(500, ConfigError);
    }
    return Session(201, token.token, ToSafeObject(outcome.user));
  }

  /** `POST /login`; reads the collection only. */
  method HandleLogin(users: UserCollection, body: Body, env: Env, now: nat, passwordMatches: bool)
    returns (reply: AuthReply)
    requires users.Valid()
    ensures reply == Login(users.docs, body, env, now, passwordMatches)
  {
    var email := Get(body, "email");
    var password := Get(body, "password");
    if !Truthy(email) || !Truthy(password) {
      return Answer(400, CredentialsRequired);
    }
    var cast := CastString(email);
    if !cast.Cast? {
      return Answer(500, LoginFailed);
    }
    var user := users.FindByEmail(cast.text);
    if user.None? {
      return Answer(401, BadCredentials);
    }
    if !password.Str? {
      return Answer(500, LoginFailed);
    }
    if !passwordMatches {
      return Answer(401, BadCredentials);
    }
    var token := CreateToken(env, user.value.id, now);
    if token.MissingSecret? {
      return Answer(500, ConfigError);
    }
    return Session(200, token.token, ToSafeObject(user.value));
  }

  /** `DELETE /account`, behind `requireAuth`. */
  method HandleDeleteAccount(users: UserCollection, header: Option<string>, env: Env, verdict: JwtVerdict)
    returns (reply: AuthReply)
    requires users.Valid()
    modifies users
    ensures users.Valid()
    ensures AuthStep(users.docs, reply) == DeleteAccount(old(users.docs), header, env, verdict)
  {
    var gate := RequireAuth(header, env, verdict, users.docs);
    if gate.Refuse? {
      return Answer(gate.status, gate.message);
    }
    users.DeleteById(gate.userId);
    return Answer(200, AccountDeleted);
  }
}
