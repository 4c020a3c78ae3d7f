/**
 * The OTP signup state machine of routes/otp.js, as functions from the store (pending
 * signups and users) and a request to the new store, the reply and the code e-mail handed
 * to the mailer. The handlers in module OtpRoutes perform these steps in place.
 *
 * A pending signup is created by `/send`, replaced by a later `/send` for the same e-mail,
 * refreshed by `/resend`, and removed by `/verify` when it expires, when its attempts run
 * out, or when the right code creates the user.
 */
module OtpFlow {
  import opened Wrappers
  import opened Strings
  import opened Json
  import opened Config
  import opened Ids
  import opened Tokens
  import opened UserModel
  import opened OtpModel
  import opened Messages

  /** `expiresAt.setMinutes(expiresAt.getMinutes() + 3)`, in milliseconds. */
  const OtpLifetimeMs: nat := 3 * 60 * 1000

  /** The length in bytes of a session identifier drawn from `crypto.randomBytes(32)`. */
  const SessionIdBytes: nat := 32


  /**
   * `generateOTP()`: `Math.floor(100000 + Math.random() * 900000).toString()`, where `rand`
   * is the value `Math.random()` returned.
   */
  function GenerateOtp(rand: real): (code: string)
    requires 0.0 <= rand < 1.0
    ensures |code| == 6 && IsDigits(code) && code[0] != '0'
    ensures 100000 <= DecimalValue(code) <= 999999
  {
    var n := (100000.0 + rand * 900000.0).Floor;
    assert 100000 <= n < 1000000;
    assert Pow10(5) == 100000 && Pow10(6) == 1000000 by {
      assert Pow10(1) == 10 && Pow10(2) == 100 && Pow10(3) == 1000 && Pow10(4) == 10000;
    }
    DecimalLength(n, 5);
    DecimalRoundTrip(n);
    NatToDecimal(n)
  }

  /**
   * `generateSessionId()`: the 32 bytes `crypto.randomBytes(32)` returned, as 64 lower-case
   * hexadecimal digits from which the bytes can be read back.
   */
  function GenerateSessionId(bytes: seq<Byte>): (sid: string)
    requires |bytes| == SessionIdBytes
    ensures |sid| == 64 && IsLowerHex(sid)
    ensures HexDecode(sid) == bytes
  {
    HexRoundTrip(bytes);
    HexEncode(bytes)
  }

  /**
   * Whether the name `sendOTPEmail` that routes/otp.js imports from services/mailer.js is
   * bound to a function. The mailer does not export it, so as written it is `undefined` and
   * calling it throws a TypeError.
   */
  datatype OtpMailer = Unbound | Bound

  /** The binding routes/otp.js actually gets. */
  const Imported: OtpMailer := Unbound

  /** The arguments of a `sendOTPEmail(email, otp, name)` call. */
  datatype OtpMail = OtpMail(to: string, code: string, name: Value)

  /** An HTTP reply of the OTP routes: status, message, and the fields some replies carry. */
  datatype Reply = Reply(status: nat, message: Message, sessionId: Option<string>, token: Option<Jwt>, user: Option<SafeUser>)

  function Fail(status: nat, message: Message): Reply {
    Reply(status, message, None, None, None)
  }

  /** The two collections the OTP routes touch. */
  datatype Store = Store(otps: Ledger, users: Users)

  /** The outcome of one request: the new store, the reply, and the code e-mail requested. */
  datatype Step = Step(store: Store, reply: Reply, mail: Option<OtpMail>)

  /**
   * What the OTP routes keep true of the store: the schemas' guarantees, sessions named by
   * 64 hex digits, at most five attempts counted, no verified record left behind, and at
   * most one pending signup per e-mail.
   */
  ghost predicate Inv(s: Store) {
    Stored(s.otps) && UsersInv(s.users) && SessionsHex(s.otps) && Pending(s.otps) && OnePerEmail(s.otps)
  }

  /** Every session identifier is 64 lower-case hexadecimal digits. */
  ghost predicate SessionsHex(l: Ledger) {
    forall sid :: sid in l ==> |sid| == 64 && IsLowerHex(sid)
  }

  /** Every stored record allows five attempts, has used at most those, and is not verified. */
  ghost predicate Pending(l: Ledger) {
    forall sid :: sid in l ==>
      && l[sid].maxAttempts == DefaultMaxAttempts
      && l[sid].attempts <= l[sid].maxAttempts
      && !l[sid].verified
  }

  /** No two sessions share an e-mail. */
  ghost predicate OnePerEmail(l: Ledger) {
    forall a, b :: a in l && b in l && l[a].email == l[b].email ==> a == b
  }

  // ---------------------------------------------------------------------------
  // POST /send

  /**
   * The write of `/send` once the e-mail `e` (normalised) is free and the password is hashed:
   * earlier pending signups of `e` are deleted, the new record is created, and the code
   * e-mail is requested.
   */
  function SendWrite(s: Store, e: string, code: string, sid: string, hash: string, name: Value,
                     now: nat, mailer: OtpMailer): (r: Step)
    ensures r.store.users == s.users
    ensures r.reply.status in {200, 500}
    ensures r.reply.status == 200 ==> mailer.Bound? && r.reply.sessionId == Some(sid)
    ensures r.mail.Some? ==> r.reply.status == 200 && r.mail.value == OtpMail(e, code, name)
    ensures forall k :: k in s.otps && s.otps[k].email != NormalizeEmail(e) ==> k in r.store.otps && r.store.otps[k] == s.otps[k]
    ensures forall k :: k in r.store.otps && r.store.otps[k].email != NormalizeEmail(e) ==> k in s.otps && r.store.otps[k] == s.otps[k]
    ensures forall k :: k in r.store.otps && r.store.otps[k].email == NormalizeEmail(e) ==> k == sid && (r.reply.status == 200 || mailer.Unbound?)
    ensures r.reply.status == 200 ==>
              && sid in r.store.otps && r.store.otps[sid].email == NormalizeEmail(e) && r.store.otps[sid].otp == code
              && r.store.otps[sid].attempts == 0 && r.store.otps[sid].expiresAt == now + OtpLifetimeMs
  {
    var cleared := WithoutEmail(s.otps, e);
    if !name.Str? then
      Step(Store(cleared, s.users), Fail(500, SendFailed), None)
    else
      var rec := NewRecord(e, code, sid, hash, Trim(name.s), now + OtpLifetimeMs, now);
      match Insert(cleared, rec)
      case None => Step(Store(cleared, s.users), Fail(500, SendFailed), None)
      case Some(written) =>
        if mailer.Unbound? then
          Step(Store(written, s.users), Fail(500, SendFailed), None)
        else
          Step(Store(written, s.users), Reply(200, OtpSent, Some(sid), None, None), Some(OtpMail(e, code, name)))
  }

  /**
   * `POST /send { email, password, name }` with `hash` the result of `bcrypt.hash`, `rand`
   * the draw of `Math.random()` and `sidBytes` that of `crypto.randomBytes(32)`.
   */
  function Send(s: Store, body: Body, now: nat, hash: string, rand: real, sidBytes: seq<Byte>, mailer: OtpMailer): (r: Step)
    requires 0.0 <= rand < 1.0 && |sidBytes| == SessionIdBytes
    ensures r.store.users == s.users
    ensures r.reply.status in {200, 400, 409, 500}
    ensures r.reply.status in {400, 409} ==> r.store == s
    ensures r.reply.status == 400 <==> !Truthy(Get(body, "email")) || !Truthy(Get(body, "password"))
    ensures r.reply.status == 200 ==> mailer.Bound? && r.reply.sessionId == Some(GenerateSessionId(sidBytes))
  {
    var email := Get(body, "email");
    var password := Get(body, "password");
    if !Truthy(email) || !Truthy(password) then
      Step(s, Fail(400, CredentialsRequired), None)
    else if !email.Str? then
      Step(s, Fail(500, SendFailed), None)
    else if EmailTaken(s.users, NormalizeEmail(email.s)) then
      Step(s, Fail(409, AlreadyRegistered), None)
    else if !password.Str? then
      Step(s, Fail(500, SendFailed), None)
    else
      var name := if Truthy(Get(body, "name")) then Get(body, "name") else Str("");
      SendWrite(s, NormalizeEmail(email.s), GenerateOtp(rand), GenerateSessionId(sidBytes), hash, name, now, mailer)
  }

  // ---------------------------------------------------------------------------
  // POST /verify

  /** The ladder of checks `/verify` applies to the record it found, in the source's order. */
  function VerifyFound(s: Store, sid: string, found: Option<OtpRecord>, code: Value, now: nat, env: Env, newUserId: string): (r: Step)
    requires IsObjectId(newUserId)
    ensures r.mail.None?
    ensures r.reply.status in {201, 400, 404, 409, 429, 500}
    ensures found.None? ==> r == Step(s, Fail(404, SessionNotFound), None)
    ensures r.store.users != s.users ==>
              && r.reply.status in {201, 500} && found.Some? && code == Str(found.value.otp)
              && now <= found.value.expiresAt && found.value.attempts < found.value.maxAttempts
    ensures r.reply.status == 201 ==>
              && found.Some? && !found.value.verified && now <= found.value.expiresAt
              && found.value.attempts < found.value.maxAttempts && code == Str(found.value.otp)
              && r.store.otps == s.otps - {sid} && r.reply.token.Some? && r.reply.user.Some?
  {
    match found
    case None => Step(s, Fail(404, SessionNotFound), None)
    case Some(rec) =>
      if rec.verified then
        Step(s, Fail(400, OtpUsed), None)
      else if now > rec.expiresAt then
        Step(Store(s.otps - {sid}, s.users), Fail(400, OtpExpired), None)
      else if rec.attempts >= rec.maxAttempts then
        Step(Store(s.otps - {sid}, s.users), Fail(429, TooManyAttempts), None)
      else if code != Str(rec.otp) then
        var bumped := rec.(attempts := rec.attempts + 1, updatedAt := now);
        var remaining := rec.maxAttempts - bumped.attempts;
        Step(Store(s.otps[sid := bumped], s.users),
             Fail(400, WrongOtp(remaining)), None)
      else
        match InsertUser(s.users, newUserId, rec.email, rec.passwordHash, now)
        case DuplicateKey => Step(s, Fail(409, AlreadyRegistered), None)
        case ValidationFailed => Step(s, Fail(500, VerifyFailed), None)
        case Inserted(users, user) =>
          var after := Store(s.otps - {sid}, users);
          match CreateToken(env, newUserId, now)
          case MissingSecret => Step(after, Fail(500, VerifyFailed), None)
          case Issued(token) =>
            Step(after, Reply(201, AccountCreated, None, Some(token), Some(ToSafeObject(user))), None)
  }

  /** `POST /verify { email, otp, sessionId }`; `newUserId` is the id the new user would get. */
  function Verify(s: Store, body: Body, now: nat, env: Env, newUserId: string): (r: Step)
    requires IsObjectId(newUserId)
    ensures r.mail.None?
    ensures r.reply.status in {201, 400, 404, 409, 429, 500}
    ensures !Truthy(Get(body, "email")) || !Truthy(Get(body, "otp")) || !Truthy(Get(body, "sessionId"))
            ==> r == Step(s, Fail(400, OtpFieldsRequired), None)
    ensures r.reply.status !in {201, 500} ==> r.store.users == s.users
    ensures r.reply.status == 201 ==>
              && Get(body, "email").Str? && CastString(Get(body, "sessionId")).Cast?
              && var sid := CastString(Get(body, "sessionId")).text;
                 var found := FindOne(s.otps, NormalizeEmail(Get(body, "email").s), sid);
                 && found.Some? && Get(body, "otp") == Str(found.value.otp) && now <= found.value.expiresAt
                 && r.store.otps == s.otps - {sid}
  {
    var email := Get(body, "email");
    var code := Get(body, "otp");
    var sessionId := Get(body, "sessionId");
    if !Truthy(email) || !Truthy(code) || !Truthy(sessionId) then
      Step(s, Fail(400, OtpFieldsRequired), None)
    else if !email.Str? then
      Step(s, Fail(500, VerifyFailed), None)
    else
      var sid := CastString(sessionId);
      if sid.Cast? then VerifyFound(s, sid.text, FindOne(s.otps, NormalizeEmail(email.s), sid.text), code, now, env, newUserId)
      else Step(s, Fail(500, VerifyFailed), None)
  }

  // ---------------------------------------------------------------------------
  // POST /resend

  /** The part of `/resend` after the lookup of session `sid` for the normalised e-mail `e`. */
  function ResendFound(s: Store, sid: string, found: Option<OtpRecord>, e: string, now: nat, rand: real, mailer: OtpMailer): (r: Step)
    requires 0.0 <= rand < 1.0
    ensures r.store.users == s.users
    ensures r.reply.status in {200, 400, 404, 500}
    ensures r.reply.status in {400, 404} ==> r.store == s
    ensures r.reply.status == 404 <==> found.None?
    ensures r.reply.status == 200 ==> mailer.Bound? && r.mail.Some?
    ensures r.mail.Some? ==> r.mail.value.to == e && r.mail.value.code == GenerateOtp(rand)
    ensures found.Some? && !found.value.verified ==>
              && r.store.otps == s.otps[sid := found.value.(otp := GenerateOtp(rand), expiresAt := now + OtpLifetimeMs,
                                                           attempts := 0, updatedAt := now)]
              && r.reply.status == (if mailer.Bound? then 200 else 500)
  {
    match found
    case None => Step(s, Fail(404, ResendSessionNotFound), None)
    case Some(rec) =>
      if rec.verified then
        Step(s, Fail(400, OtpAlreadyVerified), None)
      else
        var code := GenerateOtp(rand);
        var refreshed := rec.(otp := code, expiresAt := now + OtpLifetimeMs, attempts := 0, updatedAt := now);
        var after := Store(s.otps[sid := refreshed], s.users);
        if mailer.Unbound? then Step(after, Fail(500, ResendFailed), None)
        else Step(after, Reply(200, OtpResent, None, None, None), Some(OtpMail(e, code, Str(rec.name))))
  }

  /** `POST /resend { email, sessionId }`, with `rand` the draw of `Math.random()`. */
  function Resend(s: Store, body: Body, now: nat, rand: real, mailer: OtpMailer): (r: Step)
    requires 0.0 <= rand < 1.0
    ensures r.store.users == s.users
    ensures r.reply.status in {200, 400, 404, 500}
    ensures r.reply.status in {400, 404} ==> r.store == s
    ensures !Truthy(Get(body, "email")) || !Truthy(Get(body, "sessionId"))
            ==> r == Step(s, Fail(400, ResendFieldsRequired), None)
    ensures r.reply.status == 200 ==>
              && Get(body, "email").Str? && CastString(Get(body, "sessionId")).Cast?
              && var sid := CastString(Get(body, "sessionId")).text;
                 var found := FindOne(s.otps, NormalizeEmail(Get(body, "email").s), sid);
                 && found.Some? && sid in r.store.otps
                 && r.store.otps[sid].otp == GenerateOtp(rand) && r.store.otps[sid].attempts == 0
                 && r.store.otps[sid].expiresAt == now + OtpLifetimeMs
  {
    var email := Get(body, "email");
    var sessionId := Get(body, "sessionId");
    if !Truthy(email) || !Truthy(sessionId) then
      Step(s, Fail(400, ResendFieldsRequired), None)
    else if !email.Str? then
      Step(s, Fail(500, ResendFailed), None)
    else
      var sid := CastString(sessionId);
      var e := NormalizeEmail(email.s);
      if sid.Cast? then ResendFound(s, sid.text, FindOne(s.otps, e, sid.text), e, now, rand, mailer)
      else Step(s, Fail(500, ResendFailed), None)
  }

  /** One pass of the TTL task over the pending signups. */
  function ReapStep(s: Store, now: nat): (r: Store)
    ensures r.users == s.users
    ensures forall sid :: sid in r.otps ==> now <= r.otps[sid].expiresAt
  {
    Store(Unexpired(s.otps, now), s.users)
  }
}

/** What the OTP signup flow guarantees, stated over the functions of module OtpFlow. */
module OtpProperties {
  import opened Wrappers
  import opened Strings
  import opened Json
  import opened Config
  import opened Ids
  import opened Tokens
  import opened UserModel
  import opened OtpModel
  import opened Messages
  import opened OtpFlow

  /** The body of a `/verify` request carrying three strings. */
  function VerifyBody(email: string, code: string, sid: string): (b: Body)
    ensures Get(b, "email") == Str(email) && Get(b, "otp") == Str(code) && Get(b, "sessionId") == Str(sid)
  {
    map["email" := Str(email), "otp" := Str(code), "sessionId" := Str(sid)]
  }

  /** The body of a `/resend` request carrying two strings. */
  function ResendBody(email: string, sid: string): (b: Body)
    ensures Get(b, "email") == Str(email) && Get(b, "sessionId") == Str(sid)
  {
    map["email" := Str(email), "sessionId" := Str(sid)]
  }

  /** The name `/send` stores: `(name || '').trim()`, or nothing usable for a non-string name. */
  function SendName(body: Body): Value {
    if Truthy(Get(body, "name")) then Get(body, "name") else Str("")
  }

  // ---------------------------------------------------------------------------
  // /send

  /**
   * A `/send` that passes its checks deletes every earlier pending signup of the e-mail and
   * stores exactly one fresh record for it: no attempts, five allowed, three minutes to live.
   * The reply is 200 only when the mailer is bound.
   */
  lemma SendWritesOneRecord(s: Store, body: Body, now: nat, hash: string, rand: real, sidBytes: seq<Byte>, mailer: OtpMailer)
    requires 0.0 <= rand < 1.0 && |sidBytes| == SessionIdBytes
    requires Truthy(Get(body, "email")) && Get(body, "email").Str?
    requires Truthy(Get(body, "password")) && Get(body, "password").Str?
    requires SendName(body).Str? && hash != ""
    requires NormalizeEmail(Get(body, "email").s) != ""
    requires !EmailTaken(s.users, NormalizeEmail(Get(body, "email").s))
    requires GenerateSessionId(sidBytes) !in WithoutEmail(s.otps, NormalizeEmail(Get(body, "email").s))
    ensures var e := NormalizeEmail(Get(body, "email").s);
            var sid := GenerateSessionId(sidBytes);
            var r := Send(s, body, now, hash, rand, sidBytes, mailer);
            && r.store.otps == WithoutEmail(s.otps, e)[sid := NewRecord(e, GenerateOtp(rand), sid, hash, Trim(SendName(body).s), now + OtpLifetimeMs, now)]
            && (forall t :: t in r.store.otps && r.store.otps[t].email == e <==> t == sid)
            && r.store.otps[sid].attempts == 0 && r.store.otps[sid].maxAttempts == 5
            && r.store.otps[sid].expiresAt == now + 180000
            && r.reply.status == (if mailer.Bound? then 200 else 500)
  {
    var e := NormalizeEmail(Get(body, "email").s);
    NormalizeEmailIdempotent(Get(body, "email").s);
  }

  /** `/send` for a registered e-mail answers 409 and writes nothing. */
  lemma SendRefusesRegisteredEmail(s: Store, body: Body, now: nat, hash: string, rand: real, sidBytes: seq<Byte>, mailer: OtpMailer)
    requires 0.0 <= rand < 1.0 && |sidBytes| == SessionIdBytes
    requires Truthy(Get(body, "email")) && Get(body, "email").Str? && Truthy(Get(body, "password"))
    requires EmailTaken(s.users, NormalizeEmail(Get(body, "email").s))
    ensures var r := Send(s, body, now, hash, rand, sidBytes, mailer);
            r.store == s && r.reply == Fail(409, AlreadyRegistered) && r.mail.None?
  {
  }

  /** Once the e-mail is free and the password a string, `/send` comes down to its write. */
  lemma SendReaches(s: Store, body: Body, now: nat, hash: string, rand: real, sidBytes: seq<Byte>, mailer: OtpMailer)
    requires 0.0 <= rand < 1.0 && |sidBytes| == SessionIdBytes
    requires Truthy(Get(body, "email")) && Get(body, "email").Str?
    requires Truthy(Get(body, "password")) && Get(body, "password").Str?
    requires !EmailTaken(s.users, NormalizeEmail(Get(body, "email").s))
    ensures Send(s, body, now, hash, rand, sidBytes, mailer)
            == SendWrite(s, NormalizeEmail(Get(body, "email").s), GenerateOtp(rand), GenerateSessionId(sidBytes), hash, SendName(body), now, mailer)
  {
  }

  /** The write of `/send` keeps no record of the e-mail other than the new one. */
  lemma SendWriteClears(s: Store, e: string, code: string, sid: string, hash: string, name: Value, now: nat, mailer: OtpMailer)
    ensures var r := SendWrite(s, e, code, sid, hash, name, now, mailer);
            forall t :: t in r.store.otps && t != sid ==> t in WithoutEmail(s.otps, e)
  {
  }

  /** A `/send` that gets past its checks deletes every earlier session of the e-mail. */
  lemma SendDropsEarlierSession(s: Store, body: Body, now: nat, hash: string, rand: real, sidBytes: seq<Byte>,
                                mailer: OtpMailer, oldSid: string)
    requires 0.0 <= rand < 1.0 && |sidBytes| == SessionIdBytes
    requires Truthy(Get(body, "email")) && Get(body, "email").Str?
    requires Truthy(Get(body, "password")) && Get(body, "password").Str?
    requires !EmailTaken(s.users, NormalizeEmail(Get(body, "email").s))
    requires oldSid in s.otps && s.otps[oldSid].email == NormalizeEmail(Get(body, "email").s)
    requires oldSid != GenerateSessionId(sidBytes)
    ensures oldSid !in Send(s, body, now, hash, rand, sidBytes, mailer).store.otps
  {
    var e := NormalizeEmail(Get(body, "email").s);
    NormalizeEmailIdempotent(Get(body, "email").s);
    assert oldSid !in WithoutEmail(s.otps, e);
    var w := SendWrite(s, e, GenerateOtp(rand), GenerateSessionId(sidBytes), hash, SendName(body), now, mailer);
    SendReaches(s, body, now, hash, rand, sidBytes, mailer);
    SendWriteClears(s, e, GenerateOtp(rand), GenerateSessionId(sidBytes), hash, SendName(body), now, mailer);
    assert oldSid !in w.store.otps;
  }

  /**
   * A second `/send` for the same e-mail invalidates the earlier session: verifying it
   * afterwards answers 404 whatever code is given.
   */
  lemma SendSupersedesEarlierSession(s: Store, body: Body, now: nat, hash: string, rand: real, sidBytes: seq<Byte>,
                                     mailer: OtpMailer, oldSid: string, code: string, later: nat, env: Env, uid: string)
    requires 0.0 <= rand < 1.0 && |sidBytes| == SessionIdBytes && IsObjectId(uid)
    requires Truthy(Get(body, "email")) && Get(body, "email").Str?
    requires Truthy(Get(body, "password")) && Get(body, "password").Str?
    requires !EmailTaken(s.users, NormalizeEmail(Get(body, "email").s))
    requires oldSid in s.otps && s.otps[oldSid].email == NormalizeEmail(Get(body, "email").s)
    requires oldSid != GenerateSessionId(sidBytes) && oldSid != "" && code != ""
    ensures var r := Send(s, body, now, hash, rand, sidBytes, mailer);
            Verify(r.store, VerifyBody(Get(body, "email").s, code, oldSid), later, env, uid).reply.status == 404
  {
    var r := Send(s, body, now, hash, rand, sidBytes, mailer);
    SendDropsEarlierSession(s, body, now, hash, rand, sidBytes, mailer, oldSid);
    VerifyUnknownSession(r.store, Get(body, "email").s, code, oldSid, later, env, uid);
  }

  /**
   * As imported, `sendOTPEmail` is not a function: no `/send` ever answers 200, and a request
   * that passes every check still leaves its record stored behind the 500.
   */
  lemma SendAsImportedNeverSucceeds(s: Store, body: Body, now: nat, hash: string, rand: real, sidBytes: seq<Byte>)
    requires 0.0 <= rand < 1.0 && |sidBytes| == SessionIdBytes
    ensures Send(s, body, now, hash, rand, sidBytes, Imported).reply.status != 200
    ensures var b := map["email" := Str("a@x.com"), "password" := Str("pw123456")];
            var r := Send(Store(map[], map[]), b, now, "hash", rand, sidBytes, Imported);
            r.reply.status == 500 && GenerateSessionId(sidBytes) in r.store.otps
  {
    var b := map["email" := Str("a@x.com"), "password" := Str("pw123456")];
    NormalizedAlready("a@x.com");
    SendWritesOneRecord(Store(map[], map[]), b, now, "hash", rand, sidBytes, Imported);
  }

  // ---------------------------------------------------------------------------
  // /verify

  /** With three non-empty strings, `/verify` comes down to the ladder on the record found. */
  lemma VerifyReaches(s: Store, email: string, code: string, sid: string, now: nat, env: Env, uid: string)
    requires IsObjectId(uid) && email != "" && code != "" && sid != ""
    ensures Verify(s, VerifyBody(email, code, sid), now, env, uid)
            == VerifyFound(s, sid, FindOne(s.otps, email, sid), Str(code), now, env, uid)
  {
    NormalizeEmailIdempotent(email);
  }

  /** A session that is not pending for this e-mail answers 404 and changes nothing. */
  lemma VerifyUnknownSession(s: Store, email: string, code: string, sid: string, now: nat, env: Env, uid: string)
    requires IsObjectId(uid) && email != "" && code != "" && sid != ""
    requires FindOne(s.otps, email, sid).None?
    ensures var r := Verify(s, VerifyBody(email, code, sid), now, env, uid);
            r.store == s && r.reply == Fail(404, SessionNotFound)
  {
    VerifyReaches(s, email, code, sid, now, env, uid);
  }

  /** An expired code is refused, and its record deleted, even when the code matches. */
  lemma VerifyExpired(s: Store, email: string, code: string, sid: string, now: nat, env: Env, uid: string)
    requires IsObjectId(uid) && email != "" && code != "" && sid != ""
    requires sid in s.otps && s.otps[sid].email == NormalizeEmail(email) && !s.otps[sid].verified
    requires now > s.otps[sid].expiresAt
    ensures var r := Verify(s, VerifyBody(email, code, sid), now, env, uid);
            && r.store == Store(s.otps - {sid}, s.users)
            && r.reply == Fail(400, OtpExpired)
  {
    VerifyReaches(s, email, code, sid, now, env, uid);
  }

  /** A session whose attempts are used up is refused with 429 and deleted, whatever the code. */
  lemma VerifyExhausted(s: Store, email: string, code: string, sid: string, now: nat, env: Env, uid: string)
    requires IsObjectId(uid) && email != "" && code != "" && sid != ""
    requires sid in s.otps && s.otps[sid].email == NormalizeEmail(email) && !s.otps[sid].verified
    requires now <= s.otps[sid].expiresAt && s.otps[sid].attempts >= s.otps[sid].maxAttempts
    ensures var r := Verify(s, VerifyBody(email, code, sid), now, env, uid);
            && r.store == Store(s.otps - {sid}, s.users)
            && r.reply == Fail(429, TooManyAttempts)
  {
    VerifyReaches(s, email, code, sid, now, env, uid);
  }

  /** A wrong code counts one attempt and reports how many are left. */
  lemma VerifyWrongCode(s: Store, email: string, code: string, sid: string, now: nat, env: Env, uid: string)
    requires IsObjectId(uid) && email != "" && code != "" && sid != ""
    requires sid in s.otps && s.otps[sid].email == NormalizeEmail(email) && !s.otps[sid].verified
    requires now <= s.otps[sid].expiresAt && s.otps[sid].attempts < s.otps[sid].maxAttempts
    requires code != s.otps[sid].otp
    ensures var rec := s.otps[sid];
            var r := Verify(s, VerifyBody(email, code, sid), now, env, uid);
            && r.store == Store(s.otps[sid := rec.(attempts := rec.attempts + 1, updatedAt := now)], s.users)
            && r.reply == Fail(400, WrongOtp(rec.maxAttempts - rec.attempts - 1))
  {
    VerifyReaches(s, email, code, sid, now, env, uid);
    FoundWrongCode(s, sid, Str(code), now, env, uid);
  }

  lemma FoundWrongCode(s: Store, sid: string, code: Value, now: nat, env: Env, uid: string)
    requires IsObjectId(uid)
    requires sid in s.otps && !s.otps[sid].verified
    requires now <= s.otps[sid].expiresAt && s.otps[sid].attempts < s.otps[sid].maxAttempts
    requires code != Str(s.otps[sid].otp)
    ensures var rec := s.otps[sid];
            var r := VerifyFound(s, sid, Some(rec), code, now, env, uid);
            && r.store == Store(s.otps[sid := rec.(attempts := rec.attempts + 1, updatedAt := now)], s.users)
            && r.reply == Fail(400, WrongOtp(rec.maxAttempts - rec.attempts - 1))
  {
  }

  /**
   * The right code, in time and within the attempts, creates the user from the record (its
   * normalised e-mail and hash, not an admin), deletes the record, and signs a token for the
   * new user when the secret is configured.
   */
  lemma VerifyCorrectCode(s: Store, email: string, sid: string, now: nat, env: Env, uid: string)
    requires IsObjectId(uid) && email != "" && sid != ""
    requires sid in s.otps && s.otps[sid].email == NormalizeEmail(email) && !s.otps[sid].verified
    requires PassesValidation(s.otps[sid])
    requires now <= s.otps[sid].expiresAt && s.otps[sid].attempts < s.otps[sid].maxAttempts
    requires uid !in s.users && !EmailTaken(s.users, s.otps[sid].email)
    ensures var rec := s.otps[sid];
            var r := Verify(s, VerifyBody(email, rec.otp, sid), now, env, uid);
            var user := User(uid, rec.email, rec.passwordHash, Some(false), now, now);
            && r.store == Store(s.otps - {sid}, s.users[uid := user])
            && r.reply.status == (if IsSet(env, SecretVar) then 201 else 500)
            && (r.reply.status == 201 ==> r.reply.user == Some(SafeUser(uid, rec.email, false, now, now)) && r.reply.token.Some? && r.reply.token.value.sub == uid)
  {
    VerifyReaches(s, email, s.otps[sid].otp, sid, now, env, uid);
    NormalizeEmailIdempotent(email);
    FoundCorrectCode(s, sid, now, env, uid);
  }

  lemma FoundCorrectCode(s: Store, sid: string, now: nat, env: Env, uid: string)
    requires IsObjectId(uid)
    requires sid in s.otps && !s.otps[sid].verified && PassesValidation(s.otps[sid])
    requires IsNormalEmail(s.otps[sid].email)
    requires now <= s.otps[sid].expiresAt && s.otps[sid].attempts < s.otps[sid].maxAttempts
    requires uid !in s.users && !EmailTaken(s.users, s.otps[sid].email)
    ensures var rec := s.otps[sid];
            var r := VerifyFound(s, sid, Some(rec), Str(rec.otp), now, env, uid);
            var user := User(uid, rec.email, rec.passwordHash, Some(false), now, now);
            && r.store == Store(s.otps - {sid}, s.users[uid := user])
            && r.reply.status == (if IsSet(env, SecretVar) then 201 else 500)
            && (r.reply.status == 201 ==> r.reply.user == Some(SafeUser(uid, rec.email, false, now, now)) && r.reply.token.Some? && r.reply.token.value.sub == uid)
  {
    NormalizedAlready(s.otps[sid].email);
  }

  /** `n` identical `/verify` requests in a row, at the same instant. */
  function VerifyTimes(s: Store, body: Body, now: nat, env: Env, uid: string, n: nat): Store
    requires IsObjectId(uid)
    decreases n
  {
    if n == 0 then s else VerifyTimes(Verify(s, body, now, env, uid).store, body, now, env, uid, n - 1)
  }

  /** Each wrong guess adds one attempt and leaves the rest of the record and the users alone. */
  lemma {:induction false} WrongGuessesAccumulate(s: Store, email: string, wrong: string, sid: string, now: nat, env: Env, uid: string, n: nat)
    requires IsObjectId(uid) && email != "" && wrong != "" && sid != ""
    requires sid in s.otps && s.otps[sid].email == NormalizeEmail(email) && !s.otps[sid].verified
    requires now <= s.otps[sid].expiresAt && s.otps[sid].attempts + n <= s.otps[sid].maxAttempts
    requires wrong != s.otps[sid].otp
    ensures var t := VerifyTimes(s, VerifyBody(email, wrong, sid), now, env, uid, n);
            && t.users == s.users
            && sid in t.otps
            && t.otps[sid].attempts == s.otps[sid].attempts + n
            && t.otps[sid] == s.otps[sid].(attempts := t.otps[sid].attempts, updatedAt := t.otps[sid].updatedAt)
    decreases n
  {
    if n > 0 {
      VerifyWrongCode(s, email, wrong, sid, now, env, uid);
      var s1 := Verify(s, VerifyBody(email, wrong, sid), now, env, uid).store;
      WrongGuessesAccumulate(s1, email, wrong, sid, now, env, uid, n - 1);
    }
  }

  /**
   * Five wrong guesses on a fresh record lock the session: the sixth request is refused with
   * 429 even with the right code, the record is gone, and no user was created.
   */
  lemma FiveWrongGuessesLockTheSession(s: Store, email: string, wrong: string, sid: string, now: nat, env: Env, uid: string)
    requires IsObjectId(uid) && email != "" && wrong != "" && sid != ""
    requires sid in s.otps && s.otps[sid].email == NormalizeEmail(email) && !s.otps[sid].verified
    requires s.otps[sid].attempts == 0 && s.otps[sid].maxAttempts == DefaultMaxAttempts && s.otps[sid].otp != ""
    requires now <= s.otps[sid].expiresAt && wrong != s.otps[sid].otp
    ensures var t := VerifyTimes(s, VerifyBody(email, wrong, sid), now, env, uid, 5);
            var r := Verify(t, VerifyBody(email, s.otps[sid].otp, sid), now, env, uid);
            && r.reply == Fail(429, TooManyAttempts)
            && sid !in r.store.otps
            && r.store.users == s.users
  {
    WrongGuessesAccumulate(s, email, wrong, sid, now, env, uid, 5);
    var t := VerifyTimes(s, VerifyBody(email, wrong, sid), now, env, uid, 5);
    VerifyExhausted(t, email, s.otps[sid].otp, sid, now, env, uid);
  }

  // ---------------------------------------------------------------------------
  // /resend

  /**
   * `/resend` for a pending session issues a new code with a fresh three-minute lifetime and
   * zero attempts, keeping e-mail, hash and session; it does not look at the old expiry.
   */
  lemma ResendRefreshes(s: Store, email: string, sid: string, now: nat, rand: real, mailer: OtpMailer)
    requires 0.0 <= rand < 1.0 && email != "" && sid != ""
    requires sid in s.otps && s.otps[sid].email == NormalizeEmail(email) && !s.otps[sid].verified
    ensures var rec := s.otps[sid];
            var r := Resend(s, ResendBody(email, sid), now, rand, mailer);
            && r.store.otps == s.otps[sid := rec.(otp := GenerateOtp(rand), expiresAt := now + OtpLifetimeMs, attempts := 0, updatedAt := now)]
            && r.reply.status == (if mailer.Bound? then 200 else 500)
  {
    var rec := s.otps[sid];
    ResendReaches(s, email, sid, now, rand, mailer);
    NormalizeEmailIdempotent(email);
    assert FindOne(s.otps, NormalizeEmail(email), sid) == Some(rec);
    FoundResend(s, sid, rec, NormalizeEmail(email), now, rand, mailer);
  }

  /** With two non-empty strings, `/resend` comes down to the steps after the lookup. */
  lemma ResendReaches(s: Store, email: string, sid: string, now: nat, rand: real, mailer: OtpMailer)
    requires 0.0 <= rand < 1.0 && email != "" && sid != ""
    ensures Resend(s, ResendBody(email, sid), now, rand, mailer)
            == ResendFound(s, sid, FindOne(s.otps, NormalizeEmail(email), sid), NormalizeEmail(email), now, rand, mailer)
  {
  }

  lemma FoundResend(s: Store, sid: string, rec: OtpRecord, e: string, now: nat, rand: real, mailer: OtpMailer)
    requires 0.0 <= rand < 1.0 && !rec.verified
    ensures var r := ResendFound(s, sid, Some(rec), e, now, rand, mailer);
            && r.store.otps == s.otps[sid := rec.(otp := GenerateOtp(rand), expiresAt := now + OtpLifetimeMs, attempts := 0, updatedAt := now)]
            && r.reply.status == (if mailer.Bound? then 200 else 500)
  {
  }

  /** `/resend` for an unknown session answers 404 and changes nothing. */
  lemma ResendUnknownSession(s: Store, email: string, sid: string, now: nat, rand: real, mailer: OtpMailer)
    requires 0.0 <= rand < 1.0 && email != "" && sid != ""
    requires FindOne(s.otps, email, sid).None?
    ensures var r := Resend(s, ResendBody(email, sid), now, rand, mailer);
            r.store == s && r.reply == Fail(404, ResendSessionNotFound)
  {
    ResendReaches(s, email, sid, now, rand, mailer);
    NormalizeEmailIdempotent(email);
  }

  // ---------------------------------------------------------------------------
  // A whole signup

  /**
   * Signing up from an empty store with an e-mail already in normal form: `/send` answers
   * 200 with the session, a wrong code leaves four attempts, and the right code then creates
   * the user and clears the session.
   */
  lemma SignupScenario(email: string, password: string, wrong: string, now: nat, hash: string, rand: real, sidBytes: seq<Byte>, env: Env, uid: string)
    requires IsNormalEmail(email) && email != "" && password != ""
    requires 0.0 <= rand < 1.0 && |sidBytes| == SessionIdBytes
    requires hash != "" && IsObjectId(uid) && IsSet(env, SecretVar)
    requires wrong != "" && wrong != GenerateOtp(rand)
    ensures var body := map["email" := Str(email), "password" := Str(password)];
            var sent := Send(Store(map[], map[]), body, now, hash, rand, sidBytes, Bound);
            var sid := GenerateSessionId(sidBytes);
            var guess := Verify(sent.store, VerifyBody(email, wrong, sid), now + 1000, env, uid);
            var right := Verify(guess.store, VerifyBody(email, GenerateOtp(rand), sid), now + 2000, env, uid);
            && sent.reply.status == 200 && sent.reply.sessionId == Some(sid)
            && guess.reply == Fail(400, WrongOtp(4))
            && right.reply.status == 201
            && right.store.otps == map[]
            && right.store.users == map[uid := User(uid, email, hash, Some(false), now + 2000, now + 2000)]
  {
    var body := map["email" := Str(email), "password" := Str(password)];
    var sid := GenerateSessionId(sidBytes);
    var code := GenerateOtp(rand);
    var rec := NewRecord(email, code, sid, hash, "", now + OtpLifetimeMs, now);
    var bumped := rec.(attempts := 1, updatedAt := now + 1000);
    NormalizedAlready(email);
    assert |sid| == 64 && rec.email == email && rec.otp == code && bumped.passwordHash == hash;
    var sent := Send(Store(map[], map[]), body, now, hash, rand, sidBytes, Bound);
    assert sent.reply.status == 200 && sent.reply.sessionId == Some(sid) && sent.store == Store(map[sid := rec], map[]) by {
      ScenarioSend(email, password, now, hash, rand, sidBytes);
    }
    var guess := Verify(sent.store, VerifyBody(email, wrong, sid), now + 1000, env, uid);
    assert guess.reply == Fail(400, WrongOtp(4)) && guess.store == Store(map[sid := bumped], map[]) by {
      ScenarioWrongCode(Store(map[sid := rec], map[]), email, wrong, sid, now + 1000, env, uid);
      assert map[sid := rec][sid := bumped] == map[sid := bumped];
    }
    var right := Verify(guess.store, VerifyBody(email, code, sid), now + 2000, env, uid);
    assert right.reply.status == 201 && right.store == Store(map[], map[uid := User(uid, email, hash, Some(false), now + 2000, now + 2000)]) by {
      ScenarioRightCode(Store(map[sid := bumped], map[]), email, sid, bumped, now + 2000, env, uid);
    }
  }

  lemma ScenarioSend(email: string, password: string, now: nat, hash: string, rand: real, sidBytes: seq<Byte>)
    requires IsNormalEmail(email) && email != "" && password != ""
    requires 0.0 <= rand < 1.0 && |sidBytes| == SessionIdBytes && hash != ""
    ensures var body := map["email" := Str(email), "password" := Str(password)];
            var sent := Send(Store(map[], map[]), body, now, hash, rand, sidBytes, Bound);
            var sid := GenerateSessionId(sidBytes);
            && sent.reply.status == 200 && sent.reply.sessionId == Some(sid)
            && sent.store == Store(map[sid := NewRecord(email, GenerateOtp(rand), sid, hash, "", now + OtpLifetimeMs, now)], map[])
  {
    var body := map["email" := Str(email), "password" := Str(password)];
    NormalizedAlready(email);
    assert SendName(body) == Str("");
    SendWritesOneRecord(Store(map[], map[]), body, now, hash, rand, sidBytes, Bound);
    assert Trim("") == "";
  }

  lemma ScenarioWrongCode(s1: Store, email: string, wrong: string, sid: string, now: nat, env: Env, uid: string)
    requires IsNormalEmail(email) && email != "" && wrong != ""
    requires IsObjectId(uid) && sid in s1.otps && sid != ""
    requires s1.otps[sid].email == email && s1.otps[sid].attempts == 0 && s1.otps[sid].maxAttempts == 5
    requires !s1.otps[sid].verified && now <= s1.otps[sid].expiresAt && s1.otps[sid].otp != wrong
    ensures var r := Verify(s1, VerifyBody(email, wrong, sid), now, env, uid);
            && r.reply == Fail(400, WrongOtp(4))
            && r.store == Store(s1.otps[sid := s1.otps[sid].(attempts := 1, updatedAt := now)], s1.users)
  {
    NormalizedAlready(email);
    VerifyWrongCode(s1, email, wrong, sid, now, env, uid);
  }


  lemma ScenarioRightCode(s2: Store, email: string, sid: string, rec: OtpRecord, now: nat, env: Env, uid: string)
    requires IsNormalEmail(email) && email != ""
    requires IsObjectId(uid) && s2 == Store(map[sid := rec], map[]) && sid != "" && IsSet(env, SecretVar)
    requires rec.email == email && rec.attempts < rec.maxAttempts && !rec.verified
    requires now <= rec.expiresAt && PassesValidation(rec)
    ensures var right := Verify(s2, VerifyBody(email, rec.otp, sid), now, env, uid);
            && right.reply.status == 201
            && right.store == Store(map[], map[uid := User(uid, email, rec.passwordHash, Some(false), now, now)])
  {
    NormalizedAlready(email);
    VerifyCorrectCode(s2, email, sid, now, env, uid);
    assert map[sid := rec] - {sid} == map[];
  }

}

/** The invariant `OtpFlow.Inv` holds after every request and every pass of the TTL task. */
module OtpInvariant {
  import opened Wrappers
  import opened Strings
  import opened Json
  import opened Config
  import opened Ids
  import opened Tokens
  import opened UserModel
  import opened OtpModel
  import opened Messages
  import opened OtpFlow
  import opened OtpProperties

  /** Dropping records, and keeping the others as they are, keeps the invariant. */
  lemma InvOfSubset(s: Store, l: Ledger)
    requires Inv(s)
    requires forall t :: t in l ==> t in s.otps && l[t] == s.otps[t]
    ensures Inv(Store(l, s.users))
  {
  }

  /**
   * Writing a record under its session keeps the invariant, provided it is well formed and
   * no other session holds its e-mail.
   */
  lemma InvOfWrite(s: Store, rec: OtpRecord)
    requires Inv(s)
    requires PassesValidation(rec) && IsNormalEmail(rec.email)
    requires |rec.sessionId| == 64 && IsLowerHex(rec.sessionId)
    requires rec.maxAttempts == DefaultMaxAttempts && rec.attempts <= rec.maxAttempts && !rec.verified
    requires forall t :: t in s.otps && t != rec.sessionId ==> s.otps[t].email != rec.email
    ensures Inv(Store(s.otps[rec.sessionId := rec], s.users))
  {
    var n := s.otps[rec.sessionId := rec];
    StoredAfterSave(s.otps, rec);
    assert SessionsHex(n) by {
      forall t | t in n ensures |t| == 64 && IsLowerHex(t) {
        if t != rec.sessionId { assert t in s.otps; }
      }
    }
    assert Pending(n) by {
      forall t | t in n
        ensures n[t].maxAttempts == DefaultMaxAttempts && n[t].attempts <= n[t].maxAttempts && !n[t].verified
      {
        if t != rec.sessionId { assert n[t] == s.otps[t]; }
      }
    }
    assert OnePerEmail(n) by {
      forall a, b | a in n && b in n && n[a].email == n[b].email
        ensures a == b
      {
        assert a != rec.sessionId ==> n[a] == s.otps[a];
        assert b != rec.sessionId ==> n[b] == s.otps[b];
      }
    }
  }

  lemma SendWriteKeepsInv(s: Store, e: string, code: string, sid: string, hash: string, name: Value, now: nat, mailer: OtpMailer)
    requires Inv(s) && NormalizeEmail(e) == e
    requires |sid| == 64 && IsLowerHex(sid)
    ensures Inv(SendWrite(s, e, code, sid, hash, name, now, mailer).store)
  {
    var cleared := WithoutEmail(s.otps, e);
    InvOfSubset(s, cleared);
    if name.Str? {
      var rec := NewRecord(e, code, sid, hash, Trim(name.s), now + OtpLifetimeMs, now);
      if Insert(cleared, rec).Some? {
        InvOfWrite(Store(cleared, s.users), rec);
      }
    }
  }

  /** `/send` keeps the invariant. */
  lemma SendKeepsInv(s: Store, body: Body, now: nat, hash: string, rand: real, sidBytes: seq<Byte>, mailer: OtpMailer)
    requires 0.0 <= rand < 1.0 && |sidBytes| == SessionIdBytes
    requires Inv(s)
    ensures Inv(Send(s, body, now, hash, rand, sidBytes, mailer).store)
  {
    var email := Get(body, "email");
    var password := Get(body, "password");
    if Truthy(email) && email.Str? && Truthy(password) && password.Str? && !EmailTaken(s.users, NormalizeEmail(email.s)) {
      SendReaches(s, body, now, hash, rand, sidBytes, mailer);
      NormalizeEmailIdempotent(email.s);
      SendWriteKeepsInv(s, NormalizeEmail(email.s), GenerateOtp(rand), GenerateSessionId(sidBytes), hash, SendName(body), now, mailer);
    }
  }

  /** Rewriting one stored record, its session and e-mail unchanged, keeps the invariant. */
  lemma InvOfUpdate(s: Store, sid: string, rec: OtpRecord)
    requires Inv(s) && sid in s.otps
    requires rec.sessionId == sid && rec.email == s.otps[sid].email
    requires rec.otp != "" && rec.passwordHash == s.otps[sid].passwordHash
    requires rec.maxAttempts == DefaultMaxAttempts && rec.attempts <= rec.maxAttempts && !rec.verified
    ensures Inv(Store(s.otps[sid := rec], s.users))
  {
    var old_ := s.otps[sid];
    assert old_.sessionId == sid && PassesValidation(old_) && IsNormalEmail(old_.email);
    assert forall t :: t in s.otps && t != sid ==> s.otps[t].email != rec.email;
    InvOfWrite(s, rec);
  }

  /** Counting one more failed attempt keeps the invariant. */
  lemma BumpKeepsInv(s: Store, sid: string, now: nat)
    requires Inv(s) && sid in s.otps && s.otps[sid].attempts < s.otps[sid].maxAttempts
    ensures var rec := s.otps[sid];
            Inv(Store(s.otps[sid := rec.(attempts := rec.attempts + 1, updatedAt := now)], s.users))
  {
    var rec := s.otps[sid];
    InvOfUpdate(s, sid, rec.(attempts := rec.attempts + 1, updatedAt := now));
  }

  /** The store after `/verify` found a record: dropped, counted, or turned into a user. */
  lemma FoundStore(s: Store, sid: string, rec: OtpRecord, code: Value, now: nat, env: Env, uid: string)
    requires IsObjectId(uid)
    ensures var r := VerifyFound(s, sid, Some(rec), code, now, env, uid);
            var ins := InsertUser(s.users, uid, rec.email, rec.passwordHash, now);
            r.store == (
              if rec.verified then s
              else if now > rec.expiresAt || rec.attempts >= rec.maxAttempts then Store(s.otps - {sid}, s.users)
              else if code != Str(rec.otp) then Store(s.otps[sid := rec.(attempts := rec.attempts + 1, updatedAt := now)], s.users)
              else if ins.Inserted? then Store(s.otps - {sid}, ins.users)
              else s)
  {
  }

  /** The answer of `/verify` to the right code: refused by the user collection, or the token. */
  lemma FoundAcceptReply(s: Store, sid: string, rec: OtpRecord, now: nat, env: Env, uid: string)
    requires IsObjectId(uid) && !rec.verified && now <= rec.expiresAt && rec.attempts < rec.maxAttempts
    ensures var r := VerifyFound(s, sid, Some(rec), Str(rec.otp), now, env, uid);
            var ins := InsertUser(s.users, uid, rec.email, rec.passwordHash, now);
            var t := CreateToken(env, uid, now);
            r.reply == (
              if ins.DuplicateKey? then Fail(409, AlreadyRegistered)
              else if ins.ValidationFailed? || t.MissingSecret? then Fail(500, VerifyFailed)
              else Reply(201, AccountCreated, None, Some(t.token), Some(ToSafeObject(ins.user))))
  {
  }

  lemma VerifyFoundKeepsInv(s: Store, sid: string, found: Option<OtpRecord>, code: Value, now: nat, env: Env, uid: string)
    requires IsObjectId(uid) && Inv(s)
    requires found.Some? ==> sid in s.otps && s.otps[sid] == found.value
    ensures Inv(VerifyFound(s, sid, found, code, now, env, uid).store)
  {
    if found.Some? {
      var rec := found.value;
      FoundStore(s, sid, rec, code, now, env, uid);
      InvOfSubset(s, s.otps - {sid});
      if !rec.verified && now <= rec.expiresAt && rec.attempts < rec.maxAttempts {
        if code != Str(rec.otp) {
          BumpKeepsInv(s, sid, now);
        } else {
          InsertUserKeepsInv(s.users, uid, rec.email, rec.passwordHash, now);
        }
      }
    }
  }

  /** `/verify` keeps the invariant. */
  lemma VerifyKeepsInv(s: Store, body: Body, now: nat, env: Env, uid: string)
    requires IsObjectId(uid) && Inv(s)
    ensures Inv(Verify(s, body, now, env, uid).store)
  {
    var email := Get(body, "email");
    var sessionId := Get(body, "sessionId");
    if Truthy(email) && Truthy(Get(body, "otp")) && Truthy(sessionId) && email.Str? && CastString(sessionId).Cast? {
      var sid := CastString(sessionId).text;
      VerifyFoundKeepsInv(s, sid, FindOne(s.otps, NormalizeEmail(email.s), sid), Get(body, "otp"), now, env, uid);
    }
  }

  /** `/resend` keeps the invariant. */
  lemma ResendKeepsInv(s: Store, body: Body, now: nat, rand: real, mailer: OtpMailer)
    requires 0.0 <= rand < 1.0 && Inv(s)
    ensures Inv(Resend(s, body, now, rand, mailer).store)
  {
    var email := Get(body, "email");
    var sessionId := Get(body, "sessionId");
    if Truthy(email) && Truthy(sessionId) && email.Str? && CastString(sessionId).Cast? {
      var sid := CastString(sessionId).text;
      var e := NormalizeEmail(email.s);
      var found := FindOne(s.otps, e, sid);
      assert Resend(s, body, now, rand, mailer) == ResendFound(s, sid, found, e, now, rand, mailer);
      if found.Some? && !found.value.verified {
        var rec := found.value;
        var refreshed := rec.(otp := GenerateOtp(rand), expiresAt := now + OtpLifetimeMs, attempts := 0, updatedAt := now);
        FoundResend(s, sid, rec, e, now, rand, mailer);
        InvOfUpdate(s, sid, refreshed);
      }
    }
  }

  /** The TTL task keeps the invariant. */
  lemma ReapKeepsInv(s: Store, now: nat)
    requires Inv(s)
    ensures Inv(ReapStep(s, now))
  {
    InvOfSubset(s, Unexpired(s.otps, now));
  }
}
