/**
 * The handlers of routes/otp.js, performing each request's reads and writes on the
 * collections in the source's order. Each is proved to leave the collections, and to
 * answer, exactly as the corresponding step of module OtpFlow prescribes.
 */
module OtpRoutes {
  import opened Wrappers
  import opened Strings
  import opened Json
  import opened Config
  import opened Tokens
  import opened Ids
  import opened UserModel
  import opened OtpModel
  import opened Messages
  import opened OtpFlow
  import opened OtpInvariant
  import opened OtpProperties

  /** `POST /send`. */
  method HandleSend(otps: OtpCollection, users: UserCollection, body: Body, now: nat, hash: string,
                    rand: real, sidBytes: seq<Byte>, mailer: OtpMailer) returns (reply: Reply, mail: Option<OtpMail>)
    requires otps.Valid() && users.Valid()
    requires 0.0 <= rand < 1.0 && |sidBytes| == SessionIdBytes
    modifies otps
    ensures otps.Valid()
    ensures var r := Send(Store(old(otps.docs), users.docs), body, now, hash, rand, sidBytes, mailer);
            otps.docs == r.store.otps && reply == r.reply && mail == r.mail
  {
    ghost var s := Store(otps.docs, users.docs);
    ghost var expected := Send(s, body, now, hash, rand, sidBytes, mailer);
    var email := Get(body, "email");
    var password := Get(body, "password");
    var name := if Truthy(Get(body, "name")) then Get(body, "name") else Str("");
    if !Truthy(email) || !Truthy(password) {
      assert expected == Step(s, Fail(400, CredentialsRequired), None);
      return Fail(400, CredentialsRequired), None;
    }
    if !email.Str? {
      assert expected == Step(s, Fail(500, SendFailed), None);
      return Fail(500, SendFailed), None;
    }
    var e := NormalizeEmail(email.s);
    NormalizeEmailIdempotent(email.s);
    var existing := users.FindByEmail(e);
    if existing.Some? {
      assert expected == Step(s, Fail(409, AlreadyRegistered), None);
      return Fail(409, AlreadyRegistered), None;
    }
    if !password.Str? {
      assert expected == Step(s, Fail(500, SendFailed), None);
      return Fail(500, SendFailed), None;
    }
    var code := GenerateOtp(rand);
    var sid := GenerateSessionId(sidBytes);
    assert expected == SendWrite(s, e, code, sid, hash, name, now, mailer) by {
      SendReaches(s, body, now, hash, rand, sidBytes, mailer);
    }
    reply, mail := WriteHandler(otps, users, e, code, sid, hash, name, now, mailer);
  }

  /** The write of `/send`: earlier signups of `e` deleted, the new one created, the code mailed. */
  method WriteHandler(otps: OtpCollection, users: UserCollection, e: string, code: string, sid: string, hash: string,
                      name: Value, now: nat, mailer: OtpMailer) returns (reply: Reply, mail: Option<OtpMail>)
    requires otps.Valid() && IsNormalEmail(e)
    modifies otps
    ensures otps.Valid()
    ensures var r := SendWrite(Store(old(otps.docs), users.docs), e, code, sid, hash, name, now, mailer);
            otps.docs == r.store.otps && reply == r.reply && mail == r.mail
  {
    otps.DeleteMany(e);
    if !name.Str? {
      return Fail(500, SendFailed), None;
    }
    var rec := NewRecord(e, code, sid, hash, Trim(name.s), now + OtpLifetimeMs, now);
    NormalizedAlready(e);
    var created := otps.Create(rec);
    if !created {
      return Fail(500, SendFailed), None;
    }
    if mailer.Unbound? {
      return Fail(500, SendFailed), None;
    }
    return Reply(200, OtpSent, Some(sid), None, None), Some(OtpMail(e, code, name));
  }

  /** `POST /verify`; `newUserId` is the id the new user would get. */
  method HandleVerify(otps: OtpCollection, users: UserCollection, body: Body, now: nat, env: Env, newUserId: string)
    returns (reply: Reply)
    requires otps.Valid() && users.Valid() && IsObjectId(newUserId)
    modifies otps, users
    ensures otps.Valid() && users.Valid()
    ensures var r := Verify(Store(old(otps.docs), old(users.docs)), body, now, env, newUserId);
            otps.docs == r.store.otps && users.docs == r.store.users && reply == r.reply
  {
    var email := Get(body, "email");
    var code := Get(body, "otp");
    var sessionId := Get(body, "sessionId");
    if !Truthy(email) || !Truthy(code) || !Truthy(sessionId) {
      return Fail(400, OtpFieldsRequired);
    }
    if !email.Str? {
      return Fail(500, VerifyFailed);
    }
    var e := NormalizeEmail(email.s);
    var cast := CastString(sessionId);
    if !cast.Cast? {
      return Fail(500, VerifyFailed);
    }
    var sid := cast.text;
    ghost var before := Store(otps.docs, users.docs);
    var found := FindOne(otps.docs, e, sid);
    assert Verify(before, body, now, env, newUserId) == VerifyFound(before, sid, found, code, now, env, newUserId);
    reply := FoundHandler(otps, users, sid, found, code, now, env, newUserId);
  }

  /** The part of `/verify` after the lookup, on the record found. */
  method FoundHandler(otps: OtpCollection, users: UserCollection, sid: string, found: Option<OtpRecord>,
                      code: Value, now: nat, env: Env, newUserId: string) returns (reply: Reply)
    requires otps.Valid() && users.Valid() && IsObjectId(newUserId)
    requires found.Some? ==> sid in otps.docs && otps.docs[sid] == found.value
    modifies otps, users
    ensures otps.Valid() && users.Valid()
    ensures var r := VerifyFound(Store(old(otps.docs), old(users.docs)), sid, found, code, now, env, newUserId);
            otps.docs == r.store.otps && users.docs == r.store.users && reply == r.reply
  {
    if found.None? {
      return Fail(404, SessionNotFound);
    }
    var rec := found.value;
    if rec.verified {
      return Fail(400, OtpUsed);
    }
    if now > rec.expiresAt {
      otps.DeleteOne(sid);
      return Fail(400, OtpExpired);
    }
    if rec.attempts >= rec.maxAttempts {
      otps.DeleteOne(sid);
      return Fail(429, TooManyAttempts);
    }
    if code != Str(rec.otp) {
      var bumped := rec.(attempts := rec.attempts + 1, updatedAt := now);
      otps.Save(bumped);
      var remaining := bumped.maxAttempts - bumped.attempts;
      return Fail(400, WrongOtp(remaining));
    }
    reply := AcceptHandler(otps, users, sid, rec, now, env, newUserId);
  }

  /** The end of `/verify` once the code matched: the user is created, the record retired, the token issued. */
  method AcceptHandler(otps: OtpCollection, users: UserCollection, sid: string, rec: OtpRecord,
                       now: nat, env: Env, newUserId: string) returns (reply: Reply)
    requires otps.Valid() && users.Valid() && IsObjectId(newUserId)
    requires sid in otps.docs && otps.docs[sid] == rec
    requires !rec.verified && now <= rec.expiresAt && rec.attempts < rec.maxAttempts
    modifies otps, users
    ensures otps.Valid() && users.Valid()
    ensures var r := VerifyFound(Store(old(otps.docs), old(users.docs)), sid, Some(rec), Str(rec.otp), now, env, newUserId);
            otps.docs == r.store.otps && users.docs == r.store.users && reply == r.reply
  {
    ghost var s := Store(otps.docs, users.docs);
    ghost var expected := VerifyFound(s, sid, Some(rec), Str(rec.otp), now, env, newUserId);
    ghost var ins := InsertUser(s.users, newUserId, rec.email, rec.passwordHash, now);
    FoundStore(s, sid, rec, Str(rec.otp), now, env, newUserId);
    FoundAcceptReply(s, sid, rec, now, env, newUserId);
    var outcome := users.Create(newUserId, rec.email, rec.passwordHash, now);
    if outcome.DuplicateKey? {
      return Fail(409, AlreadyRegistered);
    }
    if outcome.ValidationFailed? {
      return Fail(500, VerifyFailed);
    }
    otps.Save(rec.(verified := true, updatedAt := now));
    otps.DeleteOne(sid);
    var token := CreateToken(env, newUserId, now);
    if token.MissingSecret? {
      return Fail(500, VerifyFailed);
    }
    return Reply(201, AccountCreated, None, Some(token.token), Some(ToSafeObject(outcome.user)));
  }

  /** `POST /resend`. */
  method HandleResend(otps: OtpCollection, body: Body, now: nat, rand: real, mailer: OtpMailer)
    returns (reply: Reply, mail: Option<OtpMail>)
    requires otps.Valid() && 0.0 <= rand < 1.0
    modifies otps
    ensures otps.Valid()
    ensures forall users :: var r := Resend(Store(old(otps.docs), users), body, now, rand, mailer);
            otps.docs == r.store.otps && reply == r.reply && mail == r.mail
  {
    var email := Get(body, "email");
    var sessionId := Get(body, "sessionId");
    if !Truthy(email) || !Truthy(sessionId) {
      return Fail(400, ResendFieldsRequired), None;
    }
    if !email.Str? {
      return Fail(500, ResendFailed), None;
    }
    var e := NormalizeEmail(email.s);
    var cast := CastString(sessionId);
    if !cast.Cast? {
      return Fail(500, ResendFailed), None;
    }
    var sid := cast.text;
    var found := FindOne(otps.docs, e, sid);
    if found.None? {
      return Fail(404, ResendSessionNotFound), None;
    }
    var rec := found.value;
    if rec.verified {
      return Fail(400, OtpAlreadyVerified), None;
    }
    var code := GenerateOtp(rand);
    otps.Save(rec.(otp := code, expiresAt := now + OtpLifetimeMs, attempts := 0, updatedAt := now));
    if mailer.Unbound? {
      return Fail(500, ResendFailed), None;
    }
    return Reply(200, OtpResent, None, None, None), Some(OtpMail(e, code, Str(rec.name)));
  }
}
