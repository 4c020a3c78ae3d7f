/** The pending-signup store: the `OTP` schema and its collection `otps`. */
module OtpModel {
  import opened Wrappers
  import opened Strings

  const DefaultMaxAttempts: nat := 5

  /** A pending signup: who signs up, the code sent to them, and how far verification got. */
  datatype OtpRecord = OtpRecord(
    email: string, otp: string, sessionId: string, passwordHash: string, name: string,
    expiresAt: nat, attempts: nat, maxAttempts: nat, verified: bool,
    createdAt: nat, updatedAt: nat)

  /**
   * The document `OTP.create({...})` stores: the e-mail goes through the lowercase/trim
   * setters; `attempts`, `maxAttempts` and `verified` take their schema defaults.
   */
  function NewRecord(email: string, otp: string, sessionId: string, passwordHash: string,
                     name: string, expiresAt: nat, now: nat): (r: OtpRecord)
    ensures r.email == NormalizeEmail(email) && IsNormalEmail(r.email)
    ensures r.otp == otp && r.sessionId == sessionId && r.passwordHash == passwordHash && r.name == name
    ensures r.expiresAt == expiresAt && r.createdAt == now && r.updatedAt == now
    ensures r.attempts == 0 && r.maxAttempts == DefaultMaxAttempts && !r.verified
  {
    OtpRecord(NormalizeEmail(email), otp, sessionId, passwordHash, name, expiresAt, 0, DefaultMaxAttempts, false, now, now)
  }

  /** The schema's `required` validators: a string path holding "" fails. */
  predicate PassesValidation(r: OtpRecord) {
    r.email != "" && r.otp != "" && r.sessionId != "" && r.passwordHash != ""
  }

  /** The collection, by `sessionId` (a unique index, so it identifies a document). */
  type Ledger = map<string, OtpRecord>

  /** What every stored document satisfies by the schema alone. */
  ghost predicate Stored(l: Ledger) {
    forall sid :: sid in l ==> l[sid].sessionId == sid && PassesValidation(l[sid]) && IsNormalEmail(l[sid].email)
  }

  /** `OTP.findOne({ email, sessionId })`, the e-mail going through the setters. */
  function FindOne(l: Ledger, email: string, sessionId: string): (r: Option<OtpRecord>)
    ensures r.Some? <==> sessionId in l && l[sessionId].email == NormalizeEmail(email)
    ensures r.Some? ==> r.value == l[sessionId]
  {
    if sessionId in l && l[sessionId].email == NormalizeEmail(email) then Some(l[sessionId]) else None
  }

  /** `OTP.deleteMany({ email })`: every record of that e-mail goes, every other one stays. */
  function WithoutEmail(l: Ledger, email: string): (r: Ledger)
    ensures forall sid :: sid in r <==> sid in l && l[sid].email != NormalizeEmail(email)
    ensures forall sid :: sid in r ==> r[sid] == l[sid]
  {
    map sid | sid in l && l[sid].email != NormalizeEmail(email) :: l[sid]
  }

  /** `OTP.create(rec)`: refused by a `required` validator or by the unique index on sessionId. */
  function Insert(l: Ledger, rec: OtpRecord): (r: Option<Ledger>)
    ensures r.None? <==> !PassesValidation(rec) || rec.sessionId in l
    ensures r.Some? ==> r.value == l[rec.sessionId := rec]
  {
    if !PassesValidation(rec) || rec.sessionId in l then None else Some(l[rec.sessionId := rec])
  }

  /**
   * The TTL index (`expireAfterSeconds: 0`): the server's background task removes every
   * document whose `expiresAt` lies in the past. It runs periodically, so between two runs an
   * expired record may still be found.
   */
  function Unexpired(l: Ledger, now: nat): (r: Ledger)
    ensures forall sid :: sid in r <==> sid in l && now <= l[sid].expiresAt
    ensures forall sid :: sid in r ==> r[sid] == l[sid]
  {
    map sid | sid in l && now <= l[sid].expiresAt :: l[sid]
  }

  lemma StoredAfterInsert(l: Ledger, rec: OtpRecord)
    requires Stored(l) && IsNormalEmail(rec.email)
    ensures Insert(l, rec).Some? ==> Stored(Insert(l, rec).value)
  {
  }

  lemma StoredAfterSave(l: Ledger, rec: OtpRecord)
    requires Stored(l) && PassesValidation(rec) && IsNormalEmail(rec.email)
    ensures Stored(l[rec.sessionId := rec])
  {
    var n := l[rec.sessionId := rec];
    forall sid | sid in n
      ensures n[sid].sessionId == sid && PassesValidation(n[sid]) && IsNormalEmail(n[sid].email)
    {
      if sid != rec.sessionId { assert n[sid] == l[sid]; }
    }
  }

  /** The collection `otps`, updated in place by the OTP route handlers. */
  class OtpCollection {
    var docs: Ledger

    ghost predicate Valid()
      reads this
    {
      Stored(docs)
    }

    constructor ()
      ensures Valid() && docs == map[]
    {
      docs := map[];
    }

    method DeleteMany(email: string)
      requires Valid()
      modifies this
      ensures Valid()
      ensures docs == WithoutEmail(old(docs), email)
    {
      docs := WithoutEmail(docs, email);
    }

    method Create(rec: OtpRecord) returns (ok: bool)
      requires Valid() && IsNormalEmail(rec.email)
      modifies this
      ensures Valid()
      ensures ok == Insert(old(docs), rec).Some?
      ensures docs == if ok then Insert(old(docs), rec).value else old(docs)
    {
      var r := Insert(docs, rec);
      StoredAfterInsert(docs, rec);
      ok := r.Some?;
      if ok {
        docs := r.value;
      }
    }

    /** `OTP.deleteOne({ _id })` for the record of that session. */
    method DeleteOne(sessionId: string)
      requires Valid()
      modifies this
      ensures Valid()
      ensures docs == old(docs) - {sessionId}
    {
      docs := docs - {sessionId};
    }

    /** `otpRecord.save()` of a record fetched from the collection and changed in memory. */
    method Save(rec: OtpRecord)
      requires Valid() && rec.sessionId in docs
      requires PassesValidation(rec) && IsNormalEmail(rec.email)
      modifies this
      ensures Valid()
      ensures docs == old(docs)[rec.sessionId := rec]
    {
      StoredAfterSave(docs, rec);
      docs := docs[rec.sessionId := rec];
    }

    /** One pass of the TTL background task. */
    method Reap(now: nat)
      requires Valid()
      modifies this
      ensures Valid()
      ensures docs == Unexpired(old(docs), now)
    {
      docs := Unexpired(docs, now);
    }
  }
}
