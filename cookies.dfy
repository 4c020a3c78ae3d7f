/**
 * Cookie consent: the `CookiePreference` schema (collection `cookie_preferences`, one record
 * per browser session) and the routes of routes/cookies.js that read and upsert it.
 */
module CookieModel {
  import opened Wrappers
  import opened Strings
  import opened Json
  import opened Config

  /** The five consent flags of a session. */
  datatype Prefs = Prefs(accepted: bool, essential: bool, analytics: bool, marketing: bool, preferences: bool)

  /** The schema's defaults: nothing accepted, essential cookies on, every optional category off. */
  const SchemaDefaults: Prefs := Prefs(false, true, false, false, false)

  /** The collection as a map from (trimmed) session id to the flags stored for it. */
  type Sessions = map<string, Prefs>

  /** What a record stores for a session id: the schema's `trim` setter runs on it. */
  function SessionKey(sid: string): (k: string)
    ensures Trimmed(k)
  {
    Trim(sid)
  }

  /** The collection `cookie_preferences`, updated in place by `POST /cookies`. */
  class SessionStore {
    var docs: Sessions

    ghost predicate Valid()
      reads this
    {
      forall k :: k in docs ==> Trimmed(k)
    }

    constructor ()
      ensures Valid() && docs == map[]
    {
      docs := map[];
    }

    /** `findOne({ sessionId })`. */
    function Find(sid: string): (found: Option<Prefs>)
      reads this
      ensures found.Some? <==> SessionKey(sid) in docs
      ensures found.Some? ==> found.value == docs[SessionKey(sid)]
    {
      if SessionKey(sid) in docs then Some(docs[SessionKey(sid)]) else None
    }

    /** `findOneAndUpdate({ sessionId }, flags, { upsert: true, new: true })`. */
    method Upsert(sid: string, p: Prefs)
      requires Valid()
      modifies this
      ensures Valid()
      ensures docs == old(docs)[SessionKey(sid) := p]
    {
      docs := docs[SessionKey(sid) := p];
    }
  }
}

module CookieFlow {
  import opened Wrappers
  import opened Strings
  import opened Json
  import opened Config
  import opened Messages
  import opened CookieModel

  /** The number of random bytes in a generated session id. */
  const SessionIdBytes: nat := 16

  /** The cookie's lifetime: one year in milliseconds. */
  const CookieMaxAgeMs: nat := 365 * 24 * 60 * 60 * 1000

  /** The `Set-Cookie` the routes send: http-only, `sameSite: 'lax'`, secure in production. */
  datatype SetCookie = SetCookie(value: string, secure: bool, maxAgeMs: nat)

  /** The session id a request is served under, and the cookie set when it was generated. */
  datatype Session = Session(sid: string, cookie: Option<SetCookie>)

  /**
   * `getSessionId`: the `sessionId` cookie when it is non-empty; otherwise 16 random bytes
   * in hexadecimal, which are also set as the cookie.
   */
  function GetSessionId(cookie: Option<string>, env: Env, bytes: seq<Byte>): (r: Session)
    requires |bytes| == SessionIdBytes
    ensures cookie.Some? && cookie.value != "" ==> r == Session(cookie.value, None)
    ensures cookie.None? || cookie.value == "" ==>
              && |r.sid| == 32 && IsLowerHex(r.sid) && HexDecode(r.sid) == bytes
              && r.cookie == Some(SetCookie(r.sid, Var(env, "NODE_ENV") == Some("production"), CookieMaxAgeMs))
  {
    if cookie.Some? && cookie.value != "" then Session(cookie.value, None)
    else
      HexRoundTrip(bytes);
      var sid := HexEncode(bytes);
      Session(sid, Some(SetCookie(sid, Var(env, "NODE_ENV") == Some("production"), CookieMaxAgeMs)))
  }

  /** `v === true || v === 'true'`. */
  predicate IsTrue(v: Value) {
    v == Bool(true) || v == Str("true")
  }

  /**
   * The flags `POST /cookies` stores: each exactly when its value is `true` or `'true'`,
   * except that an absent `essential` counts as on.
   */
  function Coerce(body: Body): (p: Prefs)
    ensures p.accepted <==> IsTrue(Get(body, "accepted"))
    ensures p.essential <==> IsTrue(Get(body, "essential")) || Get(body, "essential").Undefined?
    ensures p.analytics <==> IsTrue(Get(body, "analytics"))
    ensures p.marketing <==> IsTrue(Get(body, "marketing"))
    ensures p.preferences <==> IsTrue(Get(body, "preferences"))
  {
    var essential := Get(body, "essential");
    Prefs(IsTrue(Get(body, "accepted")), IsTrue(essential) || essential.Undefined?,
          IsTrue(Get(body, "analytics")), IsTrue(Get(body, "marketing")), IsTrue(Get(body, "preferences")))
  }

  /** An answer of the cookie routes: the flags, and whether the save message accompanies them. */
  datatype Reply = Reply(prefs: Prefs, message: Option<Message>)

  /** `GET /cookies`: the flags stored for the session, or the schema's defaults without a record. */
  function Lookup(docs: Sessions, sid: string): (r: Reply)
    ensures r.message.None?
    ensures SessionKey(sid) !in docs ==> r.prefs == SchemaDefaults
    ensures SessionKey(sid) in docs ==> r.prefs == docs[SessionKey(sid)]
  {
    Reply(if SessionKey(sid) in docs then docs[SessionKey(sid)] else Prefs(false, true, false, false, false), None)
  }

  datatype SaveStep = SaveStep(docs: Sessions, reply: Reply)

  /** `POST /cookies`: the coerced flags upserted under the session id and sent back. */
  function Save(docs: Sessions, sid: string, body: Body): (r: SaveStep)
    ensures r.docs == docs[SessionKey(sid) := Coerce(body)]
    ensures r.reply == Reply(Coerce(body), Some(CookiesSaved))
  {
    var p := Coerce(body);
    SaveStep(docs[SessionKey(sid) := p], Reply(p, Some(CookiesSaved)))
  }
}

module CookieProperties {
  import opened Wrappers
  import opened Strings
  import opened Json
  import opened Config
  import opened Messages
  import opened CookieModel
  import opened CookieFlow

  /** A non-empty cookie is reused and no cookie is set; a fresh id is 32 hexadecimal digits. */
  lemma SessionIdReusedOrFresh(cookie: Option<string>, env: Env, bytes: seq<Byte>)
    requires |bytes| == SessionIdBytes
    ensures var r := GetSessionId(cookie, env, bytes);
            && (r.cookie.None? <==> cookie.Some? && cookie.value != "")
            && (r.cookie.Some? ==> r.cookie.value.value == r.sid && |r.sid| == 32)
  {
  }

  /** A later `GET` under the same session returns exactly the flags just saved. */
  lemma GetAfterSave(docs: Sessions, sid: string, body: Body)
    ensures Lookup(Save(docs, sid, body).docs, sid).prefs == Coerce(body)
    ensures Lookup(Save(docs, sid, body).docs, sid).prefs == Save(docs, sid, body).reply.prefs
  {
  }

  /** Saving under one session leaves what every other session reads unchanged. */
  lemma SaveLeavesOtherSessions(docs: Sessions, sid: string, other: string, body: Body)
    requires SessionKey(other) != SessionKey(sid)
    ensures Lookup(Save(docs, sid, body).docs, other) == Lookup(docs, other)
  {
  }

  /** Saving twice under a session keeps one record for it, holding the second save's flags. */
  lemma SaveTwiceKeepsOneRecord(docs: Sessions, sid: string, body1: Body, body2: Body)
    ensures var twice := Save(Save(docs, sid, body1).docs, sid, body2).docs;
            && twice.Keys == docs.Keys + {SessionKey(sid)}
            && twice == Save(docs, sid, body2).docs
  {
  }

  /** An empty body stores the schema's defaults; an explicit `essential: false` switches essential cookies off. */
  lemma EmptyBodyStoresDefaults(body: Body)
    ensures body == map[] ==> Coerce(body) == SchemaDefaults
    ensures Get(body, "essential") == Bool(false) ==> !Coerce(body).essential
    ensures Get(body, "accepted") == Str("yes") ==> !Coerce(body).accepted
  {
  }

  /** A session never saved reads as the schema's defaults. */
  lemma UnsavedSessionReadsDefaults(sid: string)
    ensures Lookup(map[], sid).prefs == SchemaDefaults
  {
  }
}

/** The cookie routes on the collection in place. */
module CookieRoutes {
  import opened Wrappers
  import opened Strings
  import opened Json
  import opened Config
  import opened Messages
  import opened CookieModel
  import opened CookieFlow

  /** `GET /cookies`. */
  method HandleGet(store: SessionStore, cookie: Option<string>, env: Env, bytes: seq<Byte>)
    returns (reply: Reply, setCookie: Option<SetCookie>)
    requires |bytes| == SessionIdBytes
    ensures var session := GetSessionId(cookie, env, bytes);
            setCookie == session.cookie && reply == Lookup(store.docs, session.sid)
  {
    var session := GetSessionId(cookie, env, bytes);
    var found := store.Find(session.sid);
    reply := Reply(found.GetOr(SchemaDefaults), None);
    setCookie := session.cookie;
  }

  /** `POST /cookies`. */
  method HandlePost(store: SessionStore, cookie: Option<string>, env: Env, bytes: seq<Byte>, body: Body)
    returns (reply: Reply, setCookie: Option<SetCookie>)
    requires store.Valid() && |bytes| == SessionIdBytes
    modifies store
    ensures store.Valid()
    ensures var session := GetSessionId(cookie, env, bytes);
            var r := Save(old(store.docs), session.sid, body);
            setCookie == session.cookie && store.docs == r.docs && reply == r.reply
  {
    var session := GetSessionId(cookie, env, bytes);
    var p := Coerce(body);
    store.Upsert(session.sid, p);
    reply := Reply(p, Some(CookiesSaved));
    setCookie := session.cookie;
  }
}
