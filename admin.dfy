/**
 * The admin routes of routes/admin.js that carry logic: the listings of profiles and audit
 * rows with the placeholder for a deleted user, and the topic lifecycle (create, status
 * update, delete) on the collection `Repository`. `requireAdmin` runs before each of them
 * (module AuthGates).
 */
module AdminFlow {
  import opened Wrappers
  import opened Strings
  import opened Json
  import opened Ids
  import opened Messages
  import opened UserModel
  import opened TopicModel
  import opened ContributionModel

  // ---------------------------------------------------------------------------
  // Listings

  /**
   * The `user` of a listed row after `populate('user', 'email')` and the map that follows:
   * the owner's id and e-mail, or `{ email: 'User deleted' }` when no user has that id.
   */
  datatype Owner = Populated(id: string, email: string) | Placeholder

  /** The e-mail a listed row shows for its owner. */
  function OwnerEmail(o: Owner): string {
    match o
    case Populated(_, email) => email
    case Placeholder => "User deleted"
  }

  function Populate(users: Users, user: string): (o: Owner)
    ensures o.Placeholder? <==> user !in users
    ensures o.Populated? ==> o == Populated(user, users[user].email)
  {
    if user in users then Populated(user, users[user].email) else Placeholder
  }

  datatype ListedProfile = ListedProfile(profile: Profile, owner: Owner)
  datatype ListedDetail = ListedDetail(detail: Detail, owner: Owner)

  /** `GET /contributions`, over the profiles in the order the store returns them. */
  function ListContributions(users: Users, rows: seq<Profile>): (r: seq<ListedProfile>)
    ensures |r| == |rows|
    ensures forall i :: 0 <= i < |rows| ==> r[i].profile == rows[i]
    ensures forall i :: 0 <= i < |rows| ==> r[i].owner == Populate(users, rows[i].user)
  {
    seq(|rows|, i requires 0 <= i < |rows| => ListedProfile(rows[i], Populate(users, rows[i].user)))
  }

  /** `GET /contribution-details`, over the audit rows in the order the store returns them. */
  function ListDetails(users: Users, rows: seq<Detail>): (r: seq<ListedDetail>)
    ensures |r| == |rows|
    ensures forall i :: 0 <= i < |rows| ==> r[i].detail == rows[i]
    ensures forall i :: 0 <= i < |rows| ==> r[i].owner == Populate(users, rows[i].user)
  {
    seq(|rows|, i requires 0 <= i < |rows| => ListedDetail(rows[i], Populate(users, rows[i].user)))
  }

  // ---------------------------------------------------------------------------
  // The topic lifecycle

  /** An answer of the topic routes. */
  datatype TopicReply =
    | Answer(status: nat, message: Message)
    | Saved(status: nat, topic: Topic, message: Message)

  datatype TopicStep = TopicStep(topics: Topics, reply: TopicReply)

  /**
   * `POST /repositories`: 400 unless both fields are truthy; `.trim()` on a value that is not
   * a string throws (500); the schema's `required` refuses a value that trims to '' (500);
   * otherwise the new topic, under the fresh id `id`, is stored and sent back with 201.
   */
  function CreateTopic(topics: Topics, body: Body, id: string, now: nat): (r: TopicStep)
    requires IsObjectId(id) && id !in topics
    ensures r.reply.status in {201, 400, 500}
    ensures r.reply.status == 400 <==> !Truthy(Get(body, "topicName")) || !Truthy(Get(body, "category"))
    ensures r.reply.status != 201 ==> r.topics == topics && r.reply.Answer?
    ensures r.reply.status == 201 ==>
              && Get(body, "topicName").Str? && Get(body, "category").Str?
              && r.reply.Saved? && r.reply.message == TopicSaved
              && Some(r.reply.topic) == NewTopic(id, Get(body, "topicName").s, Get(body, "category").s, now)
              && r.topics == topics[id := r.reply.topic]
  {
    var name := Get(body, "topicName");
    var category := Get(body, "category");
    if !Truthy(name) || !Truthy(category) then TopicStep(topics, Answer(400, TopicFieldsRequired))
    else if !name.Str? || !category.Str? then TopicStep(topics, Answer(500, SaveTopicFailed))
    else
      match NewTopic(id, Trim(name.s), Trim(category.s), now)
      case None => TopicStep(topics, Answer(500, SaveTopicFailed))
      case Some(t) =>
        TrimIdempotent(name.s);
        TrimIdempotent(category.s);
        TopicStep(topics[id := t], Saved(201, t, TopicSaved))
  }

  /** The statuses `PATCH /repositories/:id/status` accepts: exactly the strings of the schema's enum. */
  function RequestedStatus(v: Value): (r: Option<Status>)
    ensures r.Some? ==> Declared(r.value)
    ensures r == Some(Complete) <==> v == Str("Complete")
    ensures r == Some(Incomplete) <==> v == Str("Incomplete")
  {
    if v == Str("Complete") then Some(Complete)
    else if v == Str("Incomplete") then Some(Incomplete)
    else None
  }

  /**
   * `PATCH /repositories/:id/status`: 400 for any status but the two declared ones; a path
   * id that is not an ObjectId throws a CastError (500); 404 for an unknown id; otherwise
   * the topic's status is set (and `updatedAt`, by the timestamps plugin).
   */
  function UpdateStatus(topics: Topics, idParam: string, body: Body, now: nat): (r: TopicStep)
    ensures r.reply.status in {200, 400, 404, 500}
    ensures r.reply.status == 400 <==> RequestedStatus(Get(body, "status")).None?
    ensures r.reply.status != 200 ==> r.topics == topics && r.reply.Answer?
    ensures r.reply.status == 404 ==> CastObjectId(idParam).Some? && CastObjectId(idParam).value !in topics
    ensures r.reply.status == 200 ==> CastObjectId(idParam).Some? && r.reply.Saved?
    ensures r.reply.status == 200 ==>
              var id := CastObjectId(idParam).value;
              && id in topics
              && r.reply.message == StatusUpdated
              && r.reply.topic == topics[id].(status := RequestedStatus(Get(body, "status")).value, updatedAt := now)
              && r.topics == topics[id := r.reply.topic]
  {
    match RequestedStatus(Get(body, "status"))
    case None => TopicStep(topics, Answer(400, InvalidStatus))
    case Some(status) =>
      match CastObjectId(idParam)
      case None => TopicStep(topics, Answer(500, UpdateStatusFailed))
      case Some(id) =>
        if id !in topics then TopicStep(topics, Answer(404, RepositoryNotFound))
        else
          var t := topics[id].(status := status, updatedAt := now);
          TopicStep(topics[id := t], Saved(200, t, StatusUpdated))
  }

  /**
   * `DELETE /repositories/:id`: a CastError for a path id that is not an ObjectId (500),
   * 404 for an unknown id, otherwise that topic is removed.
   */
  function DeleteTopic(topics: Topics, idParam: string): (r: TopicStep)
    ensures r.reply.Answer?
    ensures r.reply.status in {200, 404, 500}
    ensures r.reply.status == 500 <==> CastObjectId(idParam).None?
    ensures r.reply.status == 404 <==> CastObjectId(idParam).Some? && CastObjectId(idParam).value !in topics
    ensures r.reply.status == 200 ==> r.topics == topics - {CastObjectId(idParam).value} && r.reply.message == TopicDeleted
    ensures r.reply.status != 200 ==> r.topics == topics
  {
    match CastObjectId(idParam)
    case None => TopicStep(topics, Answer(500, DeleteTopicFailed))
    case Some(id) =>
      if id !in topics then TopicStep(topics, Answer(404, RepositoryNotFound))
      else TopicStep(topics - {id}, Answer(200, TopicDeleted))
  }
}

/** What the admin routes guarantee, stated over the functions of module AdminFlow. */
module AdminProperties {
  import opened Wrappers
  import opened Strings
  import opened Json
  import opened Ids
  import opened Messages
  import opened Tokens
  import opened Config
  import opened UserModel
  import opened TopicModel
  import opened ContributionModel
  import opened AuthFlow
  import opened AuthGates
  import opened AdminFlow

  /** Every row keeps its content; only an owner who no longer exists is replaced, by the placeholder. */
  lemma PlaceholderOnlyForMissingOwners(users: Users, rows: seq<Profile>, i: nat)
    requires i < |rows|
    ensures var r := ListContributions(users, rows)[i];
            && r.profile == rows[i]
            && (OwnerEmail(r.owner) == "User deleted" <== rows[i].user !in users)
            && (rows[i].user in users ==> r.owner.Populated? && OwnerEmail(r.owner) == users[rows[i].user].email)
  {
  }

  /**
   * Deleting an account leaves its profile and audit rows in place; the listings then show
   * them with the placeholder owner, and every other row as before.
   */
  lemma DeletedAccountListedAsPlaceholder(users: Users, header: Option<string>, env: Env, verdict: JwtVerdict,
                                          profiles: seq<Profile>, details: seq<Detail>)
    ensures var r := DeleteAccount(users, header, env, verdict);
            r.reply.status == 200 ==>
              var gone := RequireAuth(header, env, verdict, users).userId;
              && (forall i :: 0 <= i < |profiles| && profiles[i].user == gone ==>
                    ListContributions(r.users, profiles)[i] == ListedProfile(profiles[i], Placeholder))
              && (forall i :: 0 <= i < |profiles| && profiles[i].user != gone ==>
                    ListContributions(r.users, profiles)[i] == ListContributions(users, profiles)[i])
              && (forall i :: 0 <= i < |details| && details[i].user == gone ==>
                    ListDetails(r.users, details)[i] == ListedDetail(details[i], Placeholder))
              && (forall i :: 0 <= i < |details| && details[i].user != gone ==>
                    ListDetails(r.users, details)[i] == ListDetails(users, details)[i])
  {
  }

  /** Creating a topic keeps the schema's guarantees on every stored topic. */
  lemma CreateTopicKeepsInv(topics: Topics, body: Body, id: string, now: nat)
    requires TopicsInv(topics) && IsObjectId(id) && id !in topics
    ensures TopicsInv(CreateTopic(topics, body, id, now).topics)
  {
  }

  /** A created topic enters the pool: it is `Incomplete`, so a later submission may be allotted it. */
  lemma CreatedTopicJoinsPool(topics: Topics, body: Body, id: string, now: nat)
    requires IsObjectId(id) && id !in topics
    ensures var r := CreateTopic(topics, body, id, now);
            r.reply.status == 201 ==> Pool(r.topics) == Pool(topics) + {id}
  {
    var r := CreateTopic(topics, body, id, now);
    if r.reply.status == 201 {
      assert forall x :: x in Pool(r.topics) <==> x in Pool(topics) + {id};
    }
  }

  /** The status route never writes `Allotted`: a request for it is refused with 400. */
  lemma AllottedRequestRefused(topics: Topics, idParam: string, body: Body, now: nat)
    requires Get(body, "status") == Str("Allotted")
    ensures UpdateStatus(topics, idParam, body, now) == TopicStep(topics, TopicReply.Answer(400, InvalidStatus))
  {
  }

  /** Every status the route writes is one the schema declares. */
  lemma UpdateStatusWritesDeclared(topics: Topics, idParam: string, body: Body, now: nat)
    ensures var r := UpdateStatus(topics, idParam, body, now);
            r.reply.Saved? ==> Declared(r.reply.topic.status)
  {
  }

  /**
   * An admin can reset an allotted topic to `Incomplete`, which puts it back into the pool
   * the allocation draws from.
   */
  lemma ResetReturnsAllottedToPool(topics: Topics, id: string, body: Body, now: nat)
    requires IsObjectId(id) && id in topics && topics[id].status == Allotted
    requires Get(body, "status") == Str("Incomplete")
    ensures var r := UpdateStatus(topics, id, body, now);
            && r.reply.status == 200
            && r.topics[id].status == Incomplete
            && Pool(r.topics) == Pool(topics) + {id}
  {
    var r := UpdateStatus(topics, id, body, now);
    assert forall x :: x in Pool(r.topics) <==> x in Pool(topics) + {id};
  }

  /** A status update changes one topic's status and timestamp and nothing else. */
  lemma UpdateStatusOnlyThatTopic(topics: Topics, idParam: string, body: Body, now: nat)
    ensures var r := UpdateStatus(topics, idParam, body, now);
            && r.topics.Keys == topics.Keys
            && (forall id :: id in topics && r.topics[id] != topics[id] ==>
                  r.reply.Saved? && id == CastObjectId(idParam).value
                  && r.topics[id].(status := topics[id].status, updatedAt := topics[id].updatedAt) == topics[id])
  {
  }

  /** A status update keeps the schema's guarantees on every stored topic. */
  lemma UpdateStatusKeepsInv(topics: Topics, idParam: string, body: Body, now: nat)
    requires TopicsInv(topics)
    ensures TopicsInv(UpdateStatus(topics, idParam, body, now).topics)
  {
  }

  /** Deleting keeps the other topics as they were and the invariant. */
  lemma DeleteTopicKeepsOthers(topics: Topics, idParam: string)
    requires TopicsInv(topics)
    ensures var r := DeleteTopic(topics, idParam);
            && TopicsInv(r.topics)
            && (forall id :: id in r.topics ==> id in topics && r.topics[id] == topics[id])
            && |r.topics| == |topics| - (if r.reply.status == 200 then 1 else 0)
  {
    var r := DeleteTopic(topics, idParam);
    if r.reply.status == 200 {
      RemoveOne(topics, CastObjectId(idParam).value);
    }
  }

  /** Removing a stored key leaves one entry fewer. */
  lemma RemoveOne(topics: Topics, id: string)
    requires id in topics
    ensures |topics - {id}| == |topics| - 1
  {
    assert (topics - {id}).Keys == topics.Keys - {id};
  }
}

/**
 * The topic handlers of routes/admin.js on the collection in place, each proved to do what
 * the corresponding function of module AdminFlow prescribes.
 */
module AdminRoutes {
  import opened Wrappers
  import opened Strings
  import opened Json
  import opened Ids
  import opened Messages
  import opened TopicModel
  import opened AdminFlow
  import opened AdminProperties

  /** `POST /repositories`; `id` is the id the new document gets. */
  method HandleCreateTopic(topics: TopicCollection, body: Body, id: string, now: nat) returns (reply: TopicReply)
    requires topics.Valid() && IsObjectId(id) && id !in topics.docs
    modifies topics
    ensures topics.Valid()
    ensures var r := CreateTopic(old(topics.docs), body, id, now);
            topics.docs == r.topics && reply == r.reply
  {
    CreateTopicKeepsInv(topics.docs, body, id, now);
    var name := Get(body, "topicName");
    var category := Get(body, "category");
    if !Truthy(name) || !Truthy(category) {
      return Answer(400, TopicFieldsRequired);
    }
    if !name.Str? || !category.Str? {
      return Answer(500, SaveTopicFailed);
    }
    var t := NewTopic(id, Trim(name.s), Trim(category.s), now);
    if t.None? {
      return Answer(500, SaveTopicFailed);
    }
    topics.Create(t.value);
    reply := Saved(201, t.value, TopicSaved);
  }

  /** `PATCH /repositories/:id/status`. */
  method HandleUpdateStatus(topics: TopicCollection, idParam: string, body: Body, now: nat) returns (reply: TopicReply)
    requires topics.Valid()
    modifies topics
    ensures topics.Valid()
    ensures var r := UpdateStatus(old(topics.docs), idParam, body, now);
            topics.docs == r.topics && reply == r.reply
  {
    var status := RequestedStatus(Get(body, "status"));
    if status.None? {
      return Answer(400, InvalidStatus);
    }
    var id := CastObjectId(idParam);
    if id.None? {
      return Answer(500, UpdateStatusFailed);
    }
    if id.value !in topics.docs {
      return Answer(404, RepositoryNotFound);
    }
    topics.SetStatus(id.value, status.value, now);
    reply := Saved(200, topics.docs[id.value], StatusUpdated);
  }

  /** `DELETE /repositories/:id`. */
  method HandleDeleteTopic(topics: TopicCollection, idParam: string) returns (reply: TopicReply)
    requires topics.Valid()
    modifies topics
    ensures topics.Valid()
    ensures var r := DeleteTopic(old(topics.docs), idParam);
            topics.docs == r.topics && reply == r.reply
  {
    var id := CastObjectId(idParam);
    if id.None? {
      return Answer(500, DeleteTopicFailed);
    }
    if id.value !in topics.docs {
      return Answer(404, RepositoryNotFound);
    }
    topics.Delete(id.value);
    reply := Answer(200, TopicDeleted);
  }
}
