/**
 * The handlers of routes/contributions.js, performing each request's reads and writes on
 * the three collections in the source's order. Each is proved to leave the collections, and
 * to answer, exactly as the corresponding function of module ContributionFlow prescribes.
 */
module ContributionRoutes {
  import opened Wrappers
  import opened Strings
  import opened Json
  import opened Ids
  import opened Messages
  import opened TopicModel
  import opened ContributionModel
  import opened ContributionFlow

  /** The loop over `requiredFields`: the position of the first missing one, or their count. */
  method FindMissing(body: Body) returns (k: nat)
    ensures k <= |RequiredFields|
    ensures forall j :: 0 <= j < k ==> !Missing(body, RequiredFields[j])
    ensures k < |RequiredFields| ==> Missing(body, RequiredFields[k])
    ensures k == FirstMissing(body, RequiredFields)
  {
    k := 0;
    while k < |RequiredFields| && !Missing(body, RequiredFields[k])
      invariant k <= |RequiredFields|
      invariant forall j :: 0 <= j < k ==> !Missing(body, RequiredFields[j])
    {
      k := k + 1;
    }
    FirstMissingUnique(body, RequiredFields, k);
  }

  /** The loop that builds `updateData` from the allow-listed fields that are neither undefined nor null. */
  method CollectUpdates(body: Body) returns (u: map<Field, Value>)
    ensures forall f :: f in u <==> f in AllowedFields && Present(body, f)
    ensures forall f :: f in u ==> u[f] == Get(body, Key(f))
    ensures u == Updates(body)
  {
    u := map[];
    var i := 0;
    while i < |AllowedFields|
      invariant i <= |AllowedFields|
      invariant forall f :: f in u <==> f in AllowedFields[..i] && Present(body, f)
      invariant forall f :: f in u ==> u[f] == Get(body, Key(f))
    {
      var f := AllowedFields[i];
      if Present(body, f) {
        u := u[f := Get(body, Key(f))];
      }
      assert AllowedFields[..i + 1] == AllowedFields[..i] + [f];
      i := i + 1;
    }
    assert AllowedFields[..i] == AllowedFields;
  }

  /** `GET /me`. */
  method HandleMe(profiles: ProfileCollection, user: string) returns (reply: Reply)
    ensures reply == Me(profiles.docs, user)
  {
    var found := profiles.FindByUser(user);
    reply := Fetched(200, found);
  }

  /**
   * The allocation block: `$match` and `$sample` (skipped when the aggregation fails), then
   * the update to `Allotted` (skipped when it fails). Returns the topic reported and what
   * `$sample` returned.
   */
  method AllocateTopic(topics: TopicCollection, cats: seq<Value>, now: nat, fault: TopicFault)
    returns (selected: Option<Topic>, pick: Option<string>)
    requires topics.Valid()
    modifies topics
    ensures topics.Valid()
    ensures fault.SampleFails? || ValidPick(old(topics.docs), cats, pick)
    ensures var a := Allocate(old(topics.docs), cats, pick, now, fault);
            topics.docs == a.topics && selected == a.selected
  {
    if fault.SampleFails? {
      return None, None;
    }
    pick := topics.Sample(cats);
    if pick.None? {
      return None, None;
    }
    var t := topics.docs[pick.value];
    selected := Some(t);
    if fault.ClaimFails? {
      return;
    }
    topics.SetStatus(pick.value, Allotted, now);
  }

  /** `ContributionDetail.create(...)` inside its `try`: nothing is appended when it throws. */
  method RecordDetail(log: DetailLog, id: string, user: string, body: Body, source: Source,
                      selected: Option<Topic>, now: nat, fails: bool)
    requires log.Valid() && Validate(body).None?
    requires selected.Some? ==> IsObjectId(selected.value.id)
    modifies log
    ensures log.Valid()
    ensures var row := AuditRow(id, user, body, source, selected, now);
            log.rows == if fails || row.None? then old(log.rows) else old(log.rows) + [row.value]
  {
    var row := AuditRow(id, user, body, source, selected, now);
    if fails || row.None? {
      return;
    }
    log.Append(row.value);
  }

  /** Some answer of `$sample` is always possible: a claimable topic, or none when there is none. */
  lemma PickExists(m: Topics, cats: seq<Value>)
    ensures exists pick :: ValidPick(m, cats, pick)
  {
    if exists id :: id in m && Claimable(m[id], cats) {
      var id :| id in m && Claimable(m[id], cats);
      assert ValidPick(m, cats, Some(id));
    } else {
      assert ValidPick(m, cats, None);
    }
  }

  /**
   * The allocation block and the audit write both branches of `POST /` run. `pm` is the
   * profiles collection at that point, which neither step reads.
   */
  method RecordHandler(log: DetailLog, topics: TopicCollection, ghost pm: Profiles, user: string, body: Body,
                       now: nat, detailId: string, faults: Faults, source: Source)
    returns (selected: Option<Topic>, pick: Option<string>)
    requires log.Valid() && topics.Valid() && Validate(body).None?
    modifies log, topics
    ensures log.Valid() && topics.Valid()
    ensures var s := Store(pm, old(log.rows), old(topics.docs));
            && PickFor(s, body, pick, faults)
            && RecordSubmission(s, user, body, now, detailId, pick, faults, source) == Intake(log.rows, topics.docs, selected)
  {
    ghost var s := Store(pm, log.rows, topics.docs);
    selected, pick := AllocateTopic(topics, Categories(body), now, faults.topic);
    SelectedIsStored(s.topics, Categories(body), pick, now, faults.topic);
    RecordDetail(log, detailId, user, body, source, selected, now, faults.auditFails);
  }

  /** `POST /` for a user who already has a profile `existing`. */
  method HandleRepeat(profiles: ProfileCollection, log: DetailLog, topics: TopicCollection, user: string,
                      body: Body, now: nat, detailId: string, faults: Faults, existing: Profile)
    returns (reply: Reply, mail: Option<ConfirmationMail>, pick: Option<string>)
    requires log.Valid() && topics.Valid() && Validate(body).None?
    requires user in profiles.docs && profiles.docs[user] == existing
    modifies log, topics
    ensures log.Valid() && topics.Valid()
    ensures var s := Store(profiles.docs, old(log.rows), old(topics.docs));
            && PickFor(s, body, pick, faults)
            && Repeat(s, user, body, now, detailId, pick, faults) == Step(Store(profiles.docs, log.rows, topics.docs), reply, mail)
  {
    var selected;
    selected, pick := RecordHandler(log, topics, profiles.docs, user, body, now, detailId, faults, FormUpdateIgnored);
    reply := Saved(200, existing, ProfileAlreadyRecorded);
    mail := Some(Confirmation(body, ProfileAlreadyRecorded, selected));
  }

  /** `POST /` for a user without a profile. */
  method HandleFirst(profiles: ProfileCollection, log: DetailLog, topics: TopicCollection, user: string,
                     body: Body, now: nat, profileId: string, detailId: string, faults: Faults)
    returns (reply: Reply, mail: Option<ConfirmationMail>, pick: Option<string>)
    requires profiles.Valid() && log.Valid() && topics.Valid() && Validate(body).None?
    requires user !in profiles.docs
    modifies profiles, log, topics
    ensures profiles.Valid() && log.Valid() && topics.Valid()
    ensures var s := Store(old(profiles.docs), old(log.rows), old(topics.docs));
            && PickFor(s, body, pick, faults)
            && First(s, user, body, now, profileId, detailId, pick, faults) == Step(Store(profiles.docs, log.rows, topics.docs), reply, mail)
  {
    var form := SubmittedForm(body);
    if form.None? {
      PickExists(topics.docs, Categories(body));
      pick :| ValidPick(topics.docs, Categories(body), pick);
      return Answer(500, SaveContributionFailed), None, pick;
    }
    ghost var s := Store(profiles.docs, log.rows, topics.docs);
    var p := Profile(profileId, user, form.value, now, now);
    profiles.Create(p);
    var selected;
    selected, pick := RecordHandler(log, topics, s.profiles, user, body, now, detailId, faults, FormCreate);
    reply := Saved(201, p, ProfileRecorded);
    mail := Some(Confirmation(body, ProfileRecorded, selected));
    FirstOfCastForm(s, user, body, now, profileId, detailId, pick, faults);
  }

  /**
   * `POST /`. The topic `$sample` returns is chosen inside the handler, so the result is
   * the one Submit prescribes for some answer `$sample` could give.
   */
  method HandleSubmit(profiles: ProfileCollection, log: DetailLog, topics: TopicCollection, user: string,
                      body: Body, now: nat, profileId: string, detailId: string, faults: Faults)
    returns (reply: Reply, mail: Option<ConfirmationMail>)
    requires profiles.Valid() && log.Valid() && topics.Valid()
    modifies profiles, log, topics
    ensures profiles.Valid() && log.Valid() && topics.Valid()
    ensures var s := Store(old(profiles.docs), old(log.rows), old(topics.docs));
            exists pick :: PickFor(s, body, pick, faults)
              && Submit(s, user, body, now, profileId, detailId, pick, faults)
                 == Step(Store(profiles.docs, log.rows, topics.docs), reply, mail)
  {
    ghost var s := Store(profiles.docs, log.rows, topics.docs);
    var k := FindMissing(body);
    if k < |RequiredFields| {
      reply, mail := Answer(400, MissingField(Key(RequiredFields[k]))), None;
      assert PickFor(s, body, None, faults) && Submit(s, user, body, now, profileId, detailId, None, faults) == Step(s, reply, mail);
      return;
    }
    if !EnoughCategories(Get(body, Key(ResearchCategories))) {
      reply, mail := Answer(400, TooFewCategories), None;
      assert PickFor(s, body, None, faults) && Submit(s, user, body, now, profileId, detailId, None, faults) == Step(s, reply, mail);
      return;
    }
    assert Validate(body).None?;
    var existing := profiles.FindByUser(user);
    var pick;
    if existing.Some? {
      reply, mail, pick := HandleRepeat(profiles, log, topics, user, body, now, detailId, faults, existing.value);
    } else {
      reply, mail, pick := HandleFirst(profiles, log, topics, user, body, now, profileId, detailId, faults);
    }
    assert PickFor(s, body, pick, faults);
    assert Submit(s, user, body, now, profileId, detailId, pick, faults) == Step(Store(profiles.docs, log.rows, topics.docs), reply, mail);
  }

  /** `PATCH /me`. */
  method HandlePatch(profiles: ProfileCollection, user: string, body: Body, now: nat) returns (reply: Reply)
    requires profiles.Valid()
    modifies profiles
    ensures profiles.Valid()
    ensures var r := Patch(old(profiles.docs), user, body, now);
            profiles.docs == r.profiles && reply == r.reply
  {
    var existing := profiles.FindByUser(user);
    if existing.None? {
      return Answer(404, ProfileNotFound);
    }
    var u := CollectUpdates(body);
    if |u| == 0 {
      return Answer(400, NoFieldsToUpdate);
    }
    if ResearchCategories in u && !EnoughCategories(u[ResearchCategories]) {
      return Answer(400, TooFewCategories);
    }
    if !UpdateCasts(u) {
      return Answer(500, UpdateContributionFailed);
    }
    var p := existing.value.(form := Apply(existing.value.form, u), updatedAt := now);
    profiles.Replace(p);
    reply := Saved(200, p, ProfileUpdated);
  }
}
