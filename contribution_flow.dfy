/**
 * The contribution routes of routes/contributions.js (`GET /me`, `POST /`, `PATCH /me`),
 * as functions from the three collections they touch and a request to the new collections,
 * the answer, and the confirmation e-mail requested. `user` is the id `requireAuth` put in
 * `req.auth.userId`. The handlers in module ContributionRoutes perform these steps in place.
 */
module ContributionFlow {
  import opened Wrappers
  import opened Strings
  import opened Json
  import opened Ids
  import opened Messages
  import opened TopicModel
  import opened ContributionModel

  /** The fields `POST /` requires, in the order it checks them. */
  const RequiredFields: seq<Field> := [FirstName, LastName, Email, Phone, Gender, GayatriPariwarDuration,
                                       AkhandJyotiMember, GuruDiksha, MissionBooksRead, ResearchCategories,
                                       HoursPerWeek, Consent]

  /** The fields `PATCH /me` copies; `consent` is not among them. */
  const AllowedFields: seq<Field> := [FirstName, LastName, Email, Phone, Gender, GayatriPariwarDuration,
                                      AkhandJyotiMember, GuruDiksha, MissionBooksRead, ResearchCategories,
                                      HoursPerWeek]

  /** The least number of research categories a submission must choose. */
  const MinCategories: nat := 3

  /** `body[field] === undefined || body[field] === null || body[field] === ''`. */
  predicate Missing(body: Body, f: Field) {
    !Present(body, f) || Get(body, Key(f)) == Str("")
  }

  /**
   * The position of the first missing field of `fields`, or `|fields|` when none is missing:
   * every field before it is there.
   */
  function FirstMissing(body: Body, fields: seq<Field>): (k: nat)
    ensures k <= |fields|
    ensures forall j :: 0 <= j < k ==> !Missing(body, fields[j])
    ensures k < |fields| ==> Missing(body, fields[k])
  {
    if fields == [] then 0
    else if Missing(body, fields[0]) then 0
    else 1 + FirstMissing(body, fields[1..])
  }

  /** The first missing field is determined by the two facts FirstMissing promises. */
  lemma FirstMissingUnique(body: Body, fields: seq<Field>, k: nat)
    requires k <= |fields|
    requires forall j :: 0 <= j < k ==> !Missing(body, fields[j])
    requires k < |fields| ==> Missing(body, fields[k])
    ensures k == FirstMissing(body, fields)
  {
  }

  /** `Array.isArray(body.researchCategories) && body.researchCategories.length >= 3`. */
  predicate EnoughCategories(v: Value) {
    v.Arr? && |v.items| >= MinCategories
  }

  /**
   * The checks of `POST /` before any read: the first missing field named, in the listed
   * order, then the category count.
   */
  function Validate(body: Body): (r: Option<Message>)
    ensures r.None? ==> forall f :: f in RequiredFields ==> !Missing(body, f)
    ensures r.None? ==> EnoughCategories(Get(body, Key(ResearchCategories)))
    ensures (exists f :: f in RequiredFields && Missing(body, f)) ==>
              r == Some(MissingField(Key(RequiredFields[FirstMissing(body, RequiredFields)])))
    ensures (forall f :: f in RequiredFields ==> !Missing(body, f)) && !EnoughCategories(Get(body, Key(ResearchCategories))) ==>
              r == Some(TooFewCategories)
  {
    var k := FirstMissing(body, RequiredFields);
    if k < |RequiredFields| then Some(MissingField(Key(RequiredFields[k])))
    else if !EnoughCategories(Get(body, Key(ResearchCategories))) then Some(TooFewCategories)
    else None
  }

  /** The submitted category values, once the body has passed validation. */
  function Categories(body: Body): seq<Value>
    requires Validate(body).None?
  {
    Get(body, Key(ResearchCategories)).items
  }

  /** A body that passed validation has every form field present. */
  lemma ValidBodyPresent(body: Body)
    requires Validate(body).None?
    ensures forall f :: IsTextField(f) ==> Present(body, f)
    ensures Get(body, Key(ResearchCategories)).Arr?
  {
    forall f | IsTextField(f) ensures Present(body, f) {
      assert f in RequiredFields;
    }
  }

  /**
   * The values `create` stores from a body that passed validation: None when a cast or the
   * e-mail's `required` validator fails.
   */
  function SubmittedForm(body: Body): (r: Option<Form>)
    requires Validate(body).None?
    ensures r.Some? ==> FormOk(r.value)
    ensures r.Some? ==> forall f :: IsTextField(f) ==> SetText(f, Get(body, Key(f))) == Cast(r.value.text[f])
    ensures r.Some? ==> r.value.consent == Truthy(Get(body, Key(Consent)))
    ensures r.None? <==> (exists f :: IsTextField(f) && !SetText(f, Get(body, Key(f))).Cast?)
                         || SetText(Email, Get(body, Key(Email))).text == ""
                         || CastStrings(Categories(body)).None?
  {
    ValidBodyPresent(body);
    CastForm(body)
  }

  /** The three collections the contribution routes touch. */
  datatype Store = Store(profiles: Profiles, details: seq<Detail>, topics: Topics)

  ghost predicate Inv(s: Store) {
    ProfilesInv(s.profiles) && (forall i :: 0 <= i < |s.details| ==> FormOk(s.details[i].form)) && TopicsInv(s.topics)
  }

  /** A JSON answer of the contribution routes. */
  datatype Reply =
    | Answer(status: nat, message: Message)
    | Saved(status: nat, contribution: Profile, message: Message)
    | Fetched(status: nat, found: Option<Profile>)

  /** The arguments of a `sendContributionConfirmation(body.email, {...})` call. */
  datatype ConfirmationMail = ConfirmationMail(to: Value, firstName: Value, message: Message,
                                               topicName: Option<string>, topicCategory: Option<string>,
                                               topicCode: Option<string>)

  datatype Step = Step(store: Store, reply: Reply, mail: Option<ConfirmationMail>)

  /** The store failures the model lets the environment choose: in the allocation block, in the audit write. */
  datatype Faults = Faults(topic: TopicFault, auditFails: bool)

  /** What `$sample` may return for this request: a valid pick unless the aggregation fails. */
  predicate PickFor(s: Store, body: Body, pick: Option<string>, faults: Faults) {
    Validate(body).None? && !faults.topic.SampleFails? ==> ValidPick(s.topics, Categories(body), pick)
  }

  // ---------------------------------------------------------------------------
  // GET /me

  /** `GET /me`: the caller's profile, or `null`. */
  function Me(profiles: Profiles, user: string): (r: Reply)
    ensures r.Fetched? && r.status == 200
    ensures r.found.Some? <==> user in profiles
    ensures r.found.Some? ==> r.found.value == profiles[user]
  {
    Fetched(200, if user in profiles then Some(profiles[user]) else None)
  }

  // ---------------------------------------------------------------------------
  // POST /

  /** The `topicName`, `category` and short code of the topic a submission reports. */
  function TopicName(t: Option<Topic>): Option<string> {
    if t.Some? then Some(t.value.topicName) else None
  }

  function TopicCategory(t: Option<Topic>): Option<string> {
    if t.Some? then Some(t.value.category) else None
  }

  function TopicCodeOf(t: Option<Topic>): (r: Option<string>)
    requires t.Some? ==> IsObjectId(t.value.id)
    ensures r.Some? <==> t.Some?
    ensures r.Some? ==> r.value == TopicCode(t.value.id)
  {
    if t.Some? then Some(TopicCode(t.value.id)) else None
  }

  /**
   * The `ContributionDetail.create` of a submission: the form values cast as the schema
   * does, the source, and the selected topic's name and code (`null` without one). None
   * when the cast or the e-mail validator fails.
   */
  function AuditRow(id: string, user: string, body: Body, source: Source, selected: Option<Topic>, now: nat): (r: Option<Detail>)
    requires Validate(body).None?
    requires selected.Some? ==> IsObjectId(selected.value.id)
    ensures r.Some? ==> FormOk(r.value.form) && r.value.source == source && r.value.user == user
  {
    match SubmittedForm(body)
    case None => None
    case Some(form) => Some(NewDetail(id, user, form, Some(source), TopicName(selected), TopicCodeOf(selected), now))
  }

  /** The collections after the allocation block and the audit write, and the topic reported. */
  datatype Intake = Intake(details: seq<Detail>, topics: Topics, selected: Option<Topic>)

  /**
   * What both branches of `POST /` do after the profile step: allocate a topic, append the
   * audit row (a failure of either is caught and ignored).
   */
  function RecordSubmission(s: Store, user: string, body: Body, now: nat, detailId: string,
                            pick: Option<string>, faults: Faults, source: Source): (r: Intake)
    requires TopicsInv(s.topics) && Validate(body).None? && PickFor(s, body, pick, faults)
    ensures r.topics == Allocate(s.topics, Categories(body), pick, now, faults.topic).topics
    ensures r.selected == Allocate(s.topics, Categories(body), pick, now, faults.topic).selected
  {
    var a := Allocate(s.topics, Categories(body), pick, now, faults.topic);
    SelectedIsStored(s.topics, Categories(body), pick, now, faults.topic);
    var row := AuditRow(detailId, user, body, source, a.selected, now);
    Intake(AppendAudit(s.details, row, faults.auditFails), a.topics, a.selected)
  }

  /** The audit log after `ContributionDetail.create`: unchanged when there is no row or the write fails. */
  function AppendAudit(details: seq<Detail>, row: Option<Detail>, fails: bool): (r: seq<Detail>)
    ensures |r| == |details| + (if fails || row.None? then 0 else 1)
    ensures r[..|details|] == details
    ensures |r| > |details| ==> r[|details|] == row.value
  {
    if fails || row.None? then details else details + [row.value]
  }

  /** Appending an audit row of a well-formed form keeps every row's form well formed. */
  lemma AppendAuditKeepsForms(details: seq<Detail>, row: Option<Detail>, fails: bool)
    requires forall k :: 0 <= k < |details| ==> FormOk(details[k].form)
    requires row.Some? ==> FormOk(row.value.form)
    ensures var r := AppendAudit(details, row, fails);
            forall k :: 0 <= k < |r| ==> FormOk(r[k].form)
  {
    var r := AppendAudit(details, row, fails);
    forall k | 0 <= k < |r| ensures FormOk(r[k].form) {
      if k < |details| {
        assert r[k] == r[..|details|][k];
      }
    }
  }

  /** The confirmation e-mail a submission requests, with the topic it reports. */
  function Confirmation(body: Body, message: Message, selected: Option<Topic>): (m: ConfirmationMail)
    requires selected.Some? ==> IsObjectId(selected.value.id)
    ensures m.to == Get(body, Key(Email)) && m.message == message
  {
    ConfirmationMail(Get(body, Key(Email)), Get(body, Key(FirstName)), message,
                     TopicName(selected), TopicCategory(selected), TopicCodeOf(selected))
  }

  /**
   * `POST /` for a user who already has a profile: the profile is left as it is and sent
   * back with 200; the submission is only recorded as an audit row.
   */
  function Repeat(s: Store, user: string, body: Body, now: nat, detailId: string, pick: Option<string>, faults: Faults): (r: Step)
    requires TopicsInv(s.topics) && Validate(body).None? && PickFor(s, body, pick, faults)
    requires user in s.profiles
    ensures r.store.profiles == s.profiles
    ensures r.reply == Saved(200, s.profiles[user], ProfileAlreadyRecorded)
  {
    var i := RecordSubmission(s, user, body, now, detailId, pick, faults, FormUpdateIgnored);
    SelectedIsStored(s.topics, Categories(body), pick, now, faults.topic);
    Step(Store(s.profiles, i.details, i.topics), Saved(200, s.profiles[user], ProfileAlreadyRecorded),
         Some(Confirmation(body, ProfileAlreadyRecorded, i.selected)))
  }

  /**
   * `POST /` for a user without a profile: `Contribution.create` first (a failing cast or
   * validator throws, and the outer `catch` answers 500 with nothing written), then the
   * allocation and the audit row, then 201 with the new profile.
   */
  function First(s: Store, user: string, body: Body, now: nat, profileId: string, detailId: string,
                 pick: Option<string>, faults: Faults): (r: Step)
    requires TopicsInv(s.topics) && Validate(body).None? && PickFor(s, body, pick, faults)
    requires user !in s.profiles
    ensures r.reply.status in {201, 500}
    ensures r.reply.status == 500 <==> SubmittedForm(body).None?
    ensures r.reply.status == 500 ==> r == Step(s, Answer(500, SaveContributionFailed), None)
    ensures r.reply.status == 201 ==>
              && r.reply == Saved(201, Profile(profileId, user, SubmittedForm(body).value, now, now), ProfileRecorded)
              && r.store.profiles == s.profiles[user := r.reply.contribution]
              && r.mail.Some? && r.mail.value.message == ProfileRecorded && r.mail.value.to == Get(body, Key(Email))
  {
    match SubmittedForm(body)
    case None => Step(s, Answer(500, SaveContributionFailed), None)
    case Some(form) =>
      var p := Profile(profileId, user, form, now, now);
      var i := RecordSubmission(s, user, body, now, detailId, pick, faults, FormCreate);
      SelectedIsStored(s.topics, Categories(body), pick, now, faults.topic);
      Step(Store(s.profiles[user := p], i.details, i.topics), Saved(201, p, ProfileRecorded),
           Some(Confirmation(body, ProfileRecorded, i.selected)))
  }

  /** The first-submission step once the values have cast: `First` without its failure branch. */
  lemma FirstOfCastForm(s: Store, user: string, body: Body, now: nat, profileId: string, detailId: string,
                        pick: Option<string>, faults: Faults)
    requires TopicsInv(s.topics) && Validate(body).None? && PickFor(s, body, pick, faults)
    requires user !in s.profiles && SubmittedForm(body).Some?
    ensures (SelectedIsStored(s.topics, Categories(body), pick, now, faults.topic);
             var p := Profile(profileId, user, SubmittedForm(body).value, now, now);
             var i := RecordSubmission(s, user, body, now, detailId, pick, faults, FormCreate);
             First(s, user, body, now, profileId, detailId, pick, faults)
             == Step(Store(s.profiles[user := p], i.details, i.topics), Saved(201, p, ProfileRecorded),
                     Some(Confirmation(body, ProfileRecorded, i.selected))))
  {
  }

  /** `POST /`: validation, then the repeat or the first submission. */
  function Submit(s: Store, user: string, body: Body, now: nat, profileId: string, detailId: string,
                  pick: Option<string>, faults: Faults): (r: Step)
    requires TopicsInv(s.topics) && PickFor(s, body, pick, faults)
    ensures r.reply.status in {200, 201, 400, 500}
    ensures r.reply.status == 400 <==> Validate(body).Some?
    ensures r.reply.status in {400, 500} ==> r.store == s && r.mail.None?
    ensures r.reply.status == 400 ==> r.reply == Answer(400, Validate(body).value)
    ensures r.reply.status == 200 <==> Validate(body).None? && user in s.profiles
    ensures r.store.profiles.Keys <= s.profiles.Keys + {user}
  {
    match Validate(body)
    case Some(m) => Step(s, Answer(400, m), None)
    case None =>
      if user in s.profiles then Repeat(s, user, body, now, detailId, pick, faults)
      else First(s, user, body, now, profileId, detailId, pick, faults)
  }

  // ---------------------------------------------------------------------------
  // PATCH /me

  /** `updateData`: each allow-listed field of the body that is neither undefined nor null. */
  function Updates(body: Body): (u: map<Field, Value>)
    ensures forall f :: f in u <==> f in AllowedFields && Present(body, f)
    ensures forall f :: f in u ==> u[f] == Get(body, Key(f))
  {
    map f | f in AllowedFields && Present(body, f) :: Get(body, Key(f))
  }

  /**
   * Whether `findOneAndUpdate(..., { $set }, { runValidators: true })` accepts the update:
   * every String value casts, the e-mail does not set to '', every category entry casts.
   */
  predicate UpdateCasts(u: map<Field, Value>) {
    && (forall f :: f in u && IsTextField(f) ==> SetText(f, u[f]).Cast?)
    && (Email in u ==> SetText(Email, u[Email]).text != "")
    && (ResearchCategories in u ==> u[ResearchCategories].Arr? && CastStrings(u[ResearchCategories].items).Some?)
  }

  /** What the setters leave in a String path: trimmed text, and a normalised e-mail. */
  lemma SetTextShape(f: Field, v: Value)
    requires IsTextField(f) && SetText(f, v).Cast?
    ensures Trimmed(SetText(f, v).text)
    ensures f == Email ==> IsNormalEmail(SetText(f, v).text)
  {
  }

  /** The String paths after `$set`: each updated path takes its cast value, the others stay. */
  function UpdatedText(text: map<Field, string>, u: map<Field, Value>): (r: map<Field, string>)
    requires forall f :: f in text ==> IsTextField(f)
    requires forall f :: f in u && IsTextField(f) ==> SetText(f, u[f]).Cast?
    ensures forall f :: f in r <==> f in text
    ensures forall f :: f in text ==> r[f] == if f in u then SetText(f, u[f]).text else text[f]
  {
    map f | f in text :: if f in u then SetText(f, u[f]).text else text[f]
  }

  /** The setters keep the schema's guarantees on the updated String paths. */
  lemma UpdatedTextOk(form: Form, u: map<Field, Value>)
    requires FormOk(form) && UpdateCasts(u)
    ensures var text := UpdatedText(form.text, u);
            && (forall f :: f in text <==> IsTextField(f))
            && Email in text && text[Email] != "" && IsNormalEmail(text[Email])
            && (forall f :: f in text ==> Trimmed(text[f]))
  {
    var text := UpdatedText(form.text, u);
    forall f | f in text ensures Trimmed(text[f]) && (f == Email ==> IsNormalEmail(text[f])) {
      if f in u { SetTextShape(f, u[f]); }
    }
  }

  /** The form values after `$set`: the updated paths take their cast values, the others stay. */
  function Apply(form: Form, u: map<Field, Value>): (r: Form)
    requires FormOk(form) && UpdateCasts(u)
    ensures FormOk(r)
    ensures r.text == UpdatedText(form.text, u)
    ensures r.researchCategories == if ResearchCategories in u then CastStrings(u[ResearchCategories].items).value
                                    else form.researchCategories
    ensures r.consent == form.consent
  {
    UpdatedTextOk(form, u);
    Form(UpdatedText(form.text, u), UpdatedCategories(form.researchCategories, u), form.consent)
  }

  /** The `researchCategories` path after `$set`: the cast array when it was given. */
  function UpdatedCategories(cats: seq<Option<string>>, u: map<Field, Value>): seq<Option<string>>
    requires ResearchCategories in u ==> u[ResearchCategories].Arr? && CastStrings(u[ResearchCategories].items).Some?
  {
    if ResearchCategories in u then CastStrings(u[ResearchCategories].items).value else cats
  }

  datatype PatchStep = PatchStep(profiles: Profiles, reply: Reply)

  /** Replacing a user's profile by one with well-formed values keeps the collection's invariant. */
  lemma ReplaceKeepsInv(profiles: Profiles, p: Profile)
    requires ProfilesInv(profiles) && FormOk(p.form)
    ensures ProfilesInv(profiles[p.user := p])
  {
  }

  /**
   * `PATCH /me` once the caller's profile is known to exist and `updateData` is `u`: 400
   * when nothing is to be copied or the categories are too few, the update otherwise (500
   * when a cast or a validator fails).
   */
  function PatchWith(profiles: Profiles, user: string, u: map<Field, Value>, now: nat): (r: PatchStep)
    requires ProfilesInv(profiles) && user in profiles
    ensures r.reply.status in {200, 400, 500}
    ensures !r.reply.Saved? ==> r == PatchStep(profiles, r.reply)
    ensures r.reply.Saved? ==> r.reply.status == 200 && r.profiles == profiles[user := r.reply.contribution]
    ensures ProfilesInv(r.profiles)
    ensures r.reply.status == 400 <==> |u| == 0 || (ResearchCategories in u && !EnoughCategories(u[ResearchCategories]))
    ensures r.reply.status == 500 <==> r.reply.status != 400 && !UpdateCasts(u)
    ensures r.reply.Saved? ==>
              var p := r.reply.contribution;
              && p.id == profiles[user].id && p.user == profiles[user].user && p.createdAt == profiles[user].createdAt
              && p.updatedAt == now && p.form == Apply(profiles[user].form, u)
  {
    if |u| == 0 then PatchStep(profiles, Answer(400, NoFieldsToUpdate))
    else if ResearchCategories in u && !EnoughCategories(u[ResearchCategories]) then
      PatchStep(profiles, Answer(400, TooFewCategories))
    else if !UpdateCasts(u) then PatchStep(profiles, Answer(500, UpdateContributionFailed))
    else
      var p := profiles[user].(form := Apply(profiles[user].form, u), updatedAt := now);
      ReplaceKeepsInv(profiles, p);
      PatchStep(profiles[user := p], Saved(200, p, ProfileUpdated))
  }

  /**
   * `PATCH /me`: 404 without a profile, then the copy of the allow-listed fields. No topic
   * is allocated and no audit row written.
   */
  function Patch(profiles: Profiles, user: string, body: Body, now: nat): (r: PatchStep)
    requires ProfilesInv(profiles)
    ensures r.reply.status in {200, 400, 404, 500}
    ensures r.reply.status == 404 <==> user !in profiles
    ensures r.reply.status == 404 ==> r.reply == Answer(404, ProfileNotFound)
    ensures !r.reply.Saved? ==> r == PatchStep(profiles, r.reply)
    ensures r.reply.Saved? ==> r.reply.status == 200 && r.profiles == profiles[user := r.reply.contribution]
    ensures ProfilesInv(r.profiles)
  {
    if user !in profiles then PatchStep(profiles, Answer(404, ProfileNotFound))
    else PatchWith(profiles, user, Updates(body), now)
  }
}

/** What the contribution routes guarantee, stated over the functions of module ContributionFlow. */
module ContributionProperties {
  import opened Wrappers
  import opened Strings
  import opened Json
  import opened Ids
  import opened Messages
  import opened TopicModel
  import opened ContributionModel
  import opened ContributionFlow

  /**
   * A submission with a missing field is answered with 400 naming the first missing field
   * in the listed order, and nothing is written or mailed.
   */
  lemma SubmitNamesFirstMissing(s: Store, user: string, body: Body, now: nat, profileId: string, detailId: string,
                                pick: Option<string>, faults: Faults, k: nat)
    requires TopicsInv(s.topics) && PickFor(s, body, pick, faults)
    requires k < |RequiredFields| && Missing(body, RequiredFields[k])
    requires forall j :: 0 <= j < k ==> !Missing(body, RequiredFields[j])
    ensures Submit(s, user, body, now, profileId, detailId, pick, faults)
            == Step(s, Answer(400, MissingField(Key(RequiredFields[k]))), None)
  {
    FirstMissingUnique(body, RequiredFields, k);
    assert RequiredFields[k] in RequiredFields;
  }

  /** With every field there, a category list that is not an array of three or more is refused. */
  lemma SubmitNeedsThreeCategories(s: Store, user: string, body: Body, now: nat, profileId: string, detailId: string,
                                   pick: Option<string>, faults: Faults)
    requires TopicsInv(s.topics) && PickFor(s, body, pick, faults)
    requires forall f :: f in RequiredFields ==> !Missing(body, f)
    requires !EnoughCategories(Get(body, Key(ResearchCategories)))
    ensures Submit(s, user, body, now, profileId, detailId, pick, faults) == Step(s, Answer(400, TooFewCategories), None)
  {
  }

  /**
   * A repeat submission leaves every profile as it was and answers 200 with the stored one;
   * when its values cast and the write succeeds, exactly one audit row is appended, marked
   * 'contribution-form-update-ignored' and carrying the topic the allocation reported.
   */
  lemma RepeatOnlyAudits(s: Store, user: string, body: Body, now: nat, profileId: string, detailId: string,
                         pick: Option<string>, faults: Faults)
    requires TopicsInv(s.topics) && PickFor(s, body, pick, faults)
    requires Validate(body).None? && user in s.profiles
    ensures var r := Submit(s, user, body, now, profileId, detailId, pick, faults);
            var a := Allocate(s.topics, Categories(body), pick, now, faults.topic);
            var row := AuditRow(detailId, user, body, FormUpdateIgnored, a.selected, now);
            && r.store.profiles == s.profiles
            && r.reply == Saved(200, s.profiles[user], ProfileAlreadyRecorded)
            && r.store.topics == a.topics
            && r.store.details == (if row.Some? && !faults.auditFails then s.details + [row.value] else s.details)
            && (row.Some? ==> row.value.source == FormUpdateIgnored && row.value.assignedTopic.Some? == a.selected.Some?)
  {
    SelectedIsStored(s.topics, Categories(body), pick, now, faults.topic);
  }

  /**
   * A first submission whose values cast creates exactly one profile, for this user, and
   * answers 201 with it; the audit row appended is marked 'contribution-form-create'.
   */
  lemma FirstCreatesOneProfile(s: Store, user: string, body: Body, now: nat, profileId: string, detailId: string,
                               pick: Option<string>, faults: Faults)
    requires TopicsInv(s.topics) && PickFor(s, body, pick, faults)
    requires Validate(body).None? && user !in s.profiles && SubmittedForm(body).Some?
    ensures var r := Submit(s, user, body, now, profileId, detailId, pick, faults);
            var p := Profile(profileId, user, SubmittedForm(body).value, now, now);
            && r.store.profiles == s.profiles[user := p]
            && r.reply == Saved(201, p, ProfileRecorded)
            && r.store.topics == Allocate(s.topics, Categories(body), pick, now, faults.topic).topics
            && r.store.details == FirstDetails(s, user, body, now, detailId, pick, faults)
  {
    FirstWritesOneAuditRow(s, user, body, now, detailId, pick, faults);
  }

  /** The audit log after a first submission whose values cast. */
  function FirstDetails(s: Store, user: string, body: Body, now: nat, detailId: string,
                        pick: Option<string>, faults: Faults): seq<Detail>
    requires TopicsInv(s.topics) && PickFor(s, body, pick, faults)
    requires Validate(body).None?
  {
    RecordSubmission(s, user, body, now, detailId, pick, faults, FormCreate).details
  }

  /**
   * The audit row of a first submission whose values cast carries the stored form and is
   * marked 'contribution-form-create'; it is appended unless its write fails.
   */
  lemma FirstWritesOneAuditRow(s: Store, user: string, body: Body, now: nat, detailId: string,
                               pick: Option<string>, faults: Faults)
    requires TopicsInv(s.topics) && PickFor(s, body, pick, faults)
    requires Validate(body).None? && SubmittedForm(body).Some?
    ensures var a := Allocate(s.topics, Categories(body), pick, now, faults.topic);
            var row := AuditRow(detailId, user, body, FormCreate, a.selected, now);
            && row.Some?
            && row.value.form == SubmittedForm(body).value && row.value.source == FormCreate
            && FirstDetails(s, user, body, now, detailId, pick, faults)
               == (if faults.auditFails then s.details else s.details + [row.value])
  {
    var a := Allocate(s.topics, Categories(body), pick, now, faults.topic);
    SelectedIsStored(s.topics, Categories(body), pick, now, faults.topic);
    var row := AuditRow(detailId, user, body, FormCreate, a.selected, now);
    AuditRowOfForm(detailId, user, body, FormCreate, a.selected, now);
    var i := RecordSubmission(s, user, body, now, detailId, pick, faults, FormCreate);
    assert i.details == if faults.auditFails then s.details else s.details + [row.value];
  }

  lemma AuditRowOfForm(id: string, user: string, body: Body, source: Source, selected: Option<Topic>, now: nat)
    requires Validate(body).None? && SubmittedForm(body).Some?
    requires selected.Some? ==> IsObjectId(selected.value.id)
    ensures var row := AuditRow(id, user, body, source, selected, now);
            row.Some? && row.value.form == SubmittedForm(body).value && row.value.source == source
  {
  }

  /** A first submission whose values fail the cast answers 500 and writes nothing. */
  lemma FailedCastWritesNothing(s: Store, user: string, body: Body, now: nat, profileId: string, detailId: string,
                                pick: Option<string>, faults: Faults)
    requires TopicsInv(s.topics) && PickFor(s, body, pick, faults)
    requires Validate(body).None? && user !in s.profiles && SubmittedForm(body).None?
    ensures Submit(s, user, body, now, profileId, detailId, pick, faults)
            == Step(s, Answer(500, SaveContributionFailed), None)
  {
  }

  /**
   * The allocation of a submission that gets past its checks: a reported topic was
   * `Incomplete` and of a submitted category; without a store failure it is now `Allotted`
   * and no other topic changed; with no matching topic nothing changes and nothing is
   * reported, without an error.
   */
  lemma SubmitAllocation(s: Store, user: string, body: Body, now: nat, profileId: string, detailId: string,
                         pick: Option<string>, faults: Faults)
    requires Inv(s) && PickFor(s, body, pick, faults)
    requires Validate(body).None? && (user in s.profiles || SubmittedForm(body).Some?)
    ensures var r := Submit(s, user, body, now, profileId, detailId, pick, faults);
            var sel := Allocate(s.topics, Categories(body), pick, now, faults.topic).selected;
            && r.mail.Some?
            && r.mail.value.topicName == TopicName(sel)
            && r.mail.value.topicCode == TopicCodeOf(sel)
            && (sel.Some? ==> sel.value.id in s.topics && s.topics[sel.value.id] == sel.value)
            && (sel.Some? ==> sel.value.status == Incomplete && Str(sel.value.category) in Categories(body))
            && (sel.Some? && faults.topic.NoFault? ==>
                  && r.store.topics.Keys == s.topics.Keys
                  && r.store.topics[sel.value.id].status == Allotted
                  && (forall id :: id in s.topics && id != sel.value.id ==> r.store.topics[id] == s.topics[id]))
            && (sel.None? ==> r.store.topics == s.topics && r.mail.value.topicCode.None?)
  {
    ValidBodyPresent(body);
    AllocateTakesFromPool(s.topics, Categories(body), pick, now, faults.topic);
  }

  /**
   * Neither a failure of the allocation block nor one of the audit write, nor which topic
   * `$sample` returned, changes the answer a submission gets.
   */
  lemma FaultsDoNotChangeAnswer(s: Store, user: string, body: Body, now: nat, profileId: string, detailId: string,
                                pick1: Option<string>, faults1: Faults, pick2: Option<string>, faults2: Faults)
    requires TopicsInv(s.topics) && PickFor(s, body, pick1, faults1) && PickFor(s, body, pick2, faults2)
    ensures Submit(s, user, body, now, profileId, detailId, pick1, faults1).reply
            == Submit(s, user, body, now, profileId, detailId, pick2, faults2).reply
  {
  }

  /** A submission keeps every collection's schema guarantees. */
  lemma SubmitKeepsInv(s: Store, user: string, body: Body, now: nat, profileId: string, detailId: string,
                       pick: Option<string>, faults: Faults)
    requires Inv(s) && PickFor(s, body, pick, faults)
    ensures Inv(Submit(s, user, body, now, profileId, detailId, pick, faults).store)
  {
    if Validate(body).None? {
      if user in s.profiles {
        RecordKeepsInv(s, user, body, now, detailId, pick, faults, FormUpdateIgnored);
      } else if SubmittedForm(body).Some? {
        RecordKeepsInv(s, user, body, now, detailId, pick, faults, FormCreate);
        ReplaceKeepsInv(s.profiles, Profile(profileId, user, SubmittedForm(body).value, now, now));
      }
    }
  }

  /** Recording a submission keeps the topics and the audit log well formed. */
  lemma RecordKeepsInv(s: Store, user: string, body: Body, now: nat, detailId: string,
                       pick: Option<string>, faults: Faults, source: Source)
    requires Inv(s) && Validate(body).None? && PickFor(s, body, pick, faults)
    ensures var i := RecordSubmission(s, user, body, now, detailId, pick, faults, source);
            Inv(Store(s.profiles, i.details, i.topics))
  {
    var i := RecordSubmission(s, user, body, now, detailId, pick, faults, source);
    AllocateKeepsInv(s.topics, Categories(body), pick, now, faults.topic);
    var a := Allocate(s.topics, Categories(body), pick, now, faults.topic);
    SelectedIsStored(s.topics, Categories(body), pick, now, faults.topic);
    var row := AuditRow(detailId, user, body, source, a.selected, now);
    AppendAuditKeepsForms(s.details, row, faults.auditFails);
  }

  /**
   * Once a submission has been answered with a profile, the user's profile survives any later
   * submission untouched, while that later submission still adds its audit row when its
   * values cast and the write succeeds.
   */
  lemma SecondSubmissionKeepsProfile(s: Store, user: string, body1: Body, body2: Body, now1: nat, now2: nat,
                                     profileId: string, detailId1: string, detailId2: string,
                                     pick1: Option<string>, faults1: Faults, pick2: Option<string>, faults2: Faults)
    requires Inv(s) && PickFor(s, body1, pick1, faults1)
    ensures (var one := Submit(s, user, body1, now1, profileId, detailId1, pick1, faults1);
             SubmitKeepsInv(s, user, body1, now1, profileId, detailId1, pick1, faults1);
             one.reply.Saved? && Validate(body2).None? && PickFor(one.store, body2, pick2, faults2) ==>
               var two := Submit(one.store, user, body2, now2, profileId, detailId2, pick2, faults2);
               && two.store.profiles == one.store.profiles
               && two.reply == Saved(200, one.reply.contribution, ProfileAlreadyRecorded)
               && |two.store.details| == |one.store.details| + (if SubmittedForm(body2).Some? && !faults2.auditFails then 1 else 0))
  {
    SubmitKeepsInv(s, user, body1, now1, profileId, detailId1, pick1, faults1);
    var one := Submit(s, user, body1, now1, profileId, detailId1, pick1, faults1);
    if one.reply.Saved? && Validate(body2).None? && PickFor(one.store, body2, pick2, faults2) {
      assert user in one.store.profiles && one.store.profiles[user] == one.reply.contribution;
      RepeatOnlyAudits(one.store, user, body2, now2, profileId, detailId2, pick2, faults2);
    }
  }

  /** `updateData` never holds `consent`, whatever the body says. */
  lemma PatchNeverCopiesConsent(body: Body)
    ensures Consent !in Updates(body)
  {
  }

  /**
   * A successful `PATCH /me` changes only the caller's profile, keeping its id, owner and
   * creation time, and replaces its form by the old one with `updateData` applied (lemma
   * UpdatesApply says which fields that changes).
   */
  lemma PatchChangesOnlyGivenFields(profiles: Profiles, user: string, body: Body, now: nat)
    requires ProfilesInv(profiles)
    ensures var r := Patch(profiles, user, body, now);
            r.reply.Saved? ==>
              && user in profiles && UpdateCasts(Updates(body))
              && r.profiles == profiles[user := r.reply.contribution]
              && r.reply.contribution == profiles[user].(form := Apply(profiles[user].form, Updates(body)), updatedAt := now)
  {
    if user in profiles {
      PatchWithApplies(profiles, user, Updates(body), now);
    }
  }

  /** What `$set` leaves in a String path: its cast value when the body gave it, the old value otherwise. */
  lemma UpdatesApply(form: Form, body: Body, f: Field)
    requires FormOk(form) && UpdateCasts(Updates(body)) && IsTextField(f)
    ensures var r := Apply(form, Updates(body));
            && r.consent == form.consent
            && (!Present(body, ResearchCategories) ==> r.researchCategories == form.researchCategories)
            && r.text[f] == if Present(body, f) then SetText(f, Get(body, Key(f))).text else form.text[f]
  {
    assert f in AllowedFields;
  }

  /** A successful update replaces the caller's form by the old one with `u` applied. */
  lemma PatchWithApplies(profiles: Profiles, user: string, u: map<Field, Value>, now: nat)
    requires ProfilesInv(profiles) && user in profiles
    ensures var r := PatchWith(profiles, user, u, now);
            r.reply.Saved? ==>
              && UpdateCasts(u)
              && r.reply.contribution == profiles[user].(form := Apply(profiles[user].form, u), updatedAt := now)
  {
  }

  /** A body with no allow-listed field set is refused with 400 and changes nothing. */
  lemma PatchNothingToCopy(profiles: Profiles, user: string, body: Body, now: nat)
    requires ProfilesInv(profiles) && user in profiles
    requires forall f :: f in AllowedFields ==> !Present(body, f)
    ensures Patch(profiles, user, body, now) == PatchStep(profiles, Answer(400, NoFieldsToUpdate))
  {
    assert Updates(body) == map[];
  }

  /** A category list given to `PATCH /me` must still be an array of three or more. */
  lemma PatchNeedsThreeCategories(profiles: Profiles, user: string, body: Body, now: nat)
    requires ProfilesInv(profiles) && user in profiles
    requires Present(body, ResearchCategories) && !EnoughCategories(Get(body, Key(ResearchCategories)))
    ensures Patch(profiles, user, body, now) == PatchStep(profiles, Answer(400, TooFewCategories))
  {
    assert ResearchCategories in Updates(body);
  }
}
