/**
 * The contribution intake records: the `Contribution` schema (one profile per user, the
 * collection `user_contributions`) and the `ContributionDetail` schema (one audit row per
 * submission, the collection `Contribution_detail`), with the casts and setters Mongoose
 * applies to the form's fields when it writes them.
 */
module ContributionModel {
  import opened Wrappers
  import opened Strings
  import opened Json
  import opened Ids

  /** The fields of the contribution form. */
  datatype Field =
    | FirstName | LastName | Email | Phone | Gender | GayatriPariwarDuration
    | AkhandJyotiMember | GuruDiksha | MissionBooksRead | ResearchCategories | HoursPerWeek | Consent

  /** The JSON key of a field. */
  function Key(f: Field): string {
    match f
    case FirstName => "firstName"
    case LastName => "lastName"
    case Email => "email"
    case Phone => "phone"
    case Gender => "gender"
    case GayatriPariwarDuration => "gayatriPariwarDuration"
    case AkhandJyotiMember => "akhandJyotiMember"
    case GuruDiksha => "guruDiksha"
    case MissionBooksRead => "missionBooksRead"
    case ResearchCategories => "researchCategories"
    case HoursPerWeek => "hoursPerWeek"
    case Consent => "consent"
  }

  /** The fields stored in a String path (all but the category list and the consent flag). */
  predicate IsTextField(f: Field) {
    f != ResearchCategories && f != Consent
  }

  /** The String paths of both schemas. */
  const TextFields: seq<Field> := [Email, FirstName, LastName, Phone, Gender, GayatriPariwarDuration,
                                   AkhandJyotiMember, GuruDiksha, MissionBooksRead, HoursPerWeek]

  lemma TextFieldsAreTheTextFields(f: Field)
    ensures f in TextFields <==> IsTextField(f)
  {
  }

  /**
   * The String cast followed by the path's setters: `lowercase` and `trim` on `email`,
   * `trim` on every other String path.
   */
  function SetText(f: Field, v: Value): (r: StringCast)
    requires IsTextField(f)
    ensures r.Absent? <==> CastString(v).Absent?
    ensures r.CastError? <==> CastString(v).CastError?
    ensures r.Cast? && f == Email ==> r.text == NormalizeEmail(CastString(v).text)
    ensures r.Cast? && f != Email ==> r.text == Trim(CastString(v).text)
  {
    match CastString(v)
    case Cast(s) => Cast(if f == Email then NormalizeEmail(s) else Trim(s))
    case Absent => Absent
    case CastError => CastError
  }

  /**
   * The cast of the `[String]` path: each entry is cast on its own, a `null` entry stays
   * `null` (None), and one entry that fails the cast fails the whole array.
   */
  function CastStrings(items: seq<Value>): (r: Option<seq<Option<string>>>)
    ensures r.Some? <==> forall i :: 0 <= i < |items| ==> !CastString(items[i]).CastError?
    ensures r.Some? ==> |r.value| == |items|
    ensures r.Some? ==> forall i :: 0 <= i < |items| ==>
                          CastString(items[i]) == if r.value[i].Some? then Cast(r.value[i].value) else Absent
  {
    if items == [] then Some([])
    else
      var head := CastString(items[0]);
      if head.CastError? then None
      else
        var rest := CastStrings(items[1..]);
        assert forall i :: 1 <= i < |items| ==> items[i] == items[1..][i - 1];
        if rest.None? then None
        else Some([if head.Cast? then Some(head.text) else None] + rest.value)
  }

  /** The form values a stored profile or audit row holds; a `null` category entry is None. */
  datatype Form = Form(text: map<Field, string>, researchCategories: seq<Option<string>>, consent: bool)

  /**
   * What the schemas guarantee of the stored values: every String path set, the e-mail
   * required, lower-cased and trimmed, the other strings trimmed.
   */
  predicate FormOk(form: Form) {
    && (forall f :: f in form.text <==> IsTextField(f))
    && Email in form.text && form.text[Email] != "" && IsNormalEmail(form.text[Email])
    && (forall f :: f in form.text ==> Trimmed(form.text[f]))
  }


  /** A field of the request body is missing for the routes when it is undefined or null. */
  predicate Present(body: Body, f: Field) {
    !Get(body, Key(f)).Undefined? && !Get(body, Key(f)).Null?
  }

  /** The String paths of `fields`, cast and set; None when one of them fails to cast. */
  function CastTexts(body: Body, fields: seq<Field>): (r: Option<map<Field, string>>)
    requires forall f :: f in fields ==> IsTextField(f) && Present(body, f)
    ensures r.Some? <==> forall f :: f in fields ==> SetText(f, Get(body, Key(f))).Cast?
    ensures r.Some? ==> forall f :: f in r.value <==> f in fields
    ensures r.Some? ==> forall f :: f in fields ==> SetText(f, Get(body, Key(f))) == Cast(r.value[f])
  {
    if fields == [] then Some(map[])
    else
      var f := fields[0];
      match SetText(f, Get(body, Key(f)))
      case Cast(s) =>
        var rest := CastTexts(body, fields[1..]);
        if rest.None? then None else Some(rest.value[f := s])
      case _ => None
  }

  /**
   * The values `create` stores from a request body whose form fields are all present and
   * whose categories are an array: None when a cast fails or the e-mail's `required`
   * validator fails (it sets to ''). `consent` is `Boolean(body.consent)`.
   */
  function CastForm(body: Body): (r: Option<Form>)
    requires forall f :: IsTextField(f) ==> Present(body, f)
    requires Get(body, Key(ResearchCategories)).Arr?
    ensures r.Some? ==> FormOk(r.value)
    ensures r.Some? <==>
              && (forall f :: IsTextField(f) ==> SetText(f, Get(body, Key(f))).Cast?)
              && SetText(Email, Get(body, Key(Email))).text != ""
              && CastStrings(Get(body, Key(ResearchCategories)).items).Some?
    ensures r.Some? ==> forall f :: IsTextField(f) ==> SetText(f, Get(body, Key(f))) == Cast(r.value.text[f])
    ensures r.Some? ==> Some(r.value.researchCategories) == CastStrings(Get(body, Key(ResearchCategories)).items)
    ensures r.Some? ==> r.value.consent == Truthy(Get(body, Key(Consent)))
  {
    forall f | IsTextField(f) ensures f in TextFields { TextFieldsAreTheTextFields(f); }
    var texts := CastTexts(body, TextFields);
    var cats := CastStrings(Get(body, Key(ResearchCategories)).items);
    if texts.None? || cats.None? then None
    else
      var text := texts.value;
      forall f | f in text ensures IsTextField(f) && Trimmed(text[f]) {
        TextFieldsAreTheTextFields(f);
      }
      if text[Email] == "" then None
      else Some(Form(text, cats.value, Truthy(Get(body, Key(Consent)))))
  }

  // ---------------------------------------------------------------------------
  // Contribution: the profile, one per user

  datatype Profile = Profile(id: string, user: string, form: Form, createdAt: nat, updatedAt: nat)

  /** The collection `user_contributions`, by `user` (a unique index, so it identifies a profile). */
  type Profiles = map<string, Profile>

  ghost predicate ProfilesInv(m: Profiles) {
    forall u :: u in m ==> m[u].user == u && FormOk(m[u].form)
  }

  /**
   * A profile as the schema would build it from form values, with the schema's defaults for
   * what is not given: no categories, no consent.
   */
  function NewProfile(id: string, user: string, text: map<Field, string>, cats: Option<seq<Option<string>>>,
                      consent: Option<bool>, now: nat): (r: Profile)
    ensures r.id == id && r.user == user && r.form.text == text
    ensures r.form.researchCategories == (if cats.Some? then cats.value else [])
    ensures r.form.consent == (consent == Some(true))
    ensures r.createdAt == now == r.updatedAt
  {
    Profile(id, user, Form(text, cats.GetOr([]), consent.GetOr(false)), now, now)
  }

  /** `toSafeObject()`: the profile without the reference to its user. */
  datatype SafeProfile = SafeProfile(id: string, form: Form, createdAt: nat, updatedAt: nat)

  function ToSafeObject(p: Profile): (r: SafeProfile)
    ensures r.id == p.id && r.form == p.form && r.createdAt == p.createdAt && r.updatedAt == p.updatedAt
  {
    SafeProfile(p.id, p.form, p.createdAt, p.updatedAt)
  }

  // ---------------------------------------------------------------------------
  // ContributionDetail: the audit row, any number per user

  /** The `source` values the routes write, and the schema's default. */
  datatype Source = ContributionForm | FormCreate | FormUpdateIgnored

  function SourceText(s: Source): string {
    match s
    case ContributionForm => "contribution-form"
    case FormCreate => "contribution-form-create"
    case FormUpdateIgnored => "contribution-form-update-ignored"
  }

  datatype Detail = Detail(id: string, user: string, form: Form, source: Source,
                           assignedTopic: Option<string>, assignedTopicCode: Option<string>, createdAt: nat)

  /**
   * An audit row as the schema builds it: `source` defaults to 'contribution-form', the
   * topic name and code are optional (a `null` leaves them unset) and trimmed.
   */
  function NewDetail(id: string, user: string, form: Form, source: Option<Source>,
                     topic: Option<string>, code: Option<string>, now: nat): (r: Detail)
    ensures r.id == id && r.user == user && r.form == form && r.createdAt == now
    ensures source.None? ==> r.source == ContributionForm
    ensures source.Some? ==> r.source == source.value
    ensures r.assignedTopic.Some? <==> topic.Some?
    ensures r.assignedTopicCode.Some? <==> code.Some?
    ensures topic.Some? ==> r.assignedTopic.value == Trim(topic.value)
    ensures code.Some? ==> r.assignedTopicCode.value == Trim(code.value)
  {
    Detail(id, user, form, source.GetOr(ContributionForm),
           if topic.Some? then Some(Trim(topic.value)) else None,
           if code.Some? then Some(Trim(code.value)) else None, now)
  }

  // ---------------------------------------------------------------------------
  // The collections

  /** The collection `user_contributions`, updated in place by the contribution routes. */
  class ProfileCollection {
    var docs: Profiles

    ghost predicate Valid()
      reads this
    {
      ProfilesInv(docs)
    }

    constructor ()
      ensures Valid() && docs == map[]
    {
      docs := map[];
    }

    /** `Contribution.findOne({ user })`. */
    function FindByUser(user: string): (found: Option<Profile>)
      reads this
      ensures found.Some? <==> user in docs
      ensures found.Some? ==> found.value == docs[user]
    {
      if user in docs then Some(docs[user]) else None
    }

    /** `Contribution.create(...)` of a profile for a user who has none yet. */
    method Create(p: Profile)
      requires Valid() && FormOk(p.form) && p.user !in docs
      modifies this
      ensures Valid()
      ensures docs == old(docs)[p.user := p]
    {
      docs := docs[p.user := p];
    }

    /** `Contribution.findOneAndUpdate({ user }, { $set })` of that user's profile. */
    method Replace(p: Profile)
      requires Valid() && FormOk(p.form) && p.user in docs
      modifies this
      ensures Valid()
      ensures docs == old(docs)[p.user := p]
    {
      docs := docs[p.user := p];
    }
  }

  /** The collection `Contribution_detail`: rows are only ever added, in submission order. */
  class DetailLog {
    var rows: seq<Detail>

    ghost predicate Valid()
      reads this
    {
      forall i :: 0 <= i < |rows| ==> FormOk(rows[i].form)
    }

    constructor ()
      ensures Valid() && rows == []
    {
      rows := [];
    }

    /** `ContributionDetail.create(d)`. */
    method Append(d: Detail)
      requires Valid() && FormOk(d.form)
      modifies this
      ensures Valid()
      ensures rows == old(rows) + [d]
    {
      rows := rows + [d];
    }
  }
}
