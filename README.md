# bvss-backend, modelled in Dafny

This project models the request handlers of the bvss-backend service in Dafny. The service is an
Express application over MongoDB. It runs the research-contribution portal: account signup and
login with JSON web tokens, an e-mail OTP signup flow, the contribution form with automatic
allocation of a research topic, the admin console over topics ("repositories"), the cookie-consent
store, the public blog listing, and the contact form with its two notification e-mails.

How the model is laid out:

- **Collections.** Each Mongo collection the handlers write to is a `class` that owns its
  documents as a `map` or `seq` field: `UserCollection`, `OtpCollection`, `TopicCollection`,
  `ProfileCollection`, `DetailLog`, `SessionStore` and `ContactInbox`. Its methods mirror the
  Mongoose calls the routes make (`create`, `deleteMany`, `findByIdAndUpdate`, `save`, the TTL
  reaper), and each states the collection's new contents.
- **Route logic.** Each route is a pure function from the old store and the request to the new
  store, the reply and any e-mail to send. Examples are `OtpFlow.Send`,
  `ContributionFlow.Submit`, `AdminFlow.UpdateStatus` and `ContactFlow.Submit`.
- **Handlers.** Each imperative handler (`OtpRoutes.HandleSend`,
  `ContributionRoutes.HandleSubmit`, `ContactRoutes.HandleContact`, …) drives the collection
  objects step by step. It is proved to produce exactly what that function prescribes.
- **Properties.** The lemma modules state what the routes promise. Each is proved for all
  inputs:
  - a user exists only after the right code;
  - five wrong guesses lock a session;
  - a topic is allotted at most once;
  - PATCH never touches consent;
  - a read after a save returns the saved preferences;
  - the confirmation mail always precedes the admin notification;
  - and more, listed in the table below.
- **Mail service.** `services/mailer.js` is modelled in two parts:
  - `MailerConfig`: the SMTP transport configuration, read from the environment, and the
    plain-text bodies of the contact e-mails.
  - `Mailer.MailService`: a class holding the memoised transporter. It tries Brevo first, then
    falls back to SMTP.

What the model takes as parameters rather than computing:

- **Request bodies** are `Json.Body`, a map from field names to JSON values. Absent fields are
  `Undefined`. JavaScript truthiness is `Json.Truthy`. Mongoose's String cast is
  `Json.CastString`.
- **Clocks** are `now: nat` in milliseconds.
- **Random values:**
  - `Math.random()` is a real in [0, 1).
  - `crypto.randomBytes` output is a byte sequence.
  - MongoDB's `$sample` pick is chosen from the eligible topics.
- **Outcomes of foreign code:**
  - the bcrypt hash and whether the bcrypt comparison matches;
  - the `jwt.verify` verdict;
  - whether a store write fails;
  - whether Brevo or SMTP delivery succeeds.

## Model

| member | source | states |
|---|---|---|
| Json.CastString | models/Contribution.js:17-56 | Mongoose's String cast: absent exactly for undefined/null; a cast error exactly for arrays and for objects without a non-empty string `_id`; an object with one casts to that `_id`; the string itself for a string |
| Config.FirstSet | services/mailer.js:430 | `A \|\| B` over environment variables: set iff either is set, the first one wins |
| Ids.CastObjectId | routes/admin.js:110-114 | an id parameter casts iff it is 24 hexadecimal digits; the cast is its lower-case form and leaves a canonical id unchanged |
| Tokens.CreateToken | routes/auth.js:9-24 | no token without JWT_SECRET; the token names the user, is signed with the secret, issued now, and lives JWT_EXPIRES_IN or "7d" |
| Strings.TrimIdempotent | models/User.js:5-11 | trimming twice is trimming once |
| Strings.TrimEmptyIffAllSpace | models/Repository.js:5-9 | a trimmed value is empty exactly when it was all white space (so `required` after `trim` rejects blank text) |
| Strings.NormalizeEmail | models/User.js:5-11 | the stored e-mail is no longer than the given one, holds no capital letter and has no surrounding white space |
| Strings.NormalizeEmailIdempotent | models/User.js:5-11 | the e-mail setter (trim, lower-case) is idempotent, so stored e-mails are fixed points of the query-side normalisation |
| Strings.NormalizedAlready | models/User.js:5-11 | an e-mail already trimmed and lower-case is stored unchanged |
| Strings.HexRoundTrip | routes/otp.js:34-36 | `toString('hex')` loses nothing: decoding the hex text gives the bytes back |
| Strings.DecimalRoundTrip | routes/otp.js:29-31 | the decimal text of a number reads back as that number |
| Strings.JoinSplit | services/mailer.js:300-305 | joining the pieces of a split with the same separator gives back the string |
| Strings.SplitJoin | services/mailer.js:300-305 | splitting a join of separator-free pieces gives back the pieces |
| UserModel.ToSafeObject | models/User.js:27-35 | the safe view carries id, e-mail and timestamps, never the hash; isAdmin is true only when stored as true |
| UserModel.ListUsers | routes/admin.js:13-21 | the admin listing has one row per user, in order, without password hashes |
| UserModel.UserByEmail | models/User.js:5-11 | a lookup by e-mail finds a user iff one is stored with that e-mail, and returns that stored user |
| UserModel.InsertUser | models/User.js:3-25 | create fails validation on an empty normalised e-mail or hash, fails as a duplicate on a taken id or e-mail, and otherwise adds exactly the new non-admin user |
| UserModel.InsertUserKeepsInv | models/User.js:5-11 | inserting keeps e-mails unique and normalised across the collection |
| UserModel.UserCollection.FindByEmail | routes/auth.js:35-38 | `findOne({email})` finds the user with the normalised e-mail exactly when one exists |
| UserModel.UserCollection.FindById | middleware/auth.js:27-30 | `findById` finds exactly the stored user with that id |
| UserModel.UserCollection.Create | routes/auth.js:40-44 | the collection changes exactly as `InsertUser` prescribes |
| UserModel.UserCollection.DeleteById | routes/auth.js:97-109 | the user is removed and nobody else |
| AuthGates.BearerToken | middleware/auth.js:6-14 | a token is extracted iff the header starts with "Bearer " and has a non-blank rest; it is that rest, trimmed |
| AuthGates.BearerRoundTrip | middleware/auth.js:6-14 | "Bearer " followed by a trimmed token yields that token |
| AuthGates.OtherSchemeRefused | middleware/auth.js:6-14 | any other scheme yields no token |
| AuthGates.RequireAuth | middleware/auth.js:4-48 | admits only with a bearer token, a configured secret, a payload whose sub casts to a stored user id; 401 without a token, for an expired one, for a payload without a subject, and for a sub naming no stored user; 500 without the secret, for another verification failure, or for a sub that is not an ObjectId |
| AuthGates.RequireAdmin | middleware/adminAuth.js:4-52 | admits only stored users whose isAdmin is true; refusals are 401, 403 or 500 |
| AuthGates.AdminIsAuthThenFlag | middleware/adminAuth.js:32-34 | the admin gate is the auth gate followed by a 403 for users that are not admins |
| AuthGates.IssuedTokenAdmits | routes/auth.js:9-24 | a token issued for a stored user passes the auth gate and admits that user |
| AuthFlow.Signup | routes/auth.js:26-60 | 400 iff e-mail or password is missing; 409 iff both are present and the e-mail casts to a string whose normalised form is registered, and then the store is unchanged; otherwise 201 or 500 |
| AuthFlow.Login | routes/auth.js:62-95 | 400 iff a field is missing; 401 iff the e-mail casts and, normalised, names no stored user, or the password is wrong; a 200 session names the user stored under that normalised e-mail and its safe view |
| AuthFlow.DeleteAccount | routes/auth.js:97-109 | 200 iff the auth gate admits, and then exactly the caller's account is deleted; otherwise nothing changes |
| AuthProperties.SignupKeepsInv | routes/auth.js:26-60 | signup keeps the users collection well formed |
| AuthProperties.SignupCreatesOneUser | routes/auth.js:40-51 | signup with a fresh e-mail adds exactly one non-admin user with the normalised e-mail and answers 201 with its safe view (500 without a secret) |
| AuthProperties.SignupTwiceConflicts | routes/auth.js:35-38 | a second signup with the same e-mail up to case and spaces is refused with 409 and writes nothing |
| AuthProperties.LoginHidesWhichCheckFailed | routes/auth.js:71-79 | an unknown e-mail and a wrong password give the same 401 reply |
| AuthProperties.SignupThenLogin | routes/auth.js:26-95 | after signing up, logging in with the same credentials returns a 200 session for the new user |
| AuthProperties.DeletedAccountLosesAccess | routes/auth.js:97-109 | after deletion only that account is gone, and the same token is refused with 401 "user not found" |
| AuthRoutes.HandleSignup | routes/auth.js:26-60 | the handler's reply and users collection are those `Signup` prescribes |
| AuthRoutes.HandleLogin | routes/auth.js:62-95 | the handler's reply is the one `Login` prescribes |
| AuthRoutes.HandleDeleteAccount | routes/auth.js:97-109 | the handler's reply and users collection are those `DeleteAccount` prescribes |
| OtpModel.NewRecord | models/OTP.js:5-49 | a new OTP record has the normalised e-mail, zero attempts, five allowed, not verified, and the given code, session, hash, name and expiry |
| OtpModel.FindOne | routes/otp.js:123 | the lookup by e-mail and session finds the record iff the session is stored for that normalised e-mail |
| OtpModel.WithoutEmail | routes/otp.js:74 | `deleteMany({email})` removes exactly the records of that e-mail |
| OtpModel.Insert | models/OTP.js:5-46 | create fails iff the record breaks the schema or its session id is taken; otherwise it adds exactly that record |
| OtpModel.Unexpired | models/OTP.js:30-34 | the TTL index keeps exactly the records whose expiry has not passed |
| OtpModel.OtpCollection.DeleteMany | routes/otp.js:74 | the collection loses exactly the e-mail's records |
| OtpModel.OtpCollection.Create | routes/otp.js:77-86 | the collection changes exactly as `Insert` prescribes |
| OtpModel.OtpCollection.DeleteOne | routes/otp.js:164-168 | exactly that session is removed |
| OtpModel.OtpCollection.Save | routes/otp.js:147-155 | the record replaces the stored one for its session |
| OtpModel.OtpCollection.Reap | models/OTP.js:30-34 | the TTL reaper leaves exactly the unexpired records |
| OtpFlow.GenerateOtp | routes/otp.js:29-31 | the code is six decimal digits with no leading zero, between 100000 and 999999 |
| OtpFlow.GenerateSessionId | routes/otp.js:34-36 | the session id is 64 lower-case hex digits that decode to the random bytes |
| OtpFlow.Send | routes/otp.js:39-104 | 400 iff e-mail or password is missing; 400 and 409 write nothing; 200 only with a bound mailer, and it returns the new session id; users are never touched |
| OtpFlow.SendWrite | routes/otp.js:62-104 | records of other e-mails are kept as they were; afterwards the e-mail has at most the new session, which holds the new code, no attempts and a three-minute expiry on a 200; the code mail is sent only with a 200 |
| OtpFlow.Resend | routes/otp.js:193-247 | replies are 200, 400, 404 or 500; 400 iff a field is missing, and 400 and 404 write nothing; a 200 leaves the session's record with the new code, no attempts and a fresh expiry; users are never touched |
| OtpFlow.ResendFound | routes/otp.js:208-247 | 404 iff the e-mail and session name no record; a pending record gets a new code, zero attempts and a fresh expiry, and the reply is 200 exactly when the mailer is bound |
| OtpFlow.VerifyFound | routes/otp.js:123-190 | 404 without a record; a 201 needs an unverified, unexpired record with attempts left and the right code, deletes the session and returns a token and a user; the users change only on 201 or a 500 after the insert |
| OtpFlow.Verify | routes/otp.js:107-190 | replies are 201, 400, 404, 409, 429 or 500; a missing field gives 400 and writes nothing; users change only on 201 or 500; a 201 needs a stored unexpired session of that e-mail with the given code, and removes it |
| OtpFlow.ReapStep | models/OTP.js:30-34 | after reaping, no stored record has expired |
| OtpProperties.SendWritesOneRecord | routes/otp.js:54-99 | a successful send replaces every earlier record of the e-mail with one fresh record: zero attempts, five allowed, 180000 ms to live; 200 iff the mailer is bound |
| OtpProperties.SendRefusesRegisteredEmail | routes/otp.js:57-60 | a registered e-mail gets 409 and nothing is written or mailed |
| OtpProperties.SendDropsEarlierSession | routes/otp.js:74 | an earlier session of the same e-mail is deleted by a new send |
| OtpProperties.SendSupersedesEarlierSession | routes/otp.js:74-86 | after a second send, verifying the earlier session answers 404 whatever the code |
| OtpProperties.SendAsImportedNeverSucceeds | routes/otp.js:89-92 | with the mailer as imported, no send answers 200, and a valid request leaves its record stored behind the 500 |
| OtpProperties.VerifyUnknownSession | routes/otp.js:125-127 | an unknown session for the e-mail answers 404 and changes nothing |
| OtpProperties.VerifyExpired | routes/otp.js:135-138 | an expired record is deleted and refused with 400, even with the right code |
| OtpProperties.VerifyExhausted | routes/otp.js:141-144 | a record with its attempts used up is deleted and refused with 429, whatever the code |
| OtpProperties.VerifyWrongCode | routes/otp.js:147-155 | a wrong code adds one attempt and reports how many remain |
| OtpProperties.VerifyCorrectCode | routes/otp.js:158-179 | the right code, in time, creates the user from the record (normalised e-mail, hash, not admin), deletes the record, and answers 201 with a token for the new user when the secret is set |
| OtpProperties.WrongGuessesAccumulate | routes/otp.js:147-155 | n wrong guesses add exactly n attempts and change nothing else in the record or the users |
| OtpProperties.FiveWrongGuessesLockTheSession | routes/otp.js:141-155 | after five wrong guesses even the right code gets 429, the record is gone and no user was created |
| OtpProperties.ResendRefreshes | routes/otp.js:220-242 | resend issues a new code, a fresh three-minute expiry and zero attempts, keeping the e-mail, hash and session; 200 iff the mailer is bound |
| OtpProperties.ResendUnknownSession | routes/otp.js:208-212 | an unknown session answers 404 and changes nothing |
| OtpProperties.SignupScenario | routes/otp.js:39-190 | on an empty store: send gives 200 with the session, a wrong code leaves four attempts, the right code gives 201, clears the session and stores exactly the new user |
| OtpProperties.ScenarioSend | routes/otp.js:39-104 | with a bound mailer a valid first send answers 200 and stores exactly one record |
| OtpInvariant.SendKeepsInv | routes/otp.js:39-104 | send keeps the store invariant: 64-hex sessions, at most five attempts, nothing verified left behind, one pending signup per e-mail |
| OtpInvariant.VerifyKeepsInv | routes/otp.js:107-190 | verify keeps the store invariant, users included |
| OtpInvariant.ResendKeepsInv | routes/otp.js:193-247 | resend keeps the store invariant |
| OtpInvariant.ReapKeepsInv | models/OTP.js:30-34 | the TTL reaper keeps the store invariant |
| OtpRoutes.HandleSend | routes/otp.js:39-104 | the handler's reply, mail and OTP collection are those `Send` prescribes |
| OtpRoutes.HandleVerify | routes/otp.js:107-190 | the handler's reply and both collections are those `Verify` prescribes |
| OtpRoutes.HandleResend | routes/otp.js:193-247 | the handler's reply, mail and OTP collection are those `Resend` prescribes |
| TopicModel.NewTopic | models/Repository.js:5-19 | a topic is created iff name and category are non-blank; they are stored trimmed, with status Incomplete |
| TopicModel.TopicCode | routes/contributions.js:103 | the topic code is the first eight characters of the id, upper-cased |
| TopicModel.Allocate | routes/contributions.js:62-80 | the pick comes from the sample; a claim marks exactly that topic Allotted; a failed sample selects nothing and a failed claim writes nothing |
| TopicModel.AllocateTakesFromPool | routes/contributions.js:62-80 | the selected topic was Incomplete and in a requested category, and it leaves the pool |
| TopicModel.SelectedIsStored | routes/contributions.js:72-73 | a topic the allocation reports is the stored document it claimed, with a valid ObjectId |
| TopicModel.AllocateKeepsInv | models/Repository.js:5-19 | allocation keeps topics well formed |
| TopicModel.AtMostOncePerTopic | routes/contributions.js:145-170 | over any run of submissions, the assigned topics are distinct and come from the initial pool |
| TopicModel.TopicCollection.Sample | routes/contributions.js:66-70 | `$sample` returns a topic that is Incomplete and in a requested category, or none when there is no such topic |
| TopicModel.TopicCollection.SetStatus | routes/contributions.js:76-78 | only that topic's status and update time change |
| TopicModel.TopicCollection.Create | routes/admin.js:76-79 | exactly the new topic is added |
| TopicModel.TopicCollection.Delete | routes/admin.js:134 | exactly that topic is removed |
| ContributionModel.TextFieldsAreTheTextFields | models/Contribution.js:17-56 | the list of text fields is exactly the fields with a String type |
| ContributionModel.SetText | models/Contribution.js:11-56 | a text field casts like a String; e-mail is normalised and the others are trimmed |
| ContributionModel.CastStrings | models/Contribution.js:49-52 | an array casts iff no element fails the String cast; each element is cast on its own and a null element is kept as null |
| ContributionModel.CastTexts | models/Contribution.js:17-56 | the listed fields cast iff each one casts, and the result holds exactly their casts |
| ContributionModel.CastForm | models/Contribution.js:5-60 | a form casts iff every text field and category casts and the e-mail is non-empty; consent is the body's truthiness |
| ContributionModel.NewProfile | models/Contribution.js:5-60 | a new profile stores the user, texts, categories (default empty) and consent (default false) |
| ContributionModel.ToSafeObject | models/Contribution.js:68-86 | the safe view keeps id, form and timestamps and drops the user reference |
| ContributionModel.NewDetail | models/ContributionDetail.js:5-72 | an audit row defaults its source to "contribution-form" and trims the assigned topic and code |
| ContributionModel.ProfileCollection.FindByUser | routes/contributions.js:12-20 | finds the profile iff the user has one |
| ContributionModel.ProfileCollection.Create | routes/contributions.js:126-140 | exactly the user's profile is added |
| ContributionModel.ProfileCollection.Replace | routes/contributions.js:259-263 | the user's profile is replaced and nobody else's |
| ContributionModel.DetailLog.Append | routes/contributions.js:86-107 | the audit row is appended at the end |
| ContributionFlow.FirstMissing | routes/contributions.js:25-45 | the index of the first required field that is missing, with all earlier ones present |
| ContributionFlow.FirstMissingUnique | routes/contributions.js:25-45 | only one index has that property |
| ContributionFlow.Validate | routes/contributions.js:25-49 | names the first missing required field; otherwise requires at least three research categories |
| ContributionFlow.SubmittedForm | routes/contributions.js:126-140 | a valid body casts iff every text field and category casts and the e-mail is non-empty |
| ContributionFlow.Me | routes/contributions.js:12-20 | GET /me answers 200 with the caller's profile, or with none |
| ContributionFlow.TopicCodeOf | routes/contributions.js:115 | a code exists iff a topic was selected, and it is that topic's code |
| ContributionFlow.AppendAudit | routes/contributions.js:86-107 | the audit log gains exactly the new row at its end, and is unchanged when there is no row or the write fails |
| ContributionFlow.AppendAuditKeepsForms | routes/contributions.js:86-107 | appending a row whose form is well formed keeps every row of the log well formed |
| ContributionFlow.Repeat | routes/contributions.js:52-124 | a repeat submission leaves profiles alone and answers 200 with the stored profile |
| ContributionFlow.First | routes/contributions.js:126-214 | a first submission answers 500 with nothing written iff the values do not cast, otherwise 201 with a new profile holding the cast form, stored under the caller, and a confirmation mail to the submitted e-mail |
| ContributionFlow.Submit | routes/contributions.js:22-214 | 400 iff validation fails; 400 and 500 write nothing and mail nothing; 200 iff a profile exists; only the caller's profile can appear |
| ContributionFlow.Updates | routes/contributions.js:226-246 | the update holds exactly the allowed fields present in the body, with their values |
| ContributionFlow.UpdatedText | routes/contributions.js:259-263 | each String path given in the update takes its cast value; the other paths keep theirs and no path is added or lost |
| ContributionFlow.UpdatedTextOk | routes/contributions.js:259-263 | after `$set` every String path is still trimmed and the e-mail is still non-empty and lower-cased |
| ContributionFlow.Apply | routes/contributions.js:259-263 | the form stays well formed; the text is the updated text; the categories change only when given; consent keeps its value |
| ContributionFlow.Patch | routes/contributions.js:216-273 | 404 iff the user has no profile; a 200 replaces exactly that profile; every other reply leaves the store unchanged |
| ContributionFlow.PatchWith | routes/contributions.js:238-273 | 400 iff nothing is to be copied or the categories are too few; otherwise 500 iff a value fails its cast; a 200 replaces the caller's profile by one that keeps id, owner and creation time, has the updated form and the new time |
| ContributionProperties.SubmitNamesFirstMissing | routes/contributions.js:25-45 | the 400 names the first missing required field and writes nothing |
| ContributionProperties.SubmitNeedsThreeCategories | routes/contributions.js:47-49 | fewer than three categories give 400 and write nothing |
| ContributionProperties.RepeatOnlyAudits | routes/contributions.js:52-124 | a repeat submission keeps the profile, answers 200, allocates a topic and logs an "update-ignored" audit row unless the write fails |
| ContributionProperties.FirstCreatesOneProfile | routes/contributions.js:126-209 | a first submission whose values cast stores exactly one profile, for this user, answers 201 with it, and leaves the topics as the allocation left them |
| ContributionProperties.FirstWritesOneAuditRow | routes/contributions.js:169-189 | the audit row of a first submission carries the stored form, is marked 'contribution-form-create', and is appended unless its write fails |
| ContributionProperties.FailedCastWritesNothing | routes/contributions.js:126-213 | a first submission whose values fail the cast answers 500 and writes nothing |
| ContributionProperties.RecordKeepsInv | routes/contributions.js:62-107 | allocating a topic and recording the audit row keep the topics and the audit log well formed |
| ContributionProperties.SubmitAllocation | routes/contributions.js:62-80 | the confirmation mail names the selected topic and its code; that topic was Incomplete, in a requested category, and is now Allotted |
| ContributionProperties.FaultsDoNotChangeAnswer | routes/contributions.js:62-193 | topic and audit failures are swallowed: the reply does not depend on them |
| ContributionProperties.SubmitKeepsInv | routes/contributions.js:22-214 | a submission keeps profiles, topics and the audit log well formed |
| ContributionProperties.SecondSubmissionKeepsProfile | routes/contributions.js:52-124 | a second submission never overwrites the first profile, and adds at most one audit row |
| ContributionProperties.PatchNeverCopiesConsent | routes/contributions.js:226-246 | consent is not among the fields PATCH copies |
| ContributionProperties.PatchChangesOnlyGivenFields | routes/contributions.js:253-268 | a successful PATCH changes only the given fields and the update time of the caller's profile |
| ContributionProperties.UpdatesApply | routes/contributions.js:226-263 | a String path present in the body takes its cast and an absent one keeps its value; absent categories and consent are kept |
| ContributionProperties.PatchNothingToCopy | routes/contributions.js:248-250 | a body with no allowed field gives 400 and writes nothing |
| ContributionProperties.PatchNeedsThreeCategories | routes/contributions.js:253-257 | fewer than three categories in a PATCH give 400 and write nothing |
| ContributionRoutes.FindMissing | routes/contributions.js:25-45 | the loop finds the first missing required field |
| ContributionRoutes.CollectUpdates | routes/contributions.js:226-246 | the loop copies exactly the allowed fields present in the body |
| ContributionRoutes.HandleMe | routes/contributions.js:12-20 | the reply is the one `Me` prescribes |
| ContributionRoutes.AllocateTopic | routes/contributions.js:62-80 | the topics collection and the selected topic are those `Allocate` prescribes |
| ContributionRoutes.RecordDetail | routes/contributions.js:86-107 | the audit row is appended unless the write fails |
| ContributionRoutes.HandleSubmit | routes/contributions.js:22-214 | the handler's reply, mail and three collections are those `Submit` prescribes for the sampled pick |
| ContributionRoutes.HandlePatch | routes/contributions.js:216-273 | the handler's reply and profiles are those `Patch` prescribes |
| AdminFlow.Populate | routes/admin.js:23-43 | an owner is populated iff the user still exists, with that user's e-mail |
| AdminFlow.ListContributions | routes/admin.js:23-43 | one row per profile, in order, each with its populated owner |
| AdminFlow.ListDetails | routes/admin.js:45-65 | one row per audit row, in order, each with its populated owner |
| AdminFlow.CreateTopic | routes/admin.js:67-89 | 400 iff name or category is missing; 201 adds exactly the trimmed new topic; other replies write nothing |
| AdminFlow.RequestedStatus | routes/admin.js:106-108 | only "Complete" and "Incomplete" are accepted |
| AdminFlow.UpdateStatus | routes/admin.js:101-128 | 400 iff the status is not accepted; 404 for a well-formed unknown id; 200 changes only that topic's status |
| AdminFlow.DeleteTopic | routes/admin.js:130-147 | 500 for a malformed id, 404 for an unknown one, and 200 removes exactly that topic |
| AdminProperties.PlaceholderOnlyForMissingOwners | routes/admin.js:31-36 | the "User deleted" placeholder appears only for owners that no longer exist |
| AdminProperties.DeletedAccountListedAsPlaceholder | routes/admin.js:23-65 | after account deletion that user's rows list the placeholder and other rows are unchanged |
| AdminProperties.CreateTopicKeepsInv | routes/admin.js:67-89 | creating a topic keeps topics well formed |
| AdminProperties.CreatedTopicJoinsPool | routes/admin.js:67-89 | a created topic joins the pool available for allocation |
| AdminProperties.AllottedRequestRefused | routes/admin.js:106-108 | an admin cannot set "Allotted": 400 and nothing written |
| AdminProperties.UpdateStatusWritesDeclared | routes/admin.js:101-128 | a status update writes only a declared status |
| AdminProperties.ResetReturnsAllottedToPool | routes/admin.js:101-128 | resetting an allotted topic to Incomplete returns it to the pool |
| AdminProperties.UpdateStatusOnlyThatTopic | routes/admin.js:110-114 | only the addressed topic changes, and only its status and update time |
| AdminProperties.UpdateStatusKeepsInv | routes/admin.js:101-128 | a status update keeps topics well formed |
| AdminProperties.DeleteTopicKeepsOthers | routes/admin.js:130-147 | deletion removes at most one topic and keeps the rest intact |
| AdminRoutes.HandleCreateTopic | routes/admin.js:67-89 | the handler's reply and topics are those `CreateTopic` prescribes |
| AdminRoutes.HandleUpdateStatus | routes/admin.js:101-128 | the handler's reply and topics are those `UpdateStatus` prescribes |
| AdminRoutes.HandleDeleteTopic | routes/admin.js:130-147 | the handler's reply and topics are those `DeleteTopic` prescribes |
| CookieModel.SessionKey | models/CookiePreference.js:5-10 | the stored session key is trimmed |
| CookieModel.SessionStore.Find | routes/cookies.js:27-28 | finds the preferences stored under the session's key, if any |
| CookieModel.SessionStore.Upsert | routes/cookies.js:71-75 | the upsert sets exactly the session's record |
| CookieFlow.GetSessionId | routes/cookies.js:8-21 | a non-empty cookie is reused; otherwise a fresh id of 32 hex digits decoding to the random bytes is set as a cookie, secure in production |
| CookieFlow.Coerce | routes/cookies.js:62-69 | each flag is on exactly when its value is `true` or `'true'`; an absent essential flag also counts as on |
| CookieFlow.Lookup | routes/cookies.js:24-54 | GET returns the stored preferences, or the schema defaults for an unknown session |
| CookieFlow.Save | routes/cookies.js:57-91 | POST stores the coerced preferences under the session and echoes them |
| CookieProperties.SessionIdReusedOrFresh | routes/cookies.js:8-21 | a cookie is set exactly when none was sent, and it carries the new id |
| CookieProperties.GetAfterSave | routes/cookies.js:24-91 | reading after a save returns what was saved |
| CookieProperties.SaveLeavesOtherSessions | routes/cookies.js:71-75 | a save does not affect other sessions |
| CookieProperties.SaveTwiceKeepsOneRecord | routes/cookies.js:71-75 | saving twice keeps one record per session; the last save wins |
| CookieProperties.EmptyBodyStoresDefaults | routes/cookies.js:62-69 | an empty body stores the defaults; a "yes" string is not accepted as true |
| CookieProperties.UnsavedSessionReadsDefaults | routes/cookies.js:29-38 | an unknown session reads the schema defaults |
| CookieRoutes.HandleGet | routes/cookies.js:24-54 | the handler returns the cookie and preferences `GetSessionId` and `Lookup` prescribe |
| CookieRoutes.HandlePost | routes/cookies.js:57-91 | the handler's reply, cookie and store are those `Save` prescribes |
| BlogModel.NewBlog | models/Blog.js:5-50 | a post is valid iff its required text is present; defaults apply to author, category, date, read time and publication |
| BlogModel.Insert | models/Blog.js:10-15 | a duplicate slug is refused; otherwise the post is appended and slugs stay unique |
| BlogFlow.Matching | routes/blogs.js:10-14 | keeps exactly the published posts of the category ("All" or none means every category), each as many times as it is stored, in store order |
| BlogFlow.Summarize | routes/blogs.js:16-19 | the listing projection keeps id, slug, title, category, date and publication |
| BlogFlow.InsertByDate | routes/blogs.js:16-19 | insertion keeps the newest-first order and adds exactly one element |
| BlogFlow.SortNewestFirst | routes/blogs.js:16-19 | the sort orders newest first and is a permutation of the summaries |
| BlogFlow.ListBlogs | routes/blogs.js:7-26 | the listing is newest first and, as a multiset, is exactly the summaries of the matching posts |
| BlogFlow.FindPublished | routes/blogs.js:29-43 | returns a published post with the slug, or none when no such post exists |
| BlogFlow.BySlug | routes/blogs.js:29-43 | 404 iff no published post has the trimmed slug |
| BlogProperties.ListIsFilteredAndSorted | routes/blogs.js:7-26 | the listing is newest first, its multiset of summaries is that of the matching posts, and each published post of the category is matched as often as it is stored |
| BlogProperties.AllMeansEveryPublished | routes/blogs.js:10-14 | with no category or "All" every published post is listed |
| BlogProperties.UnpublishedHidden | routes/blogs.js:7-43 | unpublished posts appear neither in the listing nor by slug |
| BlogProperties.CreatedBlogFoundBySlug | routes/blogs.js:29-43 | a published post, once inserted, is found by its slug |
| BlogProperties.DefaultsApplied | models/Blog.js:29-50 | the schema defaults are "Research Team", "Research", 5 minutes, published, now |
| MailerConfig.OrDefault | services/mailer.js:298-299 | `v \|\| fallback` on a context value: its string when truthy, the fallback otherwise |
| MailerConfig.DigitPrefix | services/mailer.js:31 | the longest prefix of digits |
| MailerConfig.SmtpHost | services/mailer.js:25-30 | an unset or placeholder host means smtp.gmail.com |
| MailerConfig.Transport | services/mailer.js:7-98 | no transport without SMTP_USER and SMTP_PASS; otherwise the host, credentials and timeouts; outside Brevo the parsed port, secure iff SMTP_SECURE is "true" or the port is 465, and TLS required and lenient exactly for a Gmail host (no `tls` option otherwise); a Brevo host requires TLS with the SSLv3 cipher list and longer timeouts, using port 587 without implicit TLS when SMTP_PORT is unset and the parsed port and computed secure flag when it is set |
| MailerConfig.Subject | services/mailer.js:431 | a configured subject wins over the default |
| MailerConfig.Capitalize | services/mailer.js:300-305 | upper-cases the first letter and keeps the rest |
| MailerConfig.CapitalizeAll | services/mailer.js:300-305 | capitalises every word, in order |
| MailerConfig.ContactEmail | services/mailer.js:297-334 | the contact e-mail fails to build iff the inquiry type is truthy but not a string (`split` throws) |
| MailerConfig.AdminContactEmail | services/mailer.js:504-631 | the admin e-mail fails to build under the same condition |
| Mailer.Route | services/mailer.js:429-502 | Brevo is used iff a key is set and Brevo succeeds; otherwise SMTP if there is a transporter, else nothing is sent |
| Mailer.ContributionEnvelope | services/mailer.js:429-431 | to the recipient, from MAIL_FROM or SMTP_USER, with the configured or default subject |
| Mailer.ContactEnvelope | services/mailer.js:633-636 | the same for the contact confirmation |
| Mailer.AdminEnvelope | services/mailer.js:697-700 | the same for the admin notification |
| Mailer.MailService.constructor | services/mailer.js:4-5 | no transporter yet, not initialised |
| Mailer.MailService.GetTransporter | services/mailer.js:7-13 | the transport is built once from the environment; later calls return the memoised one, even if it was null |
| Mailer.MailService.Deliver | services/mailer.js:429-502 | the outcome is the route; Brevo leaves the memo alone, and falling back initialises it |
| Mailer.MailService.Send | services/mailer.js:633-695 | a body that fails to build sends nothing and leaves the memo alone; otherwise delivery as `Deliver` |
| MailerProperties.ParseIntOfNumeral | services/mailer.js:31 | `parseInt` of a decimal numeral is its value |
| MailerProperties.DefaultPort | services/mailer.js:31 | an unset SMTP_PORT means port 587 |
| MailerProperties.PlaceholderHostMeansGmail | services/mailer.js:25-56 | a placeholder host becomes Gmail, which requires TLS |
| MailerProperties.ImplicitTlsPortIsSecure | services/mailer.js:31-32 | SMTP_PORT "465" gives port 465 with implicit TLS, for every host including Brevo |
| MailerProperties.DefaultPortIsStartTls | services/mailer.js:31-32 | without SMTP_PORT and without SMTP_SECURE "true", every host, Brevo included, is reached on port 587 without implicit TLS |
| MailerProperties.LabelLength | services/mailer.js:300-305 | the label keeps the inquiry type's length |
| MailerProperties.LabelOfGeneralInquiry | services/mailer.js:300-305 | "general-inquiry" is labelled "General Inquiry" |
| MailerProperties.LabelWords | services/mailer.js:300-305 | the label's words are the capitalised pieces of the inquiry type |
| MailerProperties.JoinContains | services/mailer.js:321 | every line appears in the joined text |
| MailerProperties.ContactTextMentions | services/mailer.js:297-334 | the text greets the visitor by name (or "Valued Visitor") and names the labelled inquiry type |
| MailerProperties.AdminTextMentions | services/mailer.js:504-631 | the admin text names the visitor, e-mail, labelled inquiry type and message, with their defaults |
| MailerProperties.BrevoFirst | services/mailer.js:433-456 | with a key and a working Brevo, Brevo is used |
| MailerProperties.SmtpFallback | services/mailer.js:459-501 | otherwise SMTP is used when a transporter exists |
| ContactFlow.Confirmation | routes/contact.js:26-34 | the confirmation goes to the visitor's e-mail with the contact content |
| ContactFlow.Notification | routes/contact.js:37-50 | the notification goes to the admin address with the admin content |
| ContactFlow.Mails | routes/contact.js:25-50 | the confirmation first, then the notification iff ADMIN_EMAIL or SMTP_USER is set |
| ContactFlow.Submit | routes/contact.js:7-67 | 400 iff a field is missing; 500 when the store fails; otherwise 201 with the stored message echoed and the mails planned |
| ContactProperties.MissingFieldStoresNothing | routes/contact.js:14-16 | any missing field gives 400, stores nothing and sends nothing |
| ContactProperties.AcceptedStoredOnceAndEchoed | routes/contact.js:18-62 | an accepted message is stored once and echoed |
| ContactProperties.ConfirmationBeforeNotification | routes/contact.js:25-50 | the visitor's confirmation is sent before the admin notification |
| ContactProperties.NotificationRecipient | routes/contact.js:37-40 | the notification goes to ADMIN_EMAIL, else SMTP_USER |
| ContactProperties.ConfirmationNamesVisitor | routes/contact.js:26-34 | the confirmation greets the visitor and names the inquiry |
| ContactRoutes.ContactInbox.Create | routes/contact.js:18-23 | the message is appended |
| ContactRoutes.Notify | routes/contact.js:25-50 | every planned mail is attempted in order; a mail fails to build iff its content does not build |
| ContactRoutes.Accept | routes/contact.js:14-23 | the reply and inbox are those `Submit` prescribes |
| ContactRoutes.HandleContact | routes/contact.js:7-67 | the reply, inbox and mails attempted are those `Submit` prescribes; mail failures do not change the reply |

## Left out

- HTML bodies of every e-mail are left out, and so is the Hindi prose of the contribution
  confirmation (`buildContributionEmail`, services/mailer.js:100-295). Only the envelope and the
  topic fields of that mail are modelled. The contact e-mails are modelled as plain text.
- `sendEmailViaBrevo` (services/mailer.js:337-427) is an HTTPS request. It becomes an oracle bit
  `brevoOk`; the 30-second race against a timer is folded into that bit.
- SMTP delivery, `transporter.verify` and a throwing `createTransport` (services/mailer.js:73-95)
  are left out. The SMTP result is the oracle bit `smtpOk`.
- The log output (`console.*`) is left out.
- MailerConfig.Capitalize: `toUpperCase` is modelled for ASCII letters only. Other letters are
  kept as they are.
- ContactMessage: the model file is not part of this model. Its fields are stored as sent, with
  no schema casts.
- Tokens.CreateToken: issues a token whenever JWT_SECRET is set. `jwt.sign` also throws when
  JWT_EXPIRES_IN is set to text that is neither a number nor a timespan (such as "abc"). The model
  does not capture the 500 that the callers then answer: after `User.create` in signup
  (routes/auth.js:46, the user stays stored), at login (routes/auth.js:81), and after the user is
  created and the OTP record deleted in OTP verification (routes/otp.js:171). In those cases the
  model answers 201 or 200 with a token instead.
- bcrypt hashing and comparison, `jwt.sign` and `jwt.verify` are left out. Each is a parameter:
  a hash string, a match bit, a symbolic token, a verdict.
- `sendOTPEmail` is not part of this model. The OTP routes take an `OtpMailer` that is either
  bound or unbound.
- `Math.random`, `crypto.randomBytes`, MongoDB's `$sample`, ObjectId generation and the clock
  are all parameters.
- Generic database failures are mostly not modelled. Only these failures are:
  - the contribution topic claim and audit writes (swallowed by the route);
  - the contact store;
  - the uniqueness errors of the OTP user creation.

  Every other `catch` that answers 500 is not modelled.
- Requests run one at a time. Concurrent handlers, and the lack of a transaction around a
  topic claim, are not modelled.
- TopicModel.Allocate: when the claim fails, the sampled topic is still reported as selected.
  This is what the route does too. Across such a run `AtMostOncePerTopic` only speaks of the
  topics actually claimed.
- A Mongoose filter whose value is an array is cast to `$in`. The model treats such a value in a
  request body as a cast error (500). The route would answer from the records matching any
  element instead.
- MongoDB query operators in a filter value are not modelled. Mongoose casts a body or cookie
  value such as `{"$ne": ""}` as an operator, not as a string, and the filter then matches records
  other than the one named. The model's String cast refuses such an object (500), or the model
  cannot express the request at all. The next six lines name the members that therefore do not
  capture that the route's binding to one session, user or category can be bypassed.
- OtpFlow.Verify: a `sessionId` of `{"$ne": ""}` (routes/otp.js:123) finds any pending record
  of the e-mail, so the right code for another session of that e-mail creates the account; the
  model answers 500.
- OtpFlow.Resend: a `sessionId` of `{"$ne": ""}` (routes/otp.js:208) renews any pending record of
  the e-mail; the model answers 500.
- AuthFlow.Signup: an `email` of `{"$ne": null}` (routes/auth.js:35) finds any stored user, so the
  route answers 409 on a non-empty store; the model answers 500. (`/send` lower-cases the e-mail
  first, routes/otp.js:53, which throws on an object, so `OtpFlow.Send` answers 500 as the route does.)
- AuthFlow.Login: an `email` of `{"$ne": null}` (routes/auth.js:71) finds an arbitrary user, whose
  password hash is then compared with the given password; the model answers 500.
- CookieFlow.GetSessionId: the cookie is a string here. cookie-parser (app.js:33) turns a cookie
  starting with `j:` into JSON, so `j:{"$ne":null}` reads or overwrites another session's
  preferences (routes/cookies.js:27, :70-71).
- BlogFlow.Matching: the category is a single string or absent. `?category[$ne]=x`
  (routes/blogs.js:12-13) lists the published posts of every other category, and a repeated
  `?category=a&category=b` arrives as an array that Mongoose casts to `$in`, listing the posts of
  any of them. The model cannot express either request.
- Strings.NormalizeEmail: lower-cases ASCII letters only. JavaScript's `toLowerCase` and Mongoose's
  `lowercase` setter fold every Unicode letter, and a few of them (such as `İ`) grow longer. So
  `AuthProperties.SignupTwiceConflicts` covers only addresses that differ in ASCII case and white
  space; two addresses that differ only in the case of a non-ASCII letter are not related.
- Json.Num holds an integer. Fractional numbers, JavaScript's rendering of large numbers
  (`"1e+21"`) and the loss of precision above 2^53 are not modelled.
- The listing sort orders are not modelled, except the newest-first blog listing.
  GET /repositories and GET /contact-messages are plain reads with `createdAt` sorts.
- Deleting an account leaves its contributions and audit rows in place, as the route does. The
  admin listings then show the "User deleted" placeholder.
- The TTL index is modelled as `OtpModel.OtpCollection.Reap`, taken at an arbitrary instant.
  MongoDB's reaper runs about once a minute.
- The OTP router (routes/otp.js) is not mounted in app.js. It is modelled as written.
- `routes/youtube.js` and the blog comment and like models lie outside the core.

## Findings

| source | as written | input that shows it | evidently intended | confidence | as-written member | corrected member |
|---|---|---|---|---|---|---|
| routes/otp.js:7, routes/otp.js:89-92, services/mailer.js:761-765 | `sendOTPEmail` is imported from services/mailer.js, which does not export it, so the call throws a TypeError after the OTP record was written; `/send` answers 500 and leaves the record behind (the same holds for `/resend` at routes/otp.js:233) | `{"email": "a@x.com", "password": "pw123456"}` on an empty store | the code e-mail is sent and `/send` answers 200 with the session id | not executed | OtpProperties.SendAsImportedNeverSucceeds | OtpProperties.ScenarioSend |
