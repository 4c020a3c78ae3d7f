/**
 * POST /api/contact (routes/contact.js): a visitor's message is validated and stored, then
 * a confirmation goes to the visitor and a notification to the admin address, each on a
 * best-effort basis. models/ContactMessage.js is not part of this model: a stored message
 * keeps the four values as they were sent, and whether `create` fails is a parameter.
 */
module ContactFlow {
  import opened Wrappers
  import opened Json
  import opened Config
  import opened Messages
  import opened MailerConfig
  import opened Mailer

  datatype ContactMessage = ContactMessage(id: string, name: Value, email: Value, inquiryType: Value,
                                           message: Value, createdAt: nat)

  datatype ContactReply =
    | Refused(status: int, message: Message)
    | Received(status: int, message: Message, contact: ContactMessage)

  /** A mail the handler asks the mailer to send: its envelope and its built content (None: the builder throws). */
  datatype Planned = Planned(envelope: Envelope, content: Option<Content>)

  datatype ContactStep = ContactStep(reply: ContactReply, rows: seq<ContactMessage>, mails: seq<Planned>)

  /** `!name || !email || !message || !inquiryType` is false. */
  predicate Complete(body: Body) {
    Truthy(Get(body, "name")) && Truthy(Get(body, "email")) && Truthy(Get(body, "message"))
    && Truthy(Get(body, "inquiryType"))
  }

  /** `process.env.ADMIN_EMAIL || process.env.SMTP_USER`. */
  function AdminAddress(env: Env): Option<string> {
    FirstSet(env, "ADMIN_EMAIL", "SMTP_USER")
  }

  /** The visitor's confirmation, addressed to the submitted email with the name and inquiry type. */
  function Confirmation(body: Body, env: Env): (p: Planned)
    ensures p.envelope == ContactEnvelope(env, Get(body, "email"))
    ensures p.content == ContactEmail(Get(body, "name"), Get(body, "inquiryType"))
  {
    Planned(ContactEnvelope(env, Get(body, "email")), ContactEmail(Get(body, "name"), Get(body, "inquiryType")))
  }

  /** The admin's notification, carrying all four fields. */
  function Notification(body: Body, env: Env, admin: string): (p: Planned)
    ensures p.envelope == AdminEnvelope(env, admin)
    ensures p.content == AdminContactEmail(Get(body, "name"), Get(body, "email"), Get(body, "inquiryType"), Get(body, "message"))
  {
    Planned(AdminEnvelope(env, admin),
            AdminContactEmail(Get(body, "name"), Get(body, "email"), Get(body, "inquiryType"), Get(body, "message")))
  }

  /** The mails after a stored message: the confirmation, then the notification when there is an admin address. */
  function Mails(body: Body, env: Env): (r: seq<Planned>)
    ensures 1 <= |r| <= 2 && r[0] == Confirmation(body, env)
    ensures |r| == 2 <==> AdminAddress(env).Some?
    ensures |r| == 2 ==> r[1] == Notification(body, env, AdminAddress(env).value)
  {
    var admin := AdminAddress(env);
    if admin.Some? then [Confirmation(body, env), Notification(body, env, admin.value)]
    else [Confirmation(body, env)]
  }

  /** The whole request: validation, the store write (which may fail: 500), the mails and the reply. */
  function Submit(rows: seq<ContactMessage>, body: Body, env: Env, id: string, now: nat, storeFails: bool): (r: ContactStep)
    ensures !Complete(body) ==> r == ContactStep(Refused(400, AllFieldsRequired), rows, [])
    ensures Complete(body) && storeFails ==> r == ContactStep(Refused(500, SubmitMessageFailed), rows, [])
    ensures Complete(body) && !storeFails ==>
              r.reply.Received? && r.reply.status == 201 && r.reply.message == MessageReceived
              && r.rows == rows + [r.reply.contact] && r.mails == Mails(body, env)
  {
    if !Complete(body) then ContactStep(Refused(400, AllFieldsRequired), rows, [])
    else if storeFails then ContactStep(Refused(500, SubmitMessageFailed), rows, [])
    else
      var stored := ContactMessage(id, Get(body, "name"), Get(body, "email"), Get(body, "inquiryType"),
                                   Get(body, "message"), now);
      ContactStep(Received(201, MessageReceived, stored), rows + [stored], Mails(body, env))
  }
}

module ContactProperties {
  import opened Wrappers
  import opened Json
  import opened Config
  import opened Messages
  import opened MailerConfig
  import opened Mailer
  import opened ContactFlow
  import MailerProperties
  import Strings

  /** A missing field is refused with 400, before anything is stored or sent. */
  lemma MissingFieldStoresNothing(rows: seq<ContactMessage>, body: Body, env: Env, id: string, now: nat, storeFails: bool,
                                  field: string)
    requires field in ["name", "email", "message", "inquiryType"] && !Truthy(Get(body, field))
    ensures var r := Submit(rows, body, env, id, now, storeFails);
            r.reply == Refused(400, AllFieldsRequired) && r.rows == rows && r.mails == []
  {
    assert !Complete(body);
  }

  /** An accepted message is stored exactly once, and the reply echoes what was stored. */
  lemma AcceptedStoredOnceAndEchoed(rows: seq<ContactMessage>, body: Body, env: Env, id: string, now: nat)
    requires Complete(body)
    ensures var r := Submit(rows, body, env, id, now, false);
            && |r.rows| == |rows| + 1 && r.rows[..|rows|] == rows
            && r.reply.contact == r.rows[|rows|]
            && r.reply.contact == ContactMessage(id, Get(body, "name"), Get(body, "email"), Get(body, "inquiryType"),
                                                 Get(body, "message"), now)
  {
    var r := Submit(rows, body, env, id, now, false);
    assert r.rows[..|rows|] == rows;
  }

  /** The visitor's confirmation is always the first mail, to the address they gave. */
  lemma ConfirmationBeforeNotification(rows: seq<ContactMessage>, body: Body, env: Env, id: string, now: nat)
    requires Complete(body)
    ensures var m := Submit(rows, body, env, id, now, false).mails;
            m[0].envelope.to == Get(body, "email")
            && m[0].envelope.subject == Subject(env, "CONTACT_MAIL_SUBJECT", ContactSubject)
            && forall i :: 0 < i < |m| ==> m[i].envelope.subject == Subject(env, "ADMIN_CONTACT_MAIL_SUBJECT", AdminContactSubject)
  {
  }

  /** The notification goes to `ADMIN_EMAIL`, else to `SMTP_USER`, and is not sent when neither is set. */
  lemma NotificationRecipient(rows: seq<ContactMessage>, body: Body, env: Env, id: string, now: nat)
    requires Complete(body)
    ensures var m := Submit(rows, body, env, id, now, false).mails;
            && (IsSet(env, "ADMIN_EMAIL") ==> |m| == 2 && m[1].envelope.to == Str(env["ADMIN_EMAIL"]))
            && (!IsSet(env, "ADMIN_EMAIL") && IsSet(env, "SMTP_USER") ==> |m| == 2 && m[1].envelope.to == Str(env["SMTP_USER"]))
            && (!IsSet(env, "ADMIN_EMAIL") && !IsSet(env, "SMTP_USER") ==> |m| == 1)
  {
  }

  /** The confirmation greets the visitor by the submitted name and names the inquiry. */
  lemma ConfirmationNamesVisitor(body: Body, env: Env)
    requires Complete(body) && Get(body, "inquiryType").Str?
    ensures var c := Confirmation(body, env).content;
            c.Some? && Strings.Contains(c.value.Text(), "Dear " + JsText(Get(body, "name")) + ",")
  {
    MailerProperties.ContactTextMentions(Get(body, "name"), Get(body, "inquiryType"));
  }
}

/** The handler, run against the stored messages and the mail service. */
module ContactRoutes {
  import opened Wrappers
  import opened Json
  import opened Config
  import opened MailerConfig
  import opened Mailer
  import opened ContactFlow

  /** The ContactMessage collection. */
  class ContactInbox {
    var rows: seq<ContactMessage>

    constructor ()
      ensures rows == []
    {
      rows := [];
    }

    /** `ContactMessage.create(...)`. */
    method Create(m: ContactMessage)
      modifies this
      ensures rows == old(rows) + [m]
    {
      rows := rows + [m];
    }
  }

  /** What happened to one mail. */
  datatype Sent = Sent(mail: Planned, outcome: Outcome)

  /** The mails a run of sends attempted, in order. */
  function Attempted(sent: seq<Sent>): (r: seq<Planned>)
    ensures |r| == |sent| && forall i :: 0 <= i < |sent| ==> r[i] == sent[i].mail
  {
    seq(|sent|, i requires 0 <= i < |sent| => sent[i].mail)
  }

  /** One send through the mailer, recorded with the mail it was for. */
  method Attempt(mailer: MailService, env: Env, mail: Planned, net: Network) returns (s: Sent)
    requires mailer.Valid()
    modifies mailer
    ensures mailer.Valid()
    ensures s.mail == mail
    ensures s.outcome == BuildFailed <==> mail.content.None?
  {
    var o := mailer.Send(env, mail.content, net);
    s := Sent(mail, o);
  }

  /**
   * The sends after a message is stored, one after the other in the given order (the
   * confirmation, then the notification when there is one). None of them can throw.
   */
  method Notify(mailer: MailService, env: Env, mails: seq<Planned>, userNet: Network, adminNet: Network)
    returns (sent: seq<Sent>)
    requires 1 <= |mails| <= 2 && mailer.Valid()
    modifies mailer
    ensures mailer.Valid()
    ensures Attempted(sent) == mails
    ensures sent[0].outcome == BuildFailed <==> mails[0].content.None?
    ensures |sent| == 2 ==> (sent[1].outcome == BuildFailed <==> mails[1].content.None?)
  {
    var first := Attempt(mailer, env, mails[0], userNet);
    if |mails| == 2 {
      var second := Attempt(mailer, env, mails[1], adminNet);
      sent := [first, second];
      assert Attempted(sent) == [mails[0], mails[1]];
    } else {
      sent := [first];
      assert Attempted(sent) == [mails[0]];
    }
  }

  /** Validation and the store write: the reply before any mail is sent. */
  method Accept(inbox: ContactInbox, body: Body, env: Env, id: string, now: nat, storeFails: bool)
    returns (reply: ContactReply)
    modifies inbox
    ensures reply == Submit(old(inbox.rows), body, env, id, now, storeFails).reply
    ensures inbox.rows == Submit(old(inbox.rows), body, env, id, now, storeFails).rows
    ensures reply.Received? <==> Complete(body) && !storeFails
  {
    if !Complete(body) {
      return Refused(400, Messages.AllFieldsRequired);
    }
    if storeFails {
      return Refused(500, Messages.SubmitMessageFailed);
    }
    var stored := ContactMessage(id, Get(body, "name"), Get(body, "email"), Get(body, "inquiryType"),
                                 Get(body, "message"), now);
    inbox.Create(stored);
    reply := Received(201, Messages.MessageReceived, stored);
  }

  /**
   * The POST handler. The reply and the store are the specification's whatever the mails
   * do; the mails are attempted in the specification's order, each through the mailer,
   * and the two network outcomes only decide how each attempt ends.
   */
  method HandleContact(inbox: ContactInbox, mailer: MailService, body: Body, env: Env, id: string, now: nat,
                       storeFails: bool, userNet: Network, adminNet: Network)
    returns (reply: ContactReply, sent: seq<Sent>)
    requires mailer.Valid()
    modifies inbox, mailer
    ensures mailer.Valid()
    ensures ContactStep(reply, inbox.rows, Attempted(sent)) == Submit(old(inbox.rows), body, env, id, now, storeFails)
    ensures sent == [] ==> mailer.transporter == old(mailer.transporter) && mailer.initialized == old(mailer.initialized)
  {
    ghost var expected := Submit(inbox.rows, body, env, id, now, storeFails);
    reply := Accept(inbox, body, env, id, now, storeFails);
    if reply.Received? {
      sent := Notify(mailer, env, Mails(body, env), userNet, adminNet);
    } else {
      sent := [];
      assert Attempted(sent) == [];
    }
  }
}
