/**
 * The pure part of services/mailer.js: how the SMTP transport is configured from the
 * environment, who a mail is from and what its subject is, and the text of the contact
 * confirmation and of the admin notification (the inquiry tag and the defaults).
 */
module MailerConfig {
  import opened Wrappers
  import opened Strings
  import opened Json
  import opened Config

  // ---------------------------------------------------------------------------
  // JavaScript conversions the builders rely on

  /** `String(v)`, as string concatenation renders a value. */
  function JsText(v: Value): string
    decreases v, 0
  {
    match v
    case Undefined => "undefined"
    case Null => "null"
    case Bool(b) => if b then "true" else "false"
    case Num(n) => IntToDecimal(n)
    case Str(s) => s
    case Arr(items) =>
      if |items| == 0 then ""
      else Join(seq(|items|, i requires 0 <= i < |items| => ItemText(items[i])), ',')
    case Obj(_) => "[object Object]"
  }

  /** An array element inside `Array.prototype.join`: `null` and `undefined` render as ''. */
  function ItemText(v: Value): string
    decreases v, 1
  {
    if v.Undefined? || v.Null? then "" else JsText(v)
  }

  /** `v || fallback` where the result is then used as text. */
  function OrDefault(v: Value, fallback: string): (r: string)
    ensures Truthy(v) ==> r == JsText(v)
    ensures !Truthy(v) ==> r == fallback
  {
    if Truthy(v) then JsText(v) else fallback
  }

  /** `parseInt(s, 10)`: optional white space and sign, then the longest run of digits; None is NaN. */
  function ParseInt(s: string): (r: Option<int>)
  {
    var t := TrimStart(s);
    var negative := t != [] && t[0] == '-';
    var unsigned := if t != [] && (t[0] == '-' || t[0] == '+') then t[1..] else t;
    var digits := DigitPrefix(unsigned);
    if digits == [] then None
    else if negative then Some(-(DecimalValue(digits) as int))
    else Some(DecimalValue(digits) as int)
  }

  /** The longest prefix of digits. */
  function DigitPrefix(s: string): (r: string)
    ensures IsDigits(r) && StartsWith(s, r)
    ensures |r| < |s| ==> !IsDigit(s[|r|])
  {
    if s == [] || !IsDigit(s[0]) then []
    else
      var rest := DigitPrefix(s[1..]);
      assert s == [s[0]] + s[1..];
      [s[0]] + rest
  }

  // ---------------------------------------------------------------------------
  // getTransporter's configuration

  /** The `tls` option: absent, lenient certificates, or lenient certificates with the SSLv3 cipher list. */
  datatype Tls = DefaultTls | Lenient | LenientSslV3

  datatype TransportConfig = TransportConfig(host: string, port: Option<int>, secure: bool,
                                             user: string, pass: string,
                                             connectionTimeout: nat, socketTimeout: nat, greetingTimeout: nat,
                                             requireTls: bool, tls: Tls)

  const GmailHost: string := "smtp.gmail.com"
  const DefaultPortText: string := "587"
  const BrevoPort: int := 587
  const ImplicitTlsPort: int := 465
  const DefaultTimeoutMs: nat := 10000
  const BrevoTimeoutMs: nat := 30000

  /** A host the code takes for a placeholder: unset, containing 'yourprovider' or 'example', or blank. */
  predicate PlaceholderHost(host: Option<string>) {
    host.None? || host.value == "" || Contains(host.value, "yourprovider") || Contains(host.value, "example")
    || Trim(host.value) == ""
  }

  /** The SMTP host: `SMTP_HOST`, or Gmail's when that is a placeholder. */
  function SmtpHost(env: Env): (host: string)
    ensures PlaceholderHost(Var(env, "SMTP_HOST")) ==> host == GmailHost
    ensures !PlaceholderHost(Var(env, "SMTP_HOST")) ==> host == env["SMTP_HOST"]
  {
    var h := Var(env, "SMTP_HOST");
    if PlaceholderHost(h) then GmailHost else h.value
  }

  /** `parseInt(process.env.SMTP_PORT || '587', 10)`. */
  function SmtpPort(env: Env): Option<int> {
    ParseInt(if IsSet(env, "SMTP_PORT") then env["SMTP_PORT"] else DefaultPortText)
  }

  predicate IsBrevoHost(host: string) {
    Contains(host, "brevo.com") || Contains(host, "sendinblue")
  }

  /**
   * The options `createTransport` receives, or None (`null`) when `SMTP_USER` or `SMTP_PASS`
   * is unset: secure when `SMTP_SECURE` is 'true' or the port is 465; a Gmail host requires
   * TLS with lenient certificates; a Brevo host requires TLS with the SSLv3 cipher list,
   * longer timeouts, and port 587 without implicit TLS when `SMTP_PORT` is unset.
   */
  function Transport(env: Env): (r: Option<TransportConfig>)
    ensures r.None? <==> !IsSet(env, "SMTP_USER") || !IsSet(env, "SMTP_PASS")
    ensures r.Some? ==> r.value.host == SmtpHost(env) && r.value.user == env["SMTP_USER"] && r.value.pass == env["SMTP_PASS"]
    ensures r.Some? && !IsBrevoHost(r.value.host) ==>
              && r.value.port == SmtpPort(env)
              && (r.value.secure <==> Var(env, "SMTP_SECURE") == Some("true") || SmtpPort(env) == Some(ImplicitTlsPort))
              && r.value.connectionTimeout == DefaultTimeoutMs == r.value.socketTimeout
              && (r.value.requireTls <==> Contains(r.value.host, "gmail.com"))
              && r.value.tls == (if Contains(r.value.host, "gmail.com") then Lenient else DefaultTls)
    ensures r.Some? && IsBrevoHost(r.value.host) ==>
              && r.value.requireTls && r.value.tls == LenientSslV3
              && r.value.connectionTimeout == BrevoTimeoutMs == r.value.socketTimeout
              && (!IsSet(env, "SMTP_PORT") ==> r.value.port == Some(BrevoPort) && !r.value.secure)
              && (IsSet(env, "SMTP_PORT") ==>
                    && r.value.port == SmtpPort(env)
                    && (r.value.secure <==> Var(env, "SMTP_SECURE") == Some("true") || SmtpPort(env) == Some(ImplicitTlsPort)))
    ensures r.Some? ==> r.value.greetingTimeout == DefaultTimeoutMs
  {
    if !IsSet(env, "SMTP_USER") || !IsSet(env, "SMTP_PASS") then None
    else
      var host := SmtpHost(env);
      var port := SmtpPort(env);
      var secure := Var(env, "SMTP_SECURE") == Some("true") || port == Some(ImplicitTlsPort);
      var gmail := Contains(host, "gmail.com");
      var brevo := IsBrevoHost(host);
      var keepPort := !brevo || IsSet(env, "SMTP_PORT");
      Some(TransportConfig(host,
                           if keepPort then port else Some(BrevoPort),
                           if keepPort then secure else false,
                           env["SMTP_USER"], env["SMTP_PASS"],
                           if brevo then BrevoTimeoutMs else DefaultTimeoutMs,
                           if brevo then BrevoTimeoutMs else DefaultTimeoutMs,
                           DefaultTimeoutMs,
                           gmail || brevo,
                           if brevo then LenientSslV3 else if gmail then Lenient else DefaultTls))
  }

  // ---------------------------------------------------------------------------
  // Sender, subjects and the contact templates

  /** `process.env.MAIL_FROM || process.env.SMTP_USER`. */
  function From(env: Env): Option<string> {
    FirstSet(env, "MAIL_FROM", "SMTP_USER")
  }

  /** `process.env[name] || fallback`. */
  function Subject(env: Env, name: string, fallback: string): (r: string)
    ensures IsSet(env, name) ==> r == env[name]
    ensures !IsSet(env, name) ==> r == fallback
  {
    if IsSet(env, name) then env[name] else fallback
  }

  /** `word.charAt(0).toUpperCase() + word.slice(1)`. */
  function Capitalize(w: string): (r: string)
    ensures |r| == |w|
    ensures w != [] ==> r[0] == UpperChar(w[0]) && r[1..] == w[1..]
  {
    if w == [] then [] else [UpperChar(w[0])] + w[1..]
  }

  function CapitalizeAll(words: seq<string>): (r: seq<string>)
    ensures |r| == |words|
    ensures forall i :: 0 <= i < |words| ==> r[i] == Capitalize(words[i])
  {
    seq(|words|, i requires 0 <= i < |words| => Capitalize(words[i]))
  }

  /** The inquiry tag: split on '-', each word capitalised, joined with single spaces. */
  function Label(inquiryType: string): string {
    Join(CapitalizeAll(Split(inquiryType, '-')), ' ')
  }

  /**
   * A mail body the builders produce, as its lines (the HTML variant carries the same
   * fields); the plain text sent is the lines joined with '\n'.
   */
  datatype Content = Content(lines: seq<string>)
  {
    function Text(): string {
      if lines == [] then "" else Join(lines, '\n')
    }
  }

  // The fixed lines of the two plain-text templates.
  const ThanksLine: string := "Thank you for contacting the Brahmarishi Vishwamitra Research Center."
  const ReceivedPrefix: string := "We have received your "
  const ReceivedSuffix: string := " inquiry and appreciate you reaching out to us."
  const ReviewLine: string := "Our team will review your message and get back to you as soon as possible."
  const UrgentLine: string := "If you have any urgent questions, please feel free to contact us directly."
  const RegardsLine: string := "Warm regards,"
  const CenterName: string := "Brahmarishi Vishwamitra Research Center"
  const AdminTitle: string := "New Contact Form Submission"
  const AdminIntro: string := "A new contact form submission has been received:"
  const AdminClosing: string := "Please review and respond to this inquiry as soon as possible."

  function ContactLines(name: string, tag: string): seq<string> {
    ["Dear " + name + ",", "", ThanksLine, ReceivedPrefix + tag + ReceivedSuffix, "", ReviewLine, "", UrgentLine, "",
     RegardsLine, CenterName]
  }

  /**
   * `buildContactEmail({ name, inquiryType })`: the name defaults to 'Valued Visitor', the
   * inquiry type to 'inquiry'; an inquiry type that is not a string has no `split` and the
   * call throws (None).
   */
  function ContactEmail(name: Value, inquiryType: Value): (r: Option<Content>)
    ensures r.None? <==> Truthy(inquiryType) && !inquiryType.Str?
  {
    if Truthy(inquiryType) && !inquiryType.Str? then None
    else Some(Content(ContactLines(OrDefault(name, "Valued Visitor"), Label(OrDefault(inquiryType, "inquiry")))))
  }

  function AdminLines(name: string, email: string, tag: string, message: string): seq<string> {
    [AdminTitle, "", AdminIntro, "", "Name: " + name, "Email: " + email, "Inquiry Type: " + tag, "Message:", message, "",
     AdminClosing]
  }

  /**
   * `buildAdminContactEmail({ name, email, inquiryType, message })`, with the defaults
   * 'Unknown', 'No email provided', 'inquiry' and 'No message provided'.
   */
  function AdminContactEmail(name: Value, email: Value, inquiryType: Value, message: Value): (r: Option<Content>)
    ensures r.None? <==> Truthy(inquiryType) && !inquiryType.Str?
  {
    if Truthy(inquiryType) && !inquiryType.Str? then None
    else Some(Content(AdminLines(OrDefault(name, "Unknown"), OrDefault(email, "No email provided"),
                                      Label(OrDefault(inquiryType, "inquiry")), OrDefault(message, "No message provided"))))
  }
}

/**
 * The stateful part of services/mailer.js: the module-level transporter, created on first
 * use and then kept, and the send functions, which try the Brevo HTTP API first when a key
 * is set and fall back to SMTP, and never throw. The network is an outcome the caller
 * supplies.
 */
module Mailer {
  import opened Wrappers
  import opened Strings
  import opened Json
  import opened Config
  import opened MailerConfig

  /** What the network does with one send: whether the Brevo call and the SMTP call would succeed. */
  datatype Network = Network(brevoOk: bool, smtpOk: bool)

  /** How a send ended; none of them is an exception. */
  datatype Outcome = ViaBrevo | ViaSmtp | NoTransport | SmtpFailed | BuildFailed

  /** A mail one of the send functions prepares. */
  datatype Mail = Mail(to: Value, from: Option<string>, subject: string, content: Content)

  /** The path a send takes, given the transporter the SMTP fallback would get. */
  function Route(env: Env, net: Network, transporter: Option<TransportConfig>): (o: Outcome)
    ensures o == ViaBrevo <==> IsSet(env, "BREVO_API_KEY") && net.brevoOk
    ensures o == NoTransport ==> transporter.None?
    ensures o == ViaSmtp ==> transporter.Some? && net.smtpOk
  {
    if IsSet(env, "BREVO_API_KEY") && net.brevoOk then ViaBrevo
    else if transporter.None? then NoTransport
    else if net.smtpOk then ViaSmtp
    else SmtpFailed
  }

  /** Who a mail goes to, who it is from, and its subject. */
  datatype Envelope = Envelope(to: Value, from: Option<string>, subject: string)

  const ContributionSubject: string := "Thank you for your contribution submission"
  const ContactSubject: string := "Thank you for contacting us"
  const AdminContactSubject: string := "New Contact Form Submission"

  /** `sendContributionConfirmation`'s sender and subject (`CONTRIBUTION_MAIL_SUBJECT` or the default). */
  function ContributionEnvelope(env: Env, to: Value): (e: Envelope)
    ensures e.to == to && e.from == From(env)
    ensures e.subject == Subject(env, "CONTRIBUTION_MAIL_SUBJECT", ContributionSubject)
  {
    Envelope(to, From(env), Subject(env, "CONTRIBUTION_MAIL_SUBJECT", ContributionSubject))
  }

  /** `sendContactConfirmation`'s sender and subject (`CONTACT_MAIL_SUBJECT` or the default). */
  function ContactEnvelope(env: Env, to: Value): (e: Envelope)
    ensures e.to == to && e.from == From(env)
    ensures e.subject == Subject(env, "CONTACT_MAIL_SUBJECT", ContactSubject)
  {
    Envelope(to, From(env), Subject(env, "CONTACT_MAIL_SUBJECT", ContactSubject))
  }

  /** `sendAdminContactNotification`'s sender and subject (`ADMIN_CONTACT_MAIL_SUBJECT` or the default). */
  function AdminEnvelope(env: Env, to: string): (e: Envelope)
    ensures e.to == Str(to) && e.from == From(env)
    ensures e.subject == Subject(env, "ADMIN_CONTACT_MAIL_SUBJECT", AdminContactSubject)
  {
    Envelope(Str(to), From(env), Subject(env, "ADMIN_CONTACT_MAIL_SUBJECT", AdminContactSubject))
  }

  /** The module's `transporter` and `transporterInitialized`. */
  class MailService {
    var transporter: Option<TransportConfig>
    var initialized: bool

    ghost predicate Valid()
      reads this
    {
      !initialized ==> transporter.None?
    }

    constructor ()
      ensures Valid() && !initialized
    {
      transporter := None;
      initialized := false;
    }

    /**
     * `getTransporter()`: the first call builds the transporter from the environment (or
     * `null`) and records that it did; every later call returns that same value, whatever
     * the environment then holds.
     */
    method GetTransporter(env: Env) returns (t: Option<TransportConfig>)
      requires Valid()
      modifies this
      ensures Valid() && initialized
      ensures old(initialized) ==> t == old(transporter) && transporter == old(transporter)
      ensures !old(initialized) ==> t == Transport(env) && transporter == t
    {
      if initialized {
        return transporter;
      }
      initialized := true;
      transporter := Transport(env);
      t := transporter;
    }

    /**
     * One of the `send*` functions once its content is built: Brevo first when
     * `BREVO_API_KEY` is set; on its failure, or without a key, the SMTP transporter, which
     * is only then initialised; any failure is swallowed.
     */
    method Deliver(env: Env, net: Network) returns (o: Outcome)
      requires Valid()
      modifies this
      ensures Valid()
      ensures o == ViaBrevo ==> transporter == old(transporter) && initialized == old(initialized)
      ensures o != ViaBrevo ==> initialized
      ensures o != ViaBrevo && old(initialized) ==> transporter == old(transporter)
      ensures o != ViaBrevo && !old(initialized) ==> transporter == Transport(env)
      ensures o == Route(env, net, if o == ViaBrevo then old(transporter) else transporter)
    {
      if IsSet(env, "BREVO_API_KEY") && net.brevoOk {
        return ViaBrevo;
      }
      var t := GetTransporter(env);
      if t.None? {
        return NoTransport;
      }
      o := if net.smtpOk then ViaSmtp else SmtpFailed;
    }

    /**
     * A `send*` function from the start: building the content comes first, and when it
     * throws (None) the returned promise rejects before any network call, so nothing
     * changes; otherwise the content is delivered as above.
     */
    method Send(env: Env, content: Option<Content>, net: Network) returns (o: Outcome)
      requires Valid()
      modifies this
      ensures Valid()
      ensures content.None? ==> o == BuildFailed && transporter == old(transporter) && initialized == old(initialized)
      ensures content.Some? ==> o != BuildFailed
      ensures content.Some? && o == ViaBrevo ==> transporter == old(transporter) && initialized == old(initialized)
      ensures content.Some? && o != ViaBrevo ==> initialized
      ensures content.Some? && o != ViaBrevo && old(initialized) ==> transporter == old(transporter)
      ensures content.Some? && o != ViaBrevo && !old(initialized) ==> transporter == Transport(env)
      ensures content.Some? ==> o == Route(env, net, if o == ViaBrevo then old(transporter) else transporter)
    {
      if content.None? {
        return BuildFailed;
      }
      o := Deliver(env, net);
    }
  }
}

module MailerProperties {
  import opened Wrappers
  import opened Strings
  import opened Json
  import opened Config
  import opened MailerConfig
  import opened Mailer

  /** `parseInt` reads back the numeral of a natural number. */
  lemma ParseIntOfNumeral(n: nat)
    ensures ParseInt(NatToDecimal(n)) == Some(n)
  {
    var s := NatToDecimal(n);
    TrimStartOfDigits(s);
    DigitPrefixOfDigits(s);
    DecimalRoundTrip(n);
  }

  lemma {:induction false} DigitPrefixOfDigits(s: string)
    requires IsDigits(s)
    ensures DigitPrefix(s) == s
  {
    if s != [] {
      DigitPrefixOfDigits(s[1..]);
      assert s == [s[0]] + s[1..];
    }
  }

  lemma TrimStartOfDigits(s: string)
    requires |s| >= 1 && IsDigits(s)
    ensures TrimStart(s) == s
  {
    TrimStartOfTrimmed(s);
  }

  /** Without `SMTP_PORT` the port is 587; so a Gmail default configuration is not implicitly secure. */
  lemma DefaultPort(env: Env)
    requires !IsSet(env, "SMTP_PORT")
    ensures SmtpPort(env) == Some(587)
  {
    assert NatToDecimal(587) == DefaultPortText by {
      assert NatToDecimal(58) == "58" by { assert NatToDecimal(5) == "5"; }
    }
    ParseIntOfNumeral(587);
  }

  /** Without a usable `SMTP_HOST` the transport goes to Gmail, and so requires TLS. */
  lemma PlaceholderHostMeansGmail(env: Env)
    requires IsSet(env, "SMTP_USER") && IsSet(env, "SMTP_PASS") && PlaceholderHost(Var(env, "SMTP_HOST"))
    ensures Transport(env).value.host == GmailHost && Transport(env).value.requireTls
  {
    assert StartsWith(GmailHost[5..], "gmail.com");
  }

  /** `SMTP_PORT=465` gives an implicitly secure connection on port 465, whatever the host, Brevo's included. */
  lemma ImplicitTlsPortIsSecure(env: Env)
    requires Transport(env).Some? && Var(env, "SMTP_PORT") == Some("465")
    ensures Transport(env).value.port == Some(465) && Transport(env).value.secure
  {
    assert NatToDecimal(465) == "465" by {
      assert NatToDecimal(46) == "46" by { assert NatToDecimal(4) == "4"; }
    }
    ParseIntOfNumeral(465);
  }

  /**
   * Without `SMTP_PORT` and without `SMTP_SECURE=true` every host, Brevo's included, is reached
   * on port 587 without implicit TLS (STARTTLS instead).
   */
  lemma DefaultPortIsStartTls(env: Env)
    requires Transport(env).Some? && !IsSet(env, "SMTP_PORT") && Var(env, "SMTP_SECURE") != Some("true")
    ensures Transport(env).value.port == Some(587) && !Transport(env).value.secure
  {
    DefaultPort(env);
  }

  /** Capitalising each word keeps the word count and each word's length, so the tag is as long as the type. */
  lemma {:induction false} JoinLength(parts: seq<string>, other: seq<string>, a: char, b: char)
    requires |parts| >= 1 && |parts| == |other|
    requires forall i :: 0 <= i < |parts| ==> |parts[i]| == |other[i]|
    ensures |Join(parts, a)| == |Join(other, b)|
    decreases |parts|
  {
    if |parts| > 1 {
      JoinLength(parts[1..], other[1..], a, b);
    }
  }

  lemma LabelLength(inquiryType: string)
    ensures |Label(inquiryType)| == |inquiryType|
  {
    var words := Split(inquiryType, '-');
    JoinLength(CapitalizeAll(words), words, ' ', '-');
    JoinSplit(inquiryType, '-');
  }

  /** 'general-inquiry' is shown as 'General Inquiry'. */
  lemma LabelOfGeneralInquiry()
    ensures Label("general-inquiry") == "General Inquiry"
  {
    SplitGeneralInquiry();
    CapitalizeGeneralInquiry();
    JoinGeneralInquiry();
  }

  lemma SplitGeneralInquiry()
    ensures Split("general-inquiry", '-') == ["general", "inquiry"]
  {
    var words := ["general", "inquiry"];
    assert Join(words, '-') == "general-inquiry";
    assert '-' !in words[0];
    assert '-' !in words[1];
    SplitJoin(words, '-');
  }

  lemma CapitalizeGeneralInquiry()
    ensures CapitalizeAll(["general", "inquiry"]) == ["General", "Inquiry"]
  {
    assert Capitalize("general") == "General";
    assert Capitalize("inquiry") == "Inquiry";
  }

  lemma JoinGeneralInquiry()
    ensures Join(["General", "Inquiry"], ' ') == "General Inquiry"
  {
  }

  /**
   * The tag's space-separated words are the type's hyphen-separated words, each
   * capitalised (for a type without spaces of its own).
   */
  lemma LabelWords(inquiryType: string)
    requires ' ' !in inquiryType
    ensures Split(Label(inquiryType), ' ') == CapitalizeAll(Split(inquiryType, '-'))
  {
    var words := Split(inquiryType, '-');
    var caps := CapitalizeAll(words);
    forall p | p in caps ensures ' ' !in p {
      var i :| 0 <= i < |caps| && caps[i] == p;
      WordHasNoSpace(inquiryType, words, i);
    }
    SplitJoin(caps, ' ');
  }

  lemma WordHasNoSpace(s: string, words: seq<string>, i: nat)
    requires ' ' !in s && words == Split(s, '-') && i < |words|
    ensures ' ' !in Capitalize(words[i])
  {
    JoinSplit(s, '-');
    JoinHasParts(words, '-', i);
    var w := words[i];
    if w != [] {
      var c := Capitalize(w);
      assert c == [UpperChar(w[0])] + w[1..];
      forall k | 0 <= k < |c| ensures c[k] != ' ' {
        assert w[k] in s;
        if k > 0 {
          assert c[k] == w[k];
        }
      }
    }
  }

  /** A character of one of the joined parts is a character of the joined string. */
  lemma {:induction false} JoinHasParts(parts: seq<string>, sep: char, i: nat)
    requires |parts| >= 1 && i < |parts|
    ensures forall c :: c in parts[i] ==> c in Join(parts, sep)
    decreases |parts|
  {
    if |parts| > 1 {
      var j := Join(parts, sep);
      assert j == parts[0] + [sep] + Join(parts[1..], sep);
      if i > 0 {
        JoinHasParts(parts[1..], sep, i - 1);
      }
    }
  }

  /** Every part of a join appears in the joined string. */
  lemma {:induction false} JoinContains(parts: seq<string>, sep: char, i: nat)
    requires |parts| >= 1 && i < |parts|
    ensures Contains(Join(parts, sep), parts[i])
    decreases |parts|
  {
    var j := Join(parts, sep);
    if |parts| == 1 {
      assert StartsWith(j[0..], parts[0]);
    } else {
      var rest := Join(parts[1..], sep);
      var head := parts[0] + [sep];
      assert j == head + rest;
      if i == 0 {
        assert j[0..][..|parts[0]|] == parts[0];
        assert StartsWith(j[0..], parts[0]);
      } else {
        JoinContains(parts[1..], sep, i - 1);
        var k :| 0 <= k <= |rest| - |parts[i]| && StartsWith(rest[k..], parts[i]);
        assert j[|head| + k..] == rest[k..];
        assert StartsWith(j[|head| + k..], parts[i]);
      }
    }
  }

  /**
   * The confirmation greets the visitor by name, 'Valued Visitor' when none was given,
   * and names the inquiry by its label, 'Inquiry' when none was given.
   */
  lemma ContactTextMentions(name: Value, inquiryType: Value)
    requires ContactEmail(name, inquiryType).Some?
    ensures var text := ContactEmail(name, inquiryType).value.Text();
            && Contains(text, "Dear " + OrDefault(name, "Valued Visitor") + ",")
            && Contains(text, ReceivedPrefix + Label(OrDefault(inquiryType, "inquiry")) + ReceivedSuffix)
  {
    ContactLinesMention(OrDefault(name, "Valued Visitor"), Label(OrDefault(inquiryType, "inquiry")));
  }

  /** The confirmation template's joined lines hold the greeting and the inquiry label. */
  lemma ContactLinesMention(name: string, tag: string)
    ensures var text := Join(ContactLines(name, tag), '\n');
            && Contains(text, "Dear " + name + ",")
            && Contains(text, ReceivedPrefix + tag + ReceivedSuffix)
  {
    var lines := ContactLines(name, tag);
    JoinContains(lines, '\n', 0);
    JoinContains(lines, '\n', 3);
  }

  /**
   * The admin notification carries the visitor's name, address, inquiry label and message,
   * with 'Unknown', 'No email provided', 'inquiry' and 'No message provided' for those missing.
   */
  lemma AdminTextMentions(name: Value, email: Value, inquiryType: Value, message: Value)
    requires AdminContactEmail(name, email, inquiryType, message).Some?
    ensures var text := AdminContactEmail(name, email, inquiryType, message).value.Text();
            && Contains(text, "Name: " + OrDefault(name, "Unknown"))
            && Contains(text, "Email: " + OrDefault(email, "No email provided"))
            && Contains(text, "Inquiry Type: " + Label(OrDefault(inquiryType, "inquiry")))
            && Contains(text, OrDefault(message, "No message provided"))
  {
    AdminLinesMention(OrDefault(name, "Unknown"), OrDefault(email, "No email provided"),
                      Label(OrDefault(inquiryType, "inquiry")), OrDefault(message, "No message provided"));
  }

  /** The admin template's joined lines hold the four submitted values. */
  lemma AdminLinesMention(name: string, email: string, tag: string, message: string)
    ensures var text := Join(AdminLines(name, email, tag, message), '\n');
            && Contains(text, "Name: " + name)
            && Contains(text, "Email: " + email)
            && Contains(text, "Inquiry Type: " + tag)
            && Contains(text, message)
  {
    var lines := AdminLines(name, email, tag, message);
    JoinContains(lines, '\n', 4);
    JoinContains(lines, '\n', 5);
    JoinContains(lines, '\n', 6);
    JoinContains(lines, '\n', 8);
  }

  /** A send whose Brevo call succeeds never touches SMTP, so it does not initialise the transporter. */
  lemma BrevoFirst(env: Env, net: Network, t: Option<TransportConfig>)
    requires IsSet(env, "BREVO_API_KEY") && net.brevoOk
    ensures Route(env, net, t) == ViaBrevo
  {
  }

  /** Without a Brevo key, or when Brevo fails, the outcome is the SMTP transporter's. */
  lemma SmtpFallback(env: Env, net: Network, t: Option<TransportConfig>)
    requires !IsSet(env, "BREVO_API_KEY") || !net.brevoOk
    ensures Route(env, net, t) == (if t.None? then NoTransport else if net.smtpOk then ViaSmtp else SmtpFailed)
  {
  }
}
