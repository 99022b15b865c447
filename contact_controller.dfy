/** The Express contact endpoint: the express-validator rules of
    `validateContact` and the decision logic of `sendMessage` (400 with the
    failed checks, mail sent or only logged, 200 or 500). The library's `isEmail`,
    `normalizeEmail` and `escape` are uninterpreted function parameters; the mail
    transport's outcome is a boolean parameter. */
module ContactController {
  import opened Js

  /** One entry of the 400 response's `details`: `{field: err.path, message: err.msg}`. */
  datatype Detail = Detail(field: string, message: string)

  /** `req.body`; a field the client did not send reads as "" to the validators. */
  datatype ContactBody = ContactBody(name: string, email: string, subject: string, message: string)

  /** The express-validator functions the rules call, left uninterpreted. */
  datatype Library = Library(isEmail: string -> bool, normalizeEmail: string -> string, escape: string -> string)

  /** The environment variables `sendMessage` reads. */
  datatype Env = Env(nodeEnv: Option<string>, smtpUser: Option<string>, sendgridApiKey: Option<string>,
                     contactEmail: Option<string>)

  /** The parts of `mailOptions` the decision depends on; `messageHtml` is the
      message as it appears inside the HTML body. */
  datatype Mail = Mail(from: string, to: string, replyTo: string, subject: string, messageHtml: string)

  /** The JSON body sent back with each status. */
  datatype Reply = ValidationFailed(details: seq<Detail>) | Sent | SendFailed

  const NameMax := 100
  const SubjectMax := 200
  const MessageMin := 10
  const MessageMax := 5000
  const SubjectPrefix := "Portfolio Contact: "

  /** What each validator reports, as `withMessage` sets it. */
  const NameRequired := Detail("name", "Name is required")
  const NameTooLong := Detail("name", "Name must be less than 100 characters")
  const EmailRequired := Detail("email", "Email is required")
  const EmailInvalid := Detail("email", "Please provide a valid email")
  const SubjectRequired := Detail("subject", "Subject is required")
  const SubjectTooLong := Detail("subject", "Subject must be less than 200 characters")
  const MessageRequired := Detail("message", "Message is required")
  const MessageBadLength := Detail("message", "Message must be between 10 and 5000 characters")

  /** One validator of a chain: it reports its detail when its check fails.
      The chains have no `bail()`, so every validator of a chain runs. */
  function Check(ok: bool, d: Detail): seq<Detail> {
    if ok then [] else [d]
  }

  /** `body('name').trim().notEmpty().isLength({ max: 100 })`. */
  function NameDetails(name: string): (ds: seq<Detail>)
    ensures ds == [] <==> NameAccepted(name)
    ensures |ds| <= 2 && forall d :: d in ds ==> d.field == "name"
    ensures NameRequired in ds <==> IsBlank(name)
    ensures NameTooLong in ds <==> |Trim(name)| > NameMax
    ensures forall d :: d in ds ==> d == NameRequired || d == NameTooLong
    ensures Distinct(ds)
  {
    var t := Trim(name);
    Check(t != "", NameRequired) + Check(|t| <= NameMax, NameTooLong)
  }

  /** `body('email').trim().notEmpty().isEmail()`. */
  function EmailDetails(email: string, lib: Library): (ds: seq<Detail>)
    ensures ds == [] <==> EmailAccepted(email, lib)
    ensures |ds| <= 2 && forall d :: d in ds ==> d.field == "email"
    ensures EmailRequired in ds <==> IsBlank(email)
    ensures EmailInvalid in ds <==> !lib.isEmail(Trim(email))
    ensures forall d :: d in ds ==> d == EmailRequired || d == EmailInvalid
    ensures Distinct(ds)
  {
    var t := Trim(email);
    Check(t != "", EmailRequired) + Check(lib.isEmail(t), EmailInvalid)
  }

  /** `body('subject').trim().notEmpty().isLength({ max: 200 })`. */
  function SubjectDetails(subject: string): (ds: seq<Detail>)
    ensures ds == [] <==> SubjectAccepted(subject)
    ensures |ds| <= 2 && forall d :: d in ds ==> d.field == "subject"
    ensures SubjectRequired in ds <==> IsBlank(subject)
    ensures SubjectTooLong in ds <==> |Trim(subject)| > SubjectMax
    ensures forall d :: d in ds ==> d == SubjectRequired || d == SubjectTooLong
    ensures Distinct(ds)
  {
    var t := Trim(subject);
    Check(t != "", SubjectRequired) + Check(|t| <= SubjectMax, SubjectTooLong)
  }

  /** `body('message').trim().notEmpty().isLength({ min: 10, max: 5000 })`. */
  function MessageDetails(message: string): (ds: seq<Detail>)
    ensures ds == [] <==> MessageAccepted(message)
    ensures |ds| <= 2 && forall d :: d in ds ==> d.field == "message"
    ensures MessageRequired in ds <==> IsBlank(message)
    ensures MessageBadLength in ds <==> !(MessageMin <= |Trim(message)| <= MessageMax)
    ensures forall d :: d in ds ==> d == MessageRequired || d == MessageBadLength
    ensures Distinct(ds)
  {
    var t := Trim(message);
    Check(t != "", MessageRequired) + Check(MessageMin <= |t| <= MessageMax, MessageBadLength)
  }

  predicate NameAccepted(name: string) {
    !IsBlank(name) && |Trim(name)| <= NameMax
  }

  predicate EmailAccepted(email: string, lib: Library) {
    !IsBlank(email) && lib.isEmail(Trim(email))
  }

  predicate SubjectAccepted(subject: string) {
    !IsBlank(subject) && |Trim(subject)| <= SubjectMax
  }

  predicate MessageAccepted(message: string) {
    MessageMin <= |Trim(message)| <= MessageMax
  }

  /** Some detail of `ds` is about `field`. */
  predicate Mentions(ds: seq<Detail>, field: string) {
    exists d :: d in ds && d.field == field
  }

  lemma MentionsAppend(a: seq<Detail>, b: seq<Detail>, field: string)
    ensures Mentions(a + b, field) <==> Mentions(a, field) || Mentions(b, field)
  {
    if Mentions(a + b, field) {
      var d :| d in a + b && d.field == field;
      assert d in a || d in b;
    }
    if Mentions(a, field) {
      var d :| d in a && d.field == field;
      assert d in a + b;
    }
    if Mentions(b, field) {
      var d :| d in b && d.field == field;
      assert d in a + b;
    }
  }

  /** The details of one chain are about its own field only, and there is one
      exactly when the chain has failed. */
  lemma MentionsOwnField(ds: seq<Detail>, own: string, field: string)
    requires forall d :: d in ds ==> d.field == own
    ensures Mentions(ds, field) <==> ds != [] && field == own
  {
    if ds != [] && field == own {
      assert ds[0] in ds;
    }
  }

  /** `validationResult(req)`: the failed checks of the four rules, rule by rule.
      Each rule that fails contributes at least one detail naming its field, and
      a rule that passes contributes none. */
  function ValidationDetails(b: ContactBody, lib: Library): (details: seq<Detail>)
    ensures details == [] <==>
      NameAccepted(b.name) && EmailAccepted(b.email, lib) && SubjectAccepted(b.subject) && MessageAccepted(b.message)
    ensures forall d :: d in details ==> d.field in {"name", "email", "subject", "message"}
    ensures Mentions(details, "name") <==> !NameAccepted(b.name)
    ensures Mentions(details, "email") <==> !EmailAccepted(b.email, lib)
    ensures Mentions(details, "subject") <==> !SubjectAccepted(b.subject)
    ensures Mentions(details, "message") <==> !MessageAccepted(b.message)
    ensures NameRequired in details <==> IsBlank(b.name)
    ensures NameTooLong in details <==> |Trim(b.name)| > NameMax
    ensures EmailRequired in details <==> IsBlank(b.email)
    ensures EmailInvalid in details <==> !lib.isEmail(Trim(b.email))
    ensures SubjectRequired in details <==> IsBlank(b.subject)
    ensures SubjectTooLong in details <==> |Trim(b.subject)| > SubjectMax
    ensures MessageRequired in details <==> IsBlank(b.message)
    ensures MessageBadLength in details <==> !(MessageMin <= |Trim(b.message)| <= MessageMax)
    ensures Distinct(details)
  {
    ValidationFields(b, lib);
    ValidationReports(b, lib);
    NameDetails(b.name) + EmailDetails(b.email, lib) + SubjectDetails(b.subject) + MessageDetails(b.message)
  }

  /** The details name only the four fields, and name a field exactly when its
      rule fails. */
  lemma ValidationFields(b: ContactBody, lib: Library)
    ensures var details := NameDetails(b.name) + EmailDetails(b.email, lib) +
                           SubjectDetails(b.subject) + MessageDetails(b.message);
      && (details == [] <==>
            NameAccepted(b.name) && EmailAccepted(b.email, lib) && SubjectAccepted(b.subject) && MessageAccepted(b.message))
      && (forall d :: d in details ==> d.field in {"name", "email", "subject", "message"})
      && (Mentions(details, "name") <==> !NameAccepted(b.name))
      && (Mentions(details, "email") <==> !EmailAccepted(b.email, lib))
      && (Mentions(details, "subject") <==> !SubjectAccepted(b.subject))
      && (Mentions(details, "message") <==> !MessageAccepted(b.message))
  {
    var n := NameDetails(b.name);
    var e := EmailDetails(b.email, lib);
    var s := SubjectDetails(b.subject);
    var m := MessageDetails(b.message);
    ValidationMentions(n, e, s, m, "name");
    ValidationMentions(n, e, s, m, "email");
    ValidationMentions(n, e, s, m, "subject");
    ValidationMentions(n, e, s, m, "message");
  }

  lemma ValidationMentions(n: seq<Detail>, e: seq<Detail>, s: seq<Detail>, m: seq<Detail>, field: string)
    requires forall d :: d in n ==> d.field == "name"
    requires forall d :: d in e ==> d.field == "email"
    requires forall d :: d in s ==> d.field == "subject"
    requires forall d :: d in m ==> d.field == "message"
    ensures Mentions(n + e + s + m, field) <==>
      (n != [] && field == "name") || (e != [] && field == "email") ||
      (s != [] && field == "subject") || (m != [] && field == "message")
  {
    MentionsAppend(n + e + s, m, field);
    MentionsAppend(n + e, s, field);
    MentionsAppend(n, e, field);
    MentionsOwnField(n, "name", field);
    MentionsOwnField(e, "email", field);
    MentionsOwnField(s, "subject", field);
    MentionsOwnField(m, "message", field);
  }

  /** Each validator's detail is listed exactly when its check fails, and no
      detail is listed twice. */
  lemma ValidationReports(b: ContactBody, lib: Library)
    ensures var details := NameDetails(b.name) + EmailDetails(b.email, lib) +
                           SubjectDetails(b.subject) + MessageDetails(b.message);
      && (NameRequired in details <==> IsBlank(b.name))
      && (NameTooLong in details <==> |Trim(b.name)| > NameMax)
      && (EmailRequired in details <==> IsBlank(b.email))
      && (EmailInvalid in details <==> !lib.isEmail(Trim(b.email)))
      && (SubjectRequired in details <==> IsBlank(b.subject))
      && (SubjectTooLong in details <==> |Trim(b.subject)| > SubjectMax)
      && (MessageRequired in details <==> IsBlank(b.message))
      && (MessageBadLength in details <==> !(MessageMin <= |Trim(b.message)| <= MessageMax))
      && Distinct(details)
  {
    var n := NameDetails(b.name);
    var e := EmailDetails(b.email, lib);
    var s := SubjectDetails(b.subject);
    var m := MessageDetails(b.message);
    DistinctChains(n, e, s, m);
    ChainOf(n, e, s, m, NameRequired);
    ChainOf(n, e, s, m, NameTooLong);
    ChainOf(n, e, s, m, EmailRequired);
    ChainOf(n, e, s, m, EmailInvalid);
    ChainOf(n, e, s, m, SubjectRequired);
    ChainOf(n, e, s, m, SubjectTooLong);
    ChainOf(n, e, s, m, MessageRequired);
    ChainOf(n, e, s, m, MessageBadLength);
  }

  /** A detail is among the four chains' details exactly when it is among those
      of the chain for its field. */
  lemma ChainOf(n: seq<Detail>, e: seq<Detail>, s: seq<Detail>, m: seq<Detail>, d: Detail)
    requires forall d :: d in n ==> d.field == "name"
    requires forall d :: d in e ==> d.field == "email"
    requires forall d :: d in s ==> d.field == "subject"
    requires forall d :: d in m ==> d.field == "message"
    ensures d.field == "name" ==> (d in n + e + s + m <==> d in n)
    ensures d.field == "email" ==> (d in n + e + s + m <==> d in e)
    ensures d.field == "subject" ==> (d in n + e + s + m <==> d in s)
    ensures d.field == "message" ==> (d in n + e + s + m <==> d in m)
  {
  }

  /** Two lists without repeats and with no detail in common join without repeats. */
  lemma DistinctAppend(a: seq<Detail>, b: seq<Detail>)
    requires Distinct(a) && Distinct(b)
    requires forall d :: d in a ==> d !in b
    ensures Distinct(a + b)
  {
    forall i, j | 0 <= i < j < |a + b|
      ensures (a + b)[i] != (a + b)[j]
    {
      if j >= |a| && i < |a| {
        assert (a + b)[i] in a && (a + b)[j] in b;
      }
    }
  }

  /** The four chains report on different fields, so together they repeat no detail. */
  lemma DistinctChains(n: seq<Detail>, e: seq<Detail>, s: seq<Detail>, m: seq<Detail>)
    requires forall d :: d in n ==> d.field == "name"
    requires forall d :: d in e ==> d.field == "email"
    requires forall d :: d in s ==> d.field == "subject"
    requires forall d :: d in m ==> d.field == "message"
    requires Distinct(n) && Distinct(e) && Distinct(s) && Distinct(m)
    ensures Distinct(n + e + s + m)
  {
    DistinctAppend(n, e);
    DistinctAppend(n + e, s);
    DistinctAppend(n + e + s, m);
  }

  /** The body after the chains' sanitizers have run (`trim`, then `escape` or
      `normalizeEmail`); `sendMessage` reads these values. */
  function Sanitized(b: ContactBody, lib: Library): ContactBody {
    ContactBody(lib.escape(Trim(b.name)), lib.normalizeEmail(Trim(b.email)),
                lib.escape(Trim(b.subject)), lib.escape(Trim(b.message)))
  }

  /** Mail goes out only in production or when SMTP or SendGrid credentials are set. */
  predicate DeliveryConfigured(env: Env) {
    env.nodeEnv == Some("production") || Truthy(env.smtpUser) || Truthy(env.sendgridApiKey)
  }

  /** `mailOptions` for an already sanitized body. */
  function ComposeMail(b: ContactBody, env: Env): (m: Mail)
    ensures m.replyTo == b.email
    ensures |m.subject| == |SubjectPrefix| + |b.subject|
    ensures m.subject[..|SubjectPrefix|] == SubjectPrefix && m.subject[|SubjectPrefix|..] == b.subject
    ensures '\n' !in m.messageHtml
    ensures |m.messageHtml| == |b.message| + 3 * Count(b.message, '\n')
  {
    BreakLinesRemovesNewlines(b.message);
    BreakLinesLength(b.message);
    Mail("\"Portfolio Contact\" <" + OrElse(env.smtpUser, "noreply@portfolio.com") + ">",
         OrElse(env.contactEmail, "hello@yourportfolio.com"),
         b.email,
         SubjectPrefix + b.subject,
         BreakLines(b.message))
  }

  /** `sendMessage`. `sendOk` is whether `transporter.sendMail` resolved; `handed`
      is the mail given to the transport, if any. */
  method SendMessage(body: ContactBody, env: Env, lib: Library, sendOk: bool)
    returns (status: nat, reply: Reply, handed: Option<Mail>)
    ensures ValidationDetails(body, lib) != [] ==>
      status == 400 && reply == ValidationFailed(ValidationDetails(body, lib)) && handed == None
    ensures ValidationDetails(body, lib) == [] && DeliveryConfigured(env) ==>
      handed == Some(ComposeMail(Sanitized(body, lib), env)) &&
      (if sendOk then status == 200 && reply == Sent else status == 500 && reply == SendFailed)
    ensures ValidationDetails(body, lib) == [] && !DeliveryConfigured(env) ==>
      handed == None && status == 200 && reply == Sent
  {
    var details := NameDetails(body.name) + EmailDetails(body.email, lib) +
                   SubjectDetails(body.subject) + MessageDetails(body.message);
    if details != [] {
      return 400, ValidationFailed(details), None;
    }
    var clean := Sanitized(body, lib);
    var mail := ComposeMail(clean, env);
    handed := None;
    if env.nodeEnv == Some("production") || Truthy(env.smtpUser) || Truthy(env.sendgridApiKey) {
      handed := Some(mail);
      if !sendOk {
        return 500, SendFailed, handed;
      }
    }
    status, reply := 200, Sent;
  }

  /** The name rule accepts exactly the names of 1 to 100 characters once trimmed;
      a name of exactly 100 characters passes despite the wording of its message. */
  lemma NameRule(name: string)
    ensures NameDetails(name) == [] <==> NameAccepted(name)
    ensures NameDetails(name) == [] <==> 0 < |Trim(name)| <= NameMax
  {
  }

  lemma SubjectRule(subject: string)
    ensures SubjectDetails(subject) == [] <==> SubjectAccepted(subject)
    ensures SubjectDetails(subject) == [] <==> 0 < |Trim(subject)| <= SubjectMax
  {
  }

  /** The message rule accepts exactly the trimmed lengths 10 to 5000. */
  lemma MessageRule(message: string)
    ensures MessageDetails(message) == [] <==> MessageMin <= |Trim(message)| <= MessageMax
  {
  }

  /** An empty message fails both of its validators, so it yields two details. */
  lemma BlankMessageTwoDetails(message: string)
    requires IsBlank(message)
    ensures MessageDetails(message) == [MessageRequired, MessageBadLength]
  {
  }

  /** The bounds of `server.test.js`: "Short" fails, 5001 characters fail. */
  lemma MessageRuleExamples(long: string)
    requires |long| == 5001 && NoWhitespace(long)
    ensures MessageDetails("Short") != []
    ensures MessageDetails(long) != []
  {
    assert TrimStart("Short") == "Short";
    assert TrimEnd("Short") == "Short";
    assert TrimStart(long) == long;
    assert TrimEnd(long) == long;
  }
}
