/** The serverless contact handler: CORS headers on every response, method
    dispatch (OPTIONS answered at once, anything but POST refused with 405), a
    gate on falsy fields, then two mails in sequence (to the site owner, then an
    auto-reply to the sender), 200 only when both went through. The response
    object is mutated in place, as in the handler; each `sendMail` outcome is a
    boolean parameter. */
module ContactApi {
  import opened Js

  datatype Header = Header(name: string, value: string)

  const CorsHeaders := [
    Header("Access-Control-Allow-Credentials", "true"),
    Header("Access-Control-Allow-Origin", "*"),
    Header("Access-Control-Allow-Methods", "GET,OPTIONS,PATCH,DELETE,POST,PUT"),
    Header("Access-Control-Allow-Headers", "Content-Type")
  ]

  /** What follows the status line: nothing (`end()`) or one of the JSON bodies. */
  datatype Payload = Empty | ErrorJson(error: string) | SuccessJson(message: string)

  /** `req.body`'s four fields; `None` is a field that was not sent. */
  datatype ContactFields = ContactFields(name: Option<string>, email: Option<string>,
                                         subject: Option<string>, message: Option<string>)

  /** `body` is `None` when `req.body` is `undefined` or `null` (no parsed body). */
  datatype ApiRequest = ApiRequest(httpMethod: string, body: Option<ContactFields>)

  /** The environment variables the handler reads. */
  datatype Env = Env(smtpUser: Option<string>, contactEmail: Option<string>)

  datatype Content =
    | Notice(name: string, email: string, subject: string, messageHtml: string)
    | ThankYou(name: string)

  /** `to` and `replyTo` are passed to the transport as they are, so either may be
      `undefined`. */
  datatype Mail = Mail(from: string, to: Option<string>, replyTo: Option<string>, subject: string, content: Content)

  /** How the handler ends: with a status and body, or by throwing before it
      answers (destructuring a missing `req.body` happens outside the `try`). */
  datatype Decision = Answered(status: nat, payload: Payload) | Threw

  /** A POST whose body holds all four fields. */
  predicate CompletePost(req: ApiRequest) {
    req.httpMethod == "POST" && req.body.Some? && AllPresent(req.body.value)
  }

  /** `!name || !email || !subject || !message` fails for all four. */
  predicate AllPresent(f: ContactFields) {
    Truthy(f.name) && Truthy(f.email) && Truthy(f.subject) && Truthy(f.message)
  }

  /** The status and body for a request, given whether each `sendMail` succeeded. */
  function Decide(req: ApiRequest, ownerOk: bool, replyOk: bool): (d: Decision)
    ensures d.Threw? <==> req.httpMethod == "POST" && req.body.None?
    ensures d.Answered? && d.status == 200 <==>
      req.httpMethod == "OPTIONS" || (CompletePost(req) && ownerOk && replyOk)
    ensures d.Answered? && d.status == 405 <==> req.httpMethod != "OPTIONS" && req.httpMethod != "POST"
    ensures d.Answered? && d.status == 400 <==>
      req.httpMethod == "POST" && req.body.Some? && !AllPresent(req.body.value)
    ensures d.Answered? && d.status == 500 <==> CompletePost(req) && !(ownerOk && replyOk)
    ensures d.Answered? ==> d.status in {200, 400, 405, 500}
    ensures d.Answered? && d.payload == Empty <==> req.httpMethod == "OPTIONS"
  {
    if req.httpMethod == "OPTIONS" then Answered(200, Empty)
    else if req.httpMethod != "POST" then Answered(405, ErrorJson("Method not allowed"))
    else if req.body.None? then Threw
    else if !AllPresent(req.body.value) then Answered(400, ErrorJson("All fields are required"))
    else if ownerOk && replyOk then Answered(200, SuccessJson("Email sent successfully"))
    else Answered(500, ErrorJson("Failed to send email"))
  }

  /** The mail to the site owner for a request whose fields are all present. */
  function OwnerMail(f: ContactFields, env: Env): (m: Mail)
    requires AllPresent(f)
    ensures m.to == env.contactEmail && m.replyTo == f.email && m.content.Notice?
    ensures '\n' !in m.content.messageHtml
    ensures |m.content.messageHtml| == |f.message.value| + 3 * Count(f.message.value, '\n')
  {
    BreakLinesRemovesNewlines(f.message.value);
    BreakLinesLength(f.message.value);
    Mail("\"Portfolio Contact\" <" + Show(env.smtpUser) + ">", env.contactEmail, f.email,
         "Portfolio Contact: " + f.subject.value,
         Notice(f.name.value, f.email.value, f.subject.value, BreakLines(f.message.value)))
  }

  /** The auto-reply, addressed to the sender. */
  function ReplyMail(f: ContactFields, env: Env): (m: Mail)
    requires AllPresent(f)
    ensures m.to == f.email && m.replyTo.None? && m.content == ThankYou(f.name.value)
  {
    Mail("\"Jharana Adhikari\" <" + Show(env.smtpUser) + ">", f.email, None,
         "Thank you for reaching out!", ThankYou(f.name.value))
  }

  /** The mails the handler hands to the transport, in order: none unless the
      request is a POST with every field present; the auto-reply only after the
      owner's mail went through. */
  function Attempts(req: ApiRequest, env: Env, ownerOk: bool): (ms: seq<Mail>)
    ensures |ms| <= 2
    ensures ms != [] <==> CompletePost(req)
    ensures |ms| == 2 <==> CompletePost(req) && ownerOk
    ensures ms != [] ==> ms[0] == OwnerMail(req.body.value, env)
    ensures |ms| == 2 ==> ms[1] == ReplyMail(req.body.value, env)
  {
    if !CompletePost(req) then []
    else if ownerOk then [OwnerMail(req.body.value, env), ReplyMail(req.body.value, env)]
    else [OwnerMail(req.body.value, env)]
  }

  /** Node's `ServerResponse`, reduced to what the handler touches. */
  class ServerResponse {
    var headers: seq<Header>
    var statusCode: nat
    /** `None` until the response is ended. */
    var payload: Option<Payload>

    constructor ()
      ensures headers == [] && statusCode == 200 && payload == None
    {
      headers := [];
      statusCode := 200;
      payload := None;
    }

    method SetHeader(h: Header)
      modifies this
      ensures headers == old(headers) + [h] && statusCode == old(statusCode) && payload == old(payload)
    {
      headers := headers + [h];
    }

    /** `res.status(code).json(...)` or `res.status(code).end()`. */
    method Finish(code: nat, p: Payload)
      modifies this
      ensures headers == old(headers) && statusCode == code && payload == Some(p)
    {
      statusCode := code;
      payload := Some(p);
    }
  }

  /** `handler(req, res)`. `ownerOk` and `replyOk` say whether each `sendMail`
      resolved; `attempted` lists the mails handed to the transport. */
  method Handler(req: ApiRequest, env: Env, res: ServerResponse, ownerOk: bool, replyOk: bool)
    returns (attempted: seq<Mail>)
    modifies res
    ensures res.headers == old(res.headers) + CorsHeaders
    ensures Decide(req, ownerOk, replyOk).Answered? ==>
      res.statusCode == Decide(req, ownerOk, replyOk).status &&
      res.payload == Some(Decide(req, ownerOk, replyOk).payload)
    ensures Decide(req, ownerOk, replyOk).Threw? ==>
      res.statusCode == old(res.statusCode) && res.payload == old(res.payload)
    ensures attempted == Attempts(req, env, ownerOk)
  {
    res.SetHeader(CorsHeaders[0]);
    res.SetHeader(CorsHeaders[1]);
    res.SetHeader(CorsHeaders[2]);
    res.SetHeader(CorsHeaders[3]);
    assert res.headers == old(res.headers) + CorsHeaders;
    attempted := [];
    if req.httpMethod == "OPTIONS" {
      res.Finish(200, Empty);
      return;
    }
    if req.httpMethod != "POST" {
      res.Finish(405, ErrorJson("Method not allowed"));
      return;
    }
    if req.body.None? {
      // `const { name, email, subject, message } = req.body` throws here.
      return;
    }
    var f := req.body.value;
    if !Truthy(f.name) || !Truthy(f.email) || !Truthy(f.subject) || !Truthy(f.message) {
      res.Finish(400, ErrorJson("All fields are required"));
      return;
    }
    attempted := [OwnerMail(f, env)];
    if !ownerOk {
      res.Finish(500, ErrorJson("Failed to send email"));
      return;
    }
    attempted := attempted + [ReplyMail(f, env)];
    if !replyOk {
      res.Finish(500, ErrorJson("Failed to send email"));
      return;
    }
    res.Finish(200, SuccessJson("Email sent successfully"));
  }

  /** The gate tests truthiness only: fields of nothing but spaces pass it. */
  lemma WhitespaceFieldsPassGate()
    ensures Decide(ApiRequest("POST", Some(ContactFields(Some(" "), Some(" "), Some(" "), Some(" ")))), true, true)
      == Answered(200, SuccessJson("Email sent successfully"))
  {
  }

  /** A POST without a parsed body reaches neither the field gate nor the
      transport: the handler throws after the CORS headers are set. */
  lemma MissingBodyIsNotAnswered(env: Env, ownerOk: bool, replyOk: bool)
    ensures Decide(ApiRequest("POST", None), ownerOk, replyOk) == Threw
    ensures Attempts(ApiRequest("POST", None), env, ownerOk) == []
  {
  }

  /** A success reply means both mails were handed over, the second to the sender. */
  lemma SuccessMeansBothSent(req: ApiRequest, env: Env, ownerOk: bool, replyOk: bool)
    requires req.httpMethod == "POST"
    requires Decide(req, ownerOk, replyOk) == Answered(200, SuccessJson("Email sent successfully"))
    ensures |Attempts(req, env, ownerOk)| == 2 && replyOk
    ensures Attempts(req, env, ownerOk)[1].to == req.body.value.email
  {
  }
}
