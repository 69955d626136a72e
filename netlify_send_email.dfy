/**
  The serverless `send-email` handler: a method gate, a CORS header set, a required-field check
  with no format checks, a mail to the company address, and a single catch-all failure. The
  environment is an explicit record and the outcome of `sendMail` is an input.
 */
module NetlifySendEmail {
  import opened Wrappers
  import opened JsText
  import opened MailTypes
  import EmailRoute

  /** What `JSON.parse(event.body)` and the destructuring make of the body: a parse failure, or
      the body `null`, throws; otherwise the five fields, absent ones being "" (a number, string or
      array body has none of them). */
  datatype RequestBody = Unparsable | Parsed(data: ContactData)

  datatype Event = Event(httpMethod: string, body: RequestBody)

  /** The variables the handler reads; `smtpPort` is the result of `parseInt`, `None` for `NaN`. */
  datatype NetlifyEnv = NetlifyEnv(
    smtpHost: Option<string>,
    smtpUser: Option<string>,
    smtpPassword: Option<string>,
    smtpPort: Option<int>)

  /** `${v}` for an environment variable: an unset one prints as `undefined`. */
  function EnvText(v: Option<string>): string
  {
    if v.Some? then v.value else "undefined"
  }

  /** The settings passed to `createTransport`, unchecked: nothing here requires them to be set. */
  datatype Transport = Transport(
    host: Option<string>,
    port: Option<int>,
    secure: bool,
    requireTLS: bool,
    user: Option<string>,
    pass: Option<string>)

  /** The response and what was handed to the transport. */
  datatype Outcome = Outcome(response: Response, transport: Option<Transport>, mail: Option<MailOptions>)

  const CorsHeaders: seq<(string, string)> := [
    ("Access-Control-Allow-Origin", "*"),
    ("Access-Control-Allow-Headers", "Content-Type"),
    ("Access-Control-Allow-Methods", "POST, OPTIONS")]

  const MethodNotAllowed := "Method not allowed"
  const MissingFieldsMessage := "Missing required fields"
  const FailedMessage := "Failed to send email"
  const SentMessage := "Email sent successfully"

  /** Line `k` of the HTML template, each indented by eight spaces; line 6 holds the message. */
  function HtmlLine(d: ContactData, k: nat): string
  {
    match k
    case 0 => Spaces(8) + "<h2>New Contact Form Submission</h2>"
    case 1 => Spaces(8) + "<p><strong>Name:</strong> " + d.name + "</p>"
    case 2 => Spaces(8) + "<p><strong>Email:</strong> " + d.email + "</p>"
    case 3 => Spaces(8) + "<p><strong>Phone:</strong> " + d.phone + "</p>"
    case 4 => Spaces(8) + SubjectCell(d.subject)
    case 5 => Spaces(8) + "<p><strong>Message:</strong></p>"
    case 6 => Spaces(8) + MessageCell(d.message)
    case _ => ""
  }

  function SubjectCell(subject: string): string
  {
    "<p><strong>Subject:</strong> " + ShownSubject(subject) + "</p>"
  }

  function MessageCell(message: string): string
  {
    "<p>" + HtmlMessage(message) + "</p>"
  }

  function HtmlBody(d: ContactData): string
  {
    "\n" + Lines((k: nat) => HtmlLine(d, k), 0, 7) + Spaces(6)
  }

  /** Line `k` of the text template; line 1 is empty and line 6 holds the message verbatim. */
  function TextLine(d: ContactData, k: nat): string
  {
    match k
    case 0 => Spaces(8) + "New Contact Form Submission"
    case 1 => ""
    case 2 => Spaces(8) + "Name: " + d.name
    case 3 => Spaces(8) + "Email: " + d.email
    case 4 => Spaces(8) + "Phone: " + d.phone
    case 5 => Spaces(8) + "Subject: " + ShownSubject(d.subject)
    case 6 => Spaces(8) + "Message: " + d.message
    case _ => ""
  }

  function TextBody(d: ContactData): string
  {
    "\n" + Lines((k: nat) => TextLine(d, k), 0, 7) + Spaces(6)
  }

  function TransportFor(env: NetlifyEnv): Transport
  {
    Transport(env.smtpHost, env.smtpPort, false, true, env.smtpUser, env.smtpPassword)
  }

  /** The `mailOptions` object: the submitter's name as the display name of the SMTP user's
      address, always to the company address. */
  function MailOptionsFor(d: ContactData, env: NetlifyEnv): MailOptions
  {
    MailOptions(
      from := "\"" + d.name + "\" <" + EnvText(env.smtpUser) + ">",
      to := CompanyAddress,
      subject := SubjectOrDefault(d.subject),
      replyTo := None,
      headers := [],
      html := HtmlBody(d),
      text := TextBody(d))
  }

  /** The handler. `sent` is whether `sendMail` resolved. The preflight branch is kept as written
      although the method gate before it answers every `OPTIONS` request. */
  function Handler(event: Event, env: NetlifyEnv, sent: bool): (r: Outcome)
    ensures r.response.status == 405 <==> event.httpMethod != "POST"
    ensures event.httpMethod != "POST" ==>
      r == Outcome(Response(405, [], ErrorJson(MethodNotAllowed, None)), None, None)
    ensures event.httpMethod == "POST" ==> r.response.headers == CorsHeaders
    ensures r.response.body != EmptyBody
    ensures r.response.status == 400 <==>
      event.httpMethod == "POST" && event.body.Parsed? && MissingRequired(event.body.data)
    ensures r.mail.Some? <==>
      event.httpMethod == "POST" && event.body.Parsed? && !MissingRequired(event.body.data)
    ensures r.mail.Some? ==> r.mail == Some(MailOptionsFor(event.body.data, env))
    ensures r.mail.Some? ==> r.transport == Some(TransportFor(env))
    ensures r.response.status == 200 <==> r.mail.Some? && sent
    ensures r.response.status == 500 <==>
      event.httpMethod == "POST" && (event.body.Unparsable? || (!MissingRequired(event.body.data) && !sent))
    ensures r.response.status == 500 ==> r.response.body == ErrorJson(FailedMessage, None)
    ensures r.response.status == 400 ==> r.response.body == ErrorJson(MissingFieldsMessage, None)
    ensures r.response.status == 200 ==> r.response.body == MessageJson(SentMessage, None)
  {
    if event.httpMethod != "POST" then
      Outcome(Response(405, [], ErrorJson(MethodNotAllowed, None)), None, None)
    else if event.httpMethod == "OPTIONS" then
      Outcome(Response(200, CorsHeaders, EmptyBody), None, None)
    else if event.body.Unparsable? then
      Outcome(Response(500, CorsHeaders, ErrorJson(FailedMessage, None)), None, None)
    else
      var d := event.body.data;
      if MissingRequired(d) then
        Outcome(Response(400, CorsHeaders, ErrorJson(MissingFieldsMessage, None)), None, None)
      else
        var transport := TransportFor(env);
        var mail := MailOptionsFor(d, env);
        if sent then Outcome(Response(200, CorsHeaders, MessageJson(SentMessage, None)), Some(transport), Some(mail))
        else Outcome(Response(500, CorsHeaders, ErrorJson(FailedMessage, None)), Some(transport), Some(mail))
  }

  /** A preflight request is refused like any other method that is not `POST`: the `OPTIONS`
      branch never answers, and the refusal carries no CORS headers. */
  lemma PreflightRefused(event: Event, env: NetlifyEnv, sent: bool)
    requires event.httpMethod == "OPTIONS"
    ensures Handler(event, env, sent).response == Response(405, [], ErrorJson(MethodNotAllowed, None))
  {
  }

  /** The mail's addressing: always to the company address, from the SMTP user's address shown
      under the submitter's name, the subject falling back to a fixed title. */
  lemma MailAddressing(d: ContactData, env: NetlifyEnv)
    ensures var m := MailOptionsFor(d, env);
      && m.to == "info@autegry.com"
      && m.from == "\"" + d.name + "\" <" + (if env.smtpUser.Some? then env.smtpUser.value else "undefined") + ">"
      && m.subject == (if d.subject == "" then "New Contact Form Submission" else d.subject)
      && m.replyTo.None?
  {
  }

  /** The HTML body shows the message with `<br>` for every newline. */
  lemma HtmlBodyShowsMessage(d: ContactData)
    ensures Contains(HtmlBody(d), "<p>" + HtmlMessage(d.message) + "</p>")
  {
    ContainsSelf(MessageCell(d.message));
    ContainsRight(Spaces(8), MessageCell(d.message), MessageCell(d.message));
    BodyContains((k: nat) => HtmlLine(d, k), 7, Spaces(6), 6, MessageCell(d.message));
  }

  /** The text body holds the message verbatim after its label. */
  lemma TextBodyShowsMessage(d: ContactData)
    ensures Contains(TextBody(d), "Message: " + d.message)
  {
    var t := "Message: " + d.message;
    ContainsSelf(t);
    ContainsRight(Spaces(8), t, t);
    assert TextLine(d, 6) == Spaces(8) + t;
    BodyContains((k: nat) => TextLine(d, k), 7, Spaces(6), 6, t);
  }

  /** The HTML body shows 'No subject' when the subject is empty, and the subject otherwise. */
  lemma HtmlBodyShowsSubject(d: ContactData)
    ensures Contains(HtmlBody(d), "<p><strong>Subject:</strong> " + ShownSubject(d.subject) + "</p>")
  {
    var h := SubjectCell(d.subject);
    ContainsSelf(h);
    ContainsRight(Spaces(8), h, h);
    BodyContains((k: nat) => HtmlLine(d, k), 7, Spaces(6), 4, h);
  }

  /** The text body shows the same subject line. */
  lemma TextBodyShowsSubject(d: ContactData)
    ensures Contains(TextBody(d), "Subject: " + ShownSubject(d.subject))
  {
    var t := "Subject: " + ShownSubject(d.subject);
    ContainsSelf(t);
    ContainsRight(Spaces(8), t, t);
    assert TextLine(d, 5) == Spaces(8) + t;
    BodyContains((k: nat) => TextLine(d, k), 7, Spaces(6), 5, t);
  }

  /** The handler refuses a parsed submission with 400 exactly when the Express route reports
      missing fields; it applies neither of the route's format checks, so a submission the route
      refuses for its email or its phone is handed to the transport here. */
  lemma SameRequiredFieldsAsRoute(d: ContactData, env: NetlifyEnv, sent: bool)
    ensures Handler(Event("POST", Parsed(d)), env, sent).response.status == 400 <==>
      EmailRoute.ValidateEmailData(d) == Some(EmailRoute.MissingFields)
    ensures EmailRoute.ValidateEmailData(d) in {Some(EmailRoute.InvalidEmailFormat), Some(EmailRoute.InvalidPhoneFormat)} ==>
      Handler(Event("POST", Parsed(d)), env, sent).mail == Some(MailOptionsFor(d, env))
  {
  }
}
