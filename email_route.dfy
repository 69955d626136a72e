/**
  The Express route `POST /send-email`: validation of the submitted fields, the SMTP settings taken
  from the environment, the mail it builds, and the response it sends for each outcome of the two
  transport calls (`verify` and `sendMail`). The environment is an explicit record, the transport
  calls are inputs giving their outcome, and the timestamp printed in both bodies is an input too.
 */
module EmailRoute {
  import opened Wrappers
  import opened JsText
  import opened ContactPatterns
  import opened MailTypes

  // ---------------------------------------------------------------------------------------------
  // Validation

  /** The three ways `validateEmailData` rejects a submission. */
  datatype ValidationError = MissingFields | InvalidEmailFormat | InvalidPhoneFormat

  /** The `error` string sent back with status 400. */
  function ValidationMessage(e: ValidationError): string
  {
    match e
    case MissingFields => "Missing required fields: name, email, phone, and message are required"
    case InvalidEmailFormat => "Invalid email format"
    case InvalidPhoneFormat => "Invalid phone number format"
  }

  /** `validateEmailData`: `None` is `{ isValid: true }`. The required-field check comes first,
      then the email pattern, then the phone pattern on the phone with all whitespace removed. */
  function ValidateEmailData(d: ContactData): (r: Option<ValidationError>)
    ensures r == Some(MissingFields) <==> MissingRequired(d)
    ensures r == Some(InvalidEmailFormat) <==> !MissingRequired(d) && !MatchesEmailPattern(d.email)
    ensures r == Some(InvalidPhoneFormat) <==>
      !MissingRequired(d) && MatchesEmailPattern(d.email) && !MatchesPhonePattern(RemoveWhitespace(d.phone))
  {
    if MissingRequired(d) then Some(MissingFields)
    else if !MatchesEmailPattern(d.email) then Some(InvalidEmailFormat)
    else if !MatchesPhonePattern(RemoveWhitespace(d.phone)) then Some(InvalidPhoneFormat)
    else None
  }

  /** What an accepted submission is, in plain terms: all four required fields are present, the
      email has no whitespace, one `@` after a non-empty local part and a dot inside its domain, and
      the phone, once whitespace is removed, is an optional `+` and eight or more digits, `-`, `(`
      or `)`. */
  lemma AcceptedSubmission(d: ContactData)
    ensures ValidateEmailData(d).None? <==>
      && !MissingRequired(d)
      && NoWhitespace(d.email)
      && (exists a :: 0 < a < |d.email| && OnlyAtSignAt(d.email, a) && InnerDomainDot(d.email, a))
      && var p := RemoveWhitespace(d.phone);
         var q := if p != [] && p[0] == '+' then p[1..] else p;
         |q| >= 8 && forall i :: 0 <= i < |q| ==> PhoneSymbol(q[i])
  {
    EmailPatternCharacterization(d.email);
    PhoneCheckCharacterization(d.phone);
  }

  /** An empty email is reported as missing, never as badly formatted, whatever the other fields. */
  lemma EmptyEmailIsMissing(d: ContactData)
    requires d.email == ""
    ensures ValidateEmailData(d) == Some(MissingFields)
  {
  }

  /** With the required fields present, an email without `@`, or without a dot after it, is
      rejected as badly formatted. */
  lemma EmailWithoutAtOrDotRejected(d: ContactData)
    requires !MissingRequired(d)
    requires !(exists a, b :: 0 <= a < b < |d.email| && d.email[a] == '@' && d.email[b] == '.')
    ensures ValidateEmailData(d) == Some(InvalidEmailFormat)
  {
    if MatchesEmailPattern(d.email) {
      EmailNeedsAtAndDot(d.email);
    }
  }

  /** With the other fields valid, a phone of fewer than eight characters besides whitespace is
      rejected as badly formatted. */
  lemma ShortPhoneIsInvalid(d: ContactData)
    requires !MissingRequired(d) && MatchesEmailPattern(d.email)
    requires |RemoveWhitespace(d.phone)| < 8
    ensures ValidateEmailData(d) == Some(InvalidPhoneFormat)
  {
    ShortPhoneRejected(d.phone);
  }

  // ---------------------------------------------------------------------------------------------
  // Environment and transporter

  /** The environment variables the route reads. `smtpPort` is what `parseInt` makes of
      `SECRET_SMTP_PORT` (`None` for `NaN`, which includes an unset variable). */
  datatype Env = Env(
    smtpHost: Option<string>,
    smtpUser: Option<string>,
    smtpPassword: Option<string>,
    smtpPort: Option<int>,
    emailFrom: Option<string>,
    emailTo: Option<string>,
    nodeEnv: Option<string>)

  /** A variable that is set to a non-empty value (truthy). */
  predicate IsSet(v: Option<string>)
  {
    v.Some? && v.value != ""
  }

  /** `v || fallback` */
  function OrElse(v: Option<string>, fallback: string): string
  {
    if IsSet(v) then v.value else fallback
  }

  /** `NODE_ENV === 'development'` */
  predicate IsDevelopment(env: Env)
  {
    env.nodeEnv == Some("development")
  }

  /** The settings `createTransporter` passes to `nodemailer.createTransport`. */
  datatype TransportConfig = TransportConfig(
    host: string,
    port: int,
    secure: bool,
    requireTLS: bool,
    user: string,
    pass: string,
    pool: bool,
    maxConnections: nat,
    maxMessages: nat,
    debug: bool,
    logger: bool,
    connectionTimeout: nat,
    greetingTimeout: nat,
    socketTimeout: nat)

  /** `parseInt(SECRET_SMTP_PORT) || 587`: `NaN` and `0` are falsy. */
  function EffectivePort(parsed: Option<int>): (port: int)
    ensures port != 0
    ensures parsed.None? || parsed == Some(0) ==> port == 587
    ensures parsed.Some? && parsed.value != 0 ==> port == parsed.value
  {
    if parsed.None? || parsed.value == 0 then 587 else parsed.value
  }

  /** `createTransporter`: `None` when it throws 'SMTP configuration missing', which it does, before
      any transport is created, exactly when the host, the user or the password is unset. */
  function CreateTransporter(env: Env): (r: Option<TransportConfig>)
    ensures r.None? <==> !IsSet(env.smtpHost) || !IsSet(env.smtpUser) || !IsSet(env.smtpPassword)
    ensures r.Some? ==>
      && r.value.host == env.smtpHost.value && r.value.host != ""
      && r.value.user == env.smtpUser.value && r.value.user != ""
      && r.value.pass == env.smtpPassword.value && r.value.pass != ""
      && r.value.port == EffectivePort(env.smtpPort)
      && r.value.debug == r.value.logger == IsDevelopment(env)
  {
    if !IsSet(env.smtpHost) || !IsSet(env.smtpUser) || !IsSet(env.smtpPassword) then None
    else Some(TransportConfig(
      host := env.smtpHost.value,
      port := EffectivePort(env.smtpPort),
      secure := false,
      requireTLS := true,
      user := env.smtpUser.value,
      pass := env.smtpPassword.value,
      pool := true,
      maxConnections := 5,
      maxMessages := 10,
      debug := IsDevelopment(env),
      logger := IsDevelopment(env),
      connectionTimeout := 60000,
      greetingTimeout := 30000,
      socketTimeout := 60000))
  }

  // ---------------------------------------------------------------------------------------------
  // The mail

  /** `EMAIL_FROM || SECRET_SMTP_USER || 'info@autegry.com'` */
  function FromAddress(env: Env): string
  {
    OrElse(env.emailFrom, OrElse(env.smtpUser, CompanyAddress))
  }

  /** `EMAIL_TO || 'info@autegry.com'` */
  function ToAddress(env: Env): string
  {
    OrElse(env.emailTo, CompanyAddress)
  }

  /** Line `k` of the HTML template, with its indentation. Line 8 shows the subject, line 13 the
      message with `<br>` for each newline, line 18 the timestamp. */
  function HtmlLine(d: ContactData, timestamp: string, k: nat): string
  {
    match k
    case 0 => Spaces(8) + "<div style=\"font-family: Arial, sans-serif; max-width: 600px; margin: 0 auto;\">"
    case 1 => Spaces(10) + "<h2 style=\"color: #333; border-bottom: 2px solid #007bff; padding-bottom: 10px;\">"
    case 2 => Spaces(12) + "New Contact Form Submission"
    case 3 => Spaces(10) + "</h2>"
    case 4 => Spaces(10) + "<div style=\"margin: 20px 0;\">"
    case 5 => Spaces(12) + "<p><strong>Name:</strong> " + d.name + "</p>"
    case 6 => Spaces(12) + "<p><strong>Email:</strong> <a href=\"mailto:" + d.email + "\">" + d.email + "</a></p>"
    case 7 => Spaces(12) + "<p><strong>Phone:</strong> <a href=\"tel:" + d.phone + "\">" + d.phone + "</a></p>"
    case 8 => Spaces(12) + HtmlSubjectCell(d.subject)
    case 9 => Spaces(10) + "</div>"
    case 10 => Spaces(10) + "<div style=\"margin-top: 20px;\">"
    case 11 => Spaces(12) + "<h3 style=\"color: #333;\">Message:</h3>"
    case 12 => Spaces(12) + "<div style=\"background-color: #f8f9fa; padding: 15px; border-left: 4px solid #007bff; border-radius: 4px;\">"
    case 13 => Spaces(14) + HtmlMessage(d.message)
    case 14 => Spaces(12) + "</div>"
    case 15 => Spaces(10) + "</div>"
    case 16 => Spaces(10) + "<div style=\"margin-top: 30px; padding-top: 20px; border-top: 1px solid #eee; color: #666; font-size: 12px;\">"
    case 17 => Spaces(12) + "<p>This email was sent from the Autegry website contact form.</p>"
    case 18 => Spaces(12) + "<p>Timestamp: " + timestamp + "</p>"
    case 19 => Spaces(10) + "</div>"
    case 20 => Spaces(8) + "</div>"
    case _ => ""
  }

  /** The paragraph of the HTML body that shows the subject. */
  function HtmlSubjectCell(subject: string): string
  {
    "<p><strong>Subject:</strong> " + ShownSubject(subject) + "</p>"
  }

  /** The `html` option: the 21 template lines after a leading newline, then the indentation of
      the closing backtick. */
  function HtmlBody(d: ContactData, timestamp: string): string
  {
    "\n" + Lines((k: nat) => HtmlLine(d, timestamp, k), 0, 21) + Spaces(6)
  }

  /** Line `k` of the text template: line 5 shows the subject, line 8 the message as submitted. */
  function TextLine(d: ContactData, timestamp: string, k: nat): string
  {
    match k
    case 0 => "New Contact Form Submission"
    case 1 => ""
    case 2 => "Name: " + d.name
    case 3 => "Email: " + d.email
    case 4 => "Phone: " + d.phone
    case 5 => "Subject: " + ShownSubject(d.subject)
    case 6 => ""
    case 7 => "Message:"
    case 8 => d.message
    case 9 => ""
    case 10 => "---"
    case 11 => "This email was sent from the Autegry website contact form."
    case 12 => "Timestamp: " + timestamp
    case _ => ""
  }

  /** The `text` option, laid out like the HTML one. */
  function TextBody(d: ContactData, timestamp: string): string
  {
    "\n" + Lines((k: nat) => TextLine(d, timestamp, k), 0, 13) + Spaces(6)
  }

  const DeliverabilityHeaders: seq<(string, string)> :=
    [("X-Entity-ID", "autegry-contact-form"), ("X-Priority", "3"), ("Importance", "Normal")]

  /** The `mailOptions` object of the route. */
  function MailOptionsFor(d: ContactData, env: Env, timestamp: string): MailOptions
  {
    MailOptions(
      from := "\"Autegry Contact Form\" <" + FromAddress(env) + ">",
      to := ToAddress(env),
      subject := SubjectOrDefault(d.subject),
      replyTo := Some(d.email),
      headers := DeliverabilityHeaders,
      html := HtmlBody(d, timestamp),
      text := TextBody(d, timestamp))
  }

  /** The defaults of the mail: the sender falls back to the SMTP user and then to the company
      address, the recipient to the company address, the subject to a fixed title, and replies go
      to the submitter. */
  lemma MailDefaults(d: ContactData, env: Env, timestamp: string)
    ensures var m := MailOptionsFor(d, env, timestamp);
      && m.from == "\"Autegry Contact Form\" <" + (if IsSet(env.emailFrom) then env.emailFrom.value
                                                 else if IsSet(env.smtpUser) then env.smtpUser.value
                                                 else CompanyAddress) + ">"
      && m.to == (if IsSet(env.emailTo) then env.emailTo.value else CompanyAddress)
      && m.replyTo == Some(d.email)
      && m.subject == (if d.subject == "" then DefaultSubject else d.subject)
  {
  }

  /** Once a transporter exists the SMTP user is set, so the sender is `EMAIL_FROM` or the SMTP
      user, never the company fallback unless one of those is that address. */
  lemma SenderWhenConfigured(env: Env)
    requires CreateTransporter(env).Some?
    ensures FromAddress(env) == if IsSet(env.emailFrom) then env.emailFrom.value else env.smtpUser.value
  {
  }

  /** The HTML body shows the message with `<br>` for each newline. */
  lemma HtmlBodyShowsMessage(d: ContactData, timestamp: string)
    ensures Contains(HtmlBody(d, timestamp), HtmlMessage(d.message))
  {
    ContainsSelf(HtmlMessage(d.message));
    ContainsRight(Spaces(14), HtmlMessage(d.message), HtmlMessage(d.message));
    BodyContains((k: nat) => HtmlLine(d, timestamp, k), 21, Spaces(6), 13, HtmlMessage(d.message));
  }

  /** The HTML body shows the subject, or 'No subject' when there is none. */
  lemma HtmlBodyShowsSubject(d: ContactData, timestamp: string)
    ensures Contains(HtmlBody(d, timestamp), "<p><strong>Subject:</strong> " + ShownSubject(d.subject) + "</p>")
  {
    ContainsSelf(HtmlSubjectCell(d.subject));
    ContainsRight(Spaces(12), HtmlSubjectCell(d.subject), HtmlSubjectCell(d.subject));
    BodyContains((k: nat) => HtmlLine(d, timestamp, k), 21, Spaces(6), 8, HtmlSubjectCell(d.subject));
  }

  /** The text body holds the message verbatim. */
  lemma TextBodyShowsMessage(d: ContactData, timestamp: string)
    ensures Contains(TextBody(d, timestamp), d.message)
  {
    ContainsSelf(d.message);
    BodyContains((k: nat) => TextLine(d, timestamp, k), 13, Spaces(6), 8, d.message);
  }

  /** The text body shows the same subject line as the HTML one. */
  lemma TextBodyShowsSubject(d: ContactData, timestamp: string)
    ensures Contains(TextBody(d, timestamp), "Subject: " + ShownSubject(d.subject))
  {
    ContainsSelf("Subject: " + ShownSubject(d.subject));
    BodyContains((k: nat) => TextLine(d, timestamp, k), 13, Spaces(6), 5, "Subject: " + ShownSubject(d.subject));
  }

  // ---------------------------------------------------------------------------------------------
  // Outcomes

  /** The cause a failed `sendMail` is classified as. */
  datatype Cause = AuthenticationFailed | ConnectionRefused | Timeout | HostNotFound | SmtpReply(code: int) | Unclassified

  /** One of the four error codes with a fixed message. */
  predicate KnownCode(code: Option<string>)
  {
    code in {Some("EAUTH"), Some("ECONNREFUSED"), Some("ETIMEDOUT"), Some("ENOTFOUND")}
  }

  /** The classification of the catch block: the four codes, tested in this order, before any
      reply code; a reply code counts only when it is truthy (not 0). */
  function Classify(e: TransportError): (c: Cause)
    ensures c == AuthenticationFailed <==> e.code == Some("EAUTH")
    ensures c == ConnectionRefused <==> e.code == Some("ECONNREFUSED")
    ensures c == Timeout <==> e.code == Some("ETIMEDOUT")
    ensures c == HostNotFound <==> e.code == Some("ENOTFOUND")
    ensures c.SmtpReply? <==> !KnownCode(e.code) && e.responseCode.Some? && e.responseCode.value != 0
    ensures c.SmtpReply? ==> Some(c.code) == e.responseCode
  {
    if e.code == Some("EAUTH") then AuthenticationFailed
    else if e.code == Some("ECONNREFUSED") then ConnectionRefused
    else if e.code == Some("ETIMEDOUT") then Timeout
    else if e.code == Some("ENOTFOUND") then HostNotFound
    else if e.responseCode.Some? && e.responseCode.value != 0 then SmtpReply(e.responseCode.value)
    else Unclassified
  }

  /** A known code decides the cause whatever reply code comes with it. */
  lemma CodeBeforeReplyCode(e: TransportError, rc: Option<int>)
    requires KnownCode(e.code)
    ensures Classify(e.(responseCode := rc)) == Classify(e)
  {
  }

  /** The decimal digits of a number, as `${n}` prints an integer. */
  function Digits(n: nat): (s: string)
    ensures |s| >= 1 && (n >= 10 ==> |s| >= 2)
    ensures forall i :: 0 <= i < |s| ==> '0' <= s[i] <= '9'
  {
    if n < 10 then [DigitChar(n)] else Digits(n / 10) + [DigitChar(n % 10)]
  }

  function DigitChar(d: nat): char
    requires d < 10
  {
    ('0' as int + d) as char
  }

  function NumberText(n: int): string
  {
    if n < 0 then "-" + Digits(-n) else Digits(n)
  }

  lemma {:induction false} DigitsInjective(a: nat, b: nat)
    requires Digits(a) == Digits(b)
    ensures a == b
  {
    if a >= 10 && b >= 10 {
      var da, db := Digits(a), Digits(b);
      assert da[|da| - 1] == DigitChar(a % 10) && db[|db| - 1] == DigitChar(b % 10);
      assert a % 10 == b % 10;
      assert da[..|da| - 1] == Digits(a / 10) && db[..|db| - 1] == Digits(b / 10);
      DigitsInjective(a / 10, b / 10);
    }
  }

  /** A printed number starts with a minus sign exactly when it is negative. */
  lemma NumberTextSign(n: int)
    ensures |NumberText(n)| >= 1 && (NumberText(n)[0] == '-' <==> n < 0)
  {
    if n < 0 {
      assert NumberText(n)[0] == '-';
    } else {
      assert NumberText(n)[0] == Digits(n)[0];
    }
  }

  /** Different numbers print differently. */
  lemma NumberTextInjective(a: int, b: int)
    requires NumberText(a) == NumberText(b)
    ensures a == b
  {
    NumberTextSign(a);
    NumberTextSign(b);
    if a < 0 && b < 0 {
      assert Digits(-a) == NumberText(a)[1..];
      DigitsInjective(-a, -b);
    } else if a >= 0 && b >= 0 {
      DigitsInjective(a, b);
    }
  }

  /** The `error` string sent for a failed send. */
  function ClientMessage(c: Cause): string
  {
    match c
    case AuthenticationFailed => "Email authentication failed"
    case ConnectionRefused => "Email service connection refused"
    case Timeout => "Email service timeout"
    case HostNotFound => "SMTP server not found"
    case SmtpReply(code) => "SMTP Error: " + NumberText(code)
    case Unclassified => "Failed to send email"
  }

  /** The hint of the development-only details. */
  function Hint(c: Cause): Option<string>
  {
    match c
    case AuthenticationFailed => Some("Check SMTP username and password in environment variables")
    case ConnectionRefused => Some("Check SMTP host and port configuration")
    case Timeout => Some("SMTP server is not responding - check network connectivity")
    case HostNotFound => Some("Check SMTP host address")
    case _ => None
  }

  /** The sixth character of a message is `E` exactly for an SMTP reply. */
  lemma ClientMessageMarks(c: Cause)
    ensures |ClientMessage(c)| > 5 && (ClientMessage(c)[5] == 'E' <==> c.SmtpReply?)
  {
  }

  /** The client can tell every cause apart from its message alone. */
  lemma ClientMessageInjective(c1: Cause, c2: Cause)
    requires ClientMessage(c1) == ClientMessage(c2)
    ensures c1 == c2
  {
    var prefix := "SMTP Error: ";
    ClientMessageMarks(c1);
    ClientMessageMarks(c2);
    if c1.SmtpReply? && c2.SmtpReply? {
      assert NumberText(c1.code) == ClientMessage(c1)[|prefix|..];
      NumberTextInjective(c1.code, c2.code);
    }
  }

  /** `details`, present only in development. */
  function DetailsFor(env: Env, e: TransportError, hint: Option<string>): Option<Details>
  {
    if IsDevelopment(env) then Some(Details(e.message, e.code, hint, e.response)) else None
  }

  const ConfigurationErrorMessage := "Email service configuration error"
  const ConnectionFailedMessage := "Email service connection failed"
  const SentMessage := "Email sent successfully"

  /** The outcome of `sendMail`. */
  datatype SendOutcome = Delivered(messageId: string) | Rejected(error: TransportError)

  /** What the route did besides answering: the transporter it created, whether it called
      `verify`, and the mail it handed to `sendMail`. */
  datatype Effects = Effects(transporter: Option<TransportConfig>, verified: bool, mail: Option<MailOptions>)

  /** The catch block for a failed send: a default message, replaced by the first matching rule,
      and a hint for the development-only details. */
  method SendFailureResponse(e: TransportError, env: Env) returns (resp: Response)
    ensures resp == Response(500, [], ErrorJson(ClientMessage(Classify(e)), DetailsFor(env, e, Hint(Classify(e)))))
  {
    var errorMessage := "Failed to send email";
    var hint: Option<string> := None;
    ghost var cause := Classify(e);
    if e.code == Some("EAUTH") {
      assert cause == AuthenticationFailed;
      errorMessage := "Email authentication failed";
      hint := Some("Check SMTP username and password in environment variables");
    } else if e.code == Some("ECONNREFUSED") {
      assert cause == ConnectionRefused;
      errorMessage := "Email service connection refused";
      hint := Some("Check SMTP host and port configuration");
    } else if e.code == Some("ETIMEDOUT") {
      assert cause == Timeout;
      errorMessage := "Email service timeout";
      hint := Some("SMTP server is not responding - check network connectivity");
    } else if e.code == Some("ENOTFOUND") {
      assert cause == HostNotFound;
      errorMessage := "SMTP server not found";
      hint := Some("Check SMTP host address");
    } else if e.responseCode.Some? && e.responseCode.value != 0 {
      assert cause == SmtpReply(e.responseCode.value);
      errorMessage := "SMTP Error: " + NumberText(e.responseCode.value);
    } else {
      assert cause == Unclassified;
    }
    resp := Response(500, [], ErrorJson(errorMessage, DetailsFor(env, e, hint)));
  }

  /** The `/send-email` handler. `verify` is `None` when `transporter.verify()` resolves and the
      error otherwise; `send` is the outcome of `sendMail`. */
  method SendEmail(d: ContactData, env: Env, verify: Option<TransportError>, send: SendOutcome, timestamp: string)
    returns (resp: Response, effects: Effects)
    ensures ValidateEmailData(d).Some? ==>
      && resp == Response(400, [], ErrorJson(ValidationMessage(ValidateEmailData(d).value), None))
      && effects == Effects(None, false, None)
    ensures ValidateEmailData(d).None? && CreateTransporter(env).None? ==>
      && resp == Response(500, [], ErrorJson(ConfigurationErrorMessage, None))
      && effects == Effects(None, false, None)
    ensures ValidateEmailData(d).None? && CreateTransporter(env).Some? ==>
      effects.transporter == CreateTransporter(env) && effects.verified
    ensures ValidateEmailData(d).None? && CreateTransporter(env).Some? && verify.Some? ==>
      && resp == Response(500, [], ErrorJson(ConnectionFailedMessage, DetailsFor(env, verify.value, None)))
      && effects.mail == None
    ensures ValidateEmailData(d).None? && CreateTransporter(env).Some? && verify.None? ==>
      && effects.mail == Some(MailOptionsFor(d, env, timestamp))
      && resp == match send
         case Delivered(id) => Response(200, [], MessageJson(SentMessage, Some(id)))
         case Rejected(e) => Response(500, [], ErrorJson(ClientMessage(Classify(e)), DetailsFor(env, e, Hint(Classify(e)))))
    ensures resp.status == 400 <==> ValidateEmailData(d).Some?
    ensures resp.status == 200 <==> effects.mail.Some? && send.Delivered?
    ensures resp.status in {200, 400, 500}
    ensures effects.transporter.Some? ==> ValidateEmailData(d).None?
  {
    var validation := ValidateEmailData(d);
    if validation.Some? {
      return Response(400, [], ErrorJson(ValidationMessage(validation.value), None)), Effects(None, false, None);
    }
    var transporter := CreateTransporter(env);
    if transporter.None? {
      return Response(500, [], ErrorJson(ConfigurationErrorMessage, None)), Effects(None, false, None);
    }
    if verify.Some? {
      resp := Response(500, [], ErrorJson(ConnectionFailedMessage, DetailsFor(env, verify.value, None)));
      return resp, Effects(transporter, true, None);
    }
    var mail := MailOptionsFor(d, env, timestamp);
    match send {
      case Delivered(id) =>
        resp := Response(200, [], MessageJson(SentMessage, Some(id)));
      case Rejected(e) =>
        resp := SendFailureResponse(e, env);
    }
    effects := Effects(transporter, true, Some(mail));
  }

  // ---------------------------------------------------------------------------------------------
  // Scenarios

  /** A submission whose email has no `@` is rejected as badly formatted. */
  lemma ScenarioMalformedEmail(d: ContactData)
    requires d.email == "not-an-email" && d.name != "" && d.phone != "" && d.message != ""
    ensures ValidateEmailData(d) == Some(InvalidEmailFormat)
  {
    assert forall i :: 0 <= i < |d.email| ==> d.email[i] != '@';
    EmailWithoutAtOrDotRejected(d);
  }

  /** A refused connection: status 500 with the refused-connection message, and no details
      outside development. */
  lemma ScenarioConnectionRefused(e: TransportError, env: Env)
    requires e.code == Some("ECONNREFUSED") && !IsDevelopment(env)
    ensures Classify(e) == ConnectionRefused
    ensures ClientMessage(Classify(e)) == "Email service connection refused"
    ensures DetailsFor(env, e, Hint(Classify(e))) == None
  {
  }
}
