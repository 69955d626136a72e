/**
  What the two contact-form handlers (the Express route and the serverless function) share: the
  submitted fields, the mail options handed to the transport, the error record the transport
  rejects with, the response shapes, and the small text rules both apply when they build a mail.
 */
module MailTypes {
  import opened Wrappers
  import opened JsText

  /** The fields destructured from the request body. A field that is absent is the empty string:
      every use of a field in the handlers is a truthiness test or an interpolation of a field that
      has passed one. */
  datatype ContactData = ContactData(name: string, email: string, phone: string, subject: string, message: string)

  /** `!name || !email || !phone || !message` */
  predicate MissingRequired(d: ContactData)
  {
    d.name == "" || d.email == "" || d.phone == "" || d.message == ""
  }

  /** The options given to `sendMail`. `replyTo` and `headers` are set by the Express route only. */
  datatype MailOptions = MailOptions(
    from: string,
    to: string,
    subject: string,
    replyTo: Option<string>,
    headers: seq<(string, string)>,
    html: string,
    text: string)

  /** The parts of a transport rejection the handlers read: `message`, `code`, `response` and the
      numeric SMTP reply code `responseCode` (section 4.2 of RFC 5321), which is only formatted. */
  datatype TransportError = TransportError(
    message: string,
    code: Option<string>,
    responseCode: Option<int>,
    response: Option<string>)

  /** The development-only `details` object of an error response. */
  datatype Details = Details(message: string, code: Option<string>, hint: Option<string>, response: Option<string>)

  /** The JSON bodies the handlers send: `{error, details?}`, `{message, messageId?}`, or `''`. */
  datatype Body =
    | ErrorJson(error: string, details: Option<Details>)
    | MessageJson(message: string, messageId: Option<string>)
    | EmptyBody

  datatype Response = Response(status: int, headers: seq<(string, string)>, body: Body)

  const CompanyAddress := "info@autegry.com"
  const DefaultSubject := "New Contact Form Submission"

  /** `subject || 'New Contact Form Submission'` */
  function SubjectOrDefault(subject: string): string
  {
    if subject == "" then DefaultSubject else subject
  }

  /** `subject || 'No subject'`, as both bodies print it. */
  function ShownSubject(subject: string): string
  {
    if subject == "" then "No subject" else subject
  }

  /** `message.replace(/\n/g, '<br>')`, the message as the HTML bodies show it. */
  function HtmlMessage(message: string): string
  {
    ReplaceChar(message, '\n', "<br>")
  }

  /** The HTML rendition of a message keeps no newline, grows by three characters per newline, is
      the message's lines joined with `<br>`, and is the message itself when it has no newline. */
  lemma HtmlMessageProperties(message: string)
    ensures forall j :: 0 <= j < |HtmlMessage(message)| ==> HtmlMessage(message)[j] != '\n'
    ensures |HtmlMessage(message)| == |message| + 3 * Count(message, '\n')
    ensures HtmlMessage(message) == Join(Split(message, "\n"), "<br>")
    ensures Count(message, '\n') == 0 ==> HtmlMessage(message) == message
  {
    ReplaceCharRemoves(message, '\n', "<br>");
    ReplaceCharLength(message, '\n', "<br>");
    ReplaceCharIsJoinSplit(message, '\n', "<br>");
    if Count(message, '\n') == 0 {
      ReplaceCharAbsent(message, '\n', "<br>");
    }
  }

  /** `n` spaces: the indentation of a template line. */
  function Spaces(n: nat): (s: string)
    ensures |s| == n
    ensures forall k :: 0 <= k < n ==> s[k] == ' '
  {
    if n == 0 then "" else " " + Spaces(n - 1)
  }

  /** The template lines `i` up to `j` (exclusive), each followed by a newline, of a template
      whose line `k` is `line(k)`. The mail bodies are template literals, so each of them is a
      leading newline, its lines, and the indentation of the closing backtick. */
  function Lines(line: nat -> string, i: nat, j: nat): string
    decreases j - i
  {
    if i >= j then "" else line(i) + "\n" + Lines(line, i + 1, j)
  }

  /** Every line of the range occurs in the text of the range. */
  lemma {:induction false} LinesContainLine(line: nat -> string, i: nat, j: nat, k: nat)
    requires i <= k < j
    ensures Contains(Lines(line, i, j), line(k))
    decreases j - i
  {
    var rest := Lines(line, i + 1, j);
    if k == i {
      ContainsSelf(line(i));
      ContainsLeft(line(i), "\n", line(k));
      ContainsLeft(line(i) + "\n", rest, line(k));
    } else {
      LinesContainLine(line, i + 1, j, k);
      ContainsRight(line(i) + "\n", rest, line(k));
    }
  }

  /** A text that occurs in a line of a mail body occurs in the body. */
  lemma BodyContains(line: nat -> string, n: nat, closing: string, k: nat, t: string)
    requires k < n && Contains(line(k), t)
    ensures Contains("\n" + Lines(line, 0, n) + closing, t)
  {
    LinesContainLine(line, 0, n, k);
    var s := Lines(line, 0, n);
    ContainsTransitive(s, line(k), t);
    ContainsRight("\n", s, t);
    ContainsLeft("\n" + s, closing, t);
  }

  /** The HTML rendition of a concatenation is the concatenation of the renditions. */
  lemma HtmlMessageConcat(a: string, b: string)
    ensures HtmlMessage(a + b) == HtmlMessage(a) + HtmlMessage(b)
  {
    ReplaceCharConcat(a, b, '\n', "<br>");
  }
}
