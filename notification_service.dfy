/** notification-service: the `/api/notifications` handler, which decides whether
    to send a confirmation email and what the SMTP message is. The SMTP exchange
    is replaced by its outcome; the model returns the email it would hand over. */
module NotificationService {
  import opened Common
  import opened Decimal
  import opened FloatFormat
  import opened Http
  import opened Messages

  const SmtpHost := "mailhog"
  const SmtpPort := "1025"
  const Sender := "from@example.com"

  const PaymentSuccess := "success"
  const StatusSent := "sent"
  const StatusEmailFailed := "email_failed"

  const SubjectPrefix := "Payment Confirmation for Order #"
  const CRLF := "\r\n"

  /** What `smtp.SendMail` reports. */
  datatype SendOutcome = Delivered | SendFailed(err: string)

  /** The arguments of one `smtp.SendMail` call. */
  datatype Email = Email(addr: string, from: string, recipients: seq<string>, msg: string)

  /** The raw message `sendEmail` builds: two header lines, a blank line, the body. */
  function Message(to: string, subject: string, body: string): string {
    "To: " + to + CRLF + "Subject: " + subject + CRLF + CRLF + body + CRLF
  }

  /** `sendEmail(to, subject, body)`: the SMTP call it makes. The host and port are
      set just before a fallback test that therefore never fires. */
  function SendEmail(to: string, subject: string, body: string): (e: Email)
    ensures e.addr == "mailhog:1025" && e.from == Sender && e.recipients == [to]
    ensures e.msg == Message(to, subject, body)
  {
    Email(SmtpHost + ":" + SmtpPort, Sender, [to], Message(to, subject, body))
  }

  function Subject(orderId: int): string {
    SubjectPrefix + FormatInt(orderId)
  }

  const BodyGreeting := "Dear User,\n\nYour payment of $"
  const BodyOrder := " for Order #"
  const BodyClosing := " has been successfully processed.\n\nThank you!"

  /** The confirmation text, the amount printed with `%.2f` of `float64(amount)`. */
  function ConfirmationBody(orderId: int, amount: int): string {
    BodyGreeting + FormatFixed2(amount) + BodyOrder + FormatInt(orderId) + BodyClosing
  }

  /** An amount up to 2^53 in magnitude appears in the body as its own `%d`
      digits followed by ".00", right after the greeting. */
  lemma ConfirmationBodyShowsAmount(orderId: int, amount: int)
    requires -(Pow2(Precision) as int) <= amount <= Pow2(Precision)
    ensures
      var b := ConfirmationBody(orderId, amount);
      var k := |BodyGreeting| + |FormatInt(amount)|;
      && BodyGreeting <= b && k + 3 <= |b|
      && b[|BodyGreeting|..k] == FormatInt(amount)
      && b[k..k + 3] == ".00"
  {
    FormatFixed2Exact(amount);
    DigitsAfterLead(BodyGreeting, FormatInt(amount), BodyOrder, FormatInt(orderId), BodyClosing);
  }

  /** In `lead + (d + ".00") + …`, d sits right after the lead, and ".00" right after d. */
  lemma DigitsAfterLead(lead: string, d: string, s1: string, s2: string, s3: string)
    ensures
      var b := lead + (d + ".00") + s1 + s2 + s3;
      var k := |lead| + |d|;
      && lead <= b && k + 3 <= |b| && b[|lead|..k] == d && b[k..k + 3] == ".00"
  {
    var b := lead + (d + ".00") + s1 + s2 + s3;
    var k := |lead| + |d|;
    assert b[..|lead|] == lead;
    assert b[|lead|..k] == d;
    assert b[k..k + 3] == ".00";
  }

  /** The handler: 405 for another method, 400 for an undecodable body; otherwise
      an answer naming the order, and an email exactly when the payment status is
      "success", the answer saying "email_failed" exactly when that email failed. */
  function NotificationHandler(httpMethod: string, body: Decoded<NotificationRequest>, smtp: SendOutcome)
    : (r: (Reply<NotificationResponse>, Option<Email>))
    ensures httpMethod != MethodPost ==> r == (Error(StatusMethodNotAllowed, ErrMethodNotAllowed), None)
    ensures httpMethod == MethodPost && body.Undecodable? ==> r == (Error(StatusBadRequest, ErrInvalidRequest), None)
    ensures r.0.Json? <==> httpMethod == MethodPost && body.Decoded?
    ensures r.1.Some? <==> httpMethod == MethodPost && body.Decoded? && body.value.paymentStatus == PaymentSuccess
    ensures r.0.Json? ==>
      && r.0.value.orderId == body.value.orderId
      && (r.0.value.status == StatusSent || r.0.value.status == StatusEmailFailed)
      && (r.0.value.status == StatusEmailFailed <==> r.1.Some? && smtp.SendFailed?)
    ensures r.1.Some? ==>
      var req := body.value;
      r.1.value == SendEmail(req.userEmail, Subject(req.orderId), ConfirmationBody(req.orderId, req.amount))
  {
    if httpMethod != MethodPost then (Error(StatusMethodNotAllowed, ErrMethodNotAllowed), None)
    else if body.Undecodable? then (Error(StatusBadRequest, ErrInvalidRequest), None)
    else
      var req := body.value;
      if req.paymentStatus == PaymentSuccess then
        var email := SendEmail(req.userEmail, Subject(req.orderId), ConfirmationBody(req.orderId, req.amount));
        var status := if smtp.SendFailed? then StatusEmailFailed else StatusSent;
        (Json(NotificationResponse(req.orderId, status)), Some(email))
      else
        (Json(NotificationResponse(req.orderId, StatusSent)), None)
  }

  // Reading a message back

  predicate NoCR(s: string) {
    forall i :: 0 <= i < |s| ==> s[i] != '\r'
  }

  /** The index of the first carriage return in s, or |s|. */
  function LineEnd(s: string): (k: nat)
    ensures k <= |s| && NoCR(s[..k])
    ensures k < |s| ==> s[k] == '\r'
  {
    if s == [] || s[0] == '\r' then 0
    else
      var k := 1 + LineEnd(s[1..]);
      assert s[..k] == [s[0]] + s[1..][..k - 1];
      k
  }

  /** Splits `name + value + CRLF + rest` into value and rest, the value running to
      the first carriage return. */
  function HeaderLine(s: string, name: string): Option<(string, string)> {
    if name <= s then
      var t := s[|name|..];
      var k := LineEnd(t);
      if k + 2 <= |t| && t[k + 1] == '\n' then Some((t[..k], t[k + 2..])) else None
    else None
  }

  /** The recipient, subject and body that a message of `Message`'s layout carries. */
  function ParseMessage(m: string): Option<(string, string, string)> {
    match HeaderLine(m, "To: ")
    case None => None
    case Some((to, rest)) =>
      match HeaderLine(rest, "Subject: ")
      case None => None
      case Some((subject, rest')) =>
        if |rest'| >= 4 && rest'[..2] == CRLF && rest'[|rest'| - 2..] == CRLF
        then Some((to, subject, rest'[2..|rest'| - 2]))
        else None
  }

  lemma {:induction false} LineEndOfLine(v: string, rest: string)
    requires NoCR(v)
    ensures LineEnd(v + CRLF + rest) == |v|
  {
    if v != [] {
      assert (v + CRLF + rest)[1..] == v[1..] + CRLF + rest;
      LineEndOfLine(v[1..], rest);
    }
  }

  lemma HeaderLineOf(name: string, v: string, rest: string)
    requires NoCR(v)
    ensures HeaderLine(name + v + CRLF + rest, name) == Some((v, rest))
  {
    var s := name + v + CRLF + rest;
    assert s[..|name|] == name;
    var t := s[|name|..];
    assert t == v + CRLF + rest;
    LineEndOfLine(v, rest);
    assert t[..|v|] == v;
    assert t[|v| + 1] == '\n';
    assert t[|v| + 2..] == rest;
  }

  /** When neither header value contains a carriage return, the message reads back
      as exactly its recipient, subject and body, whatever the body holds. */
  lemma ParseMessageRoundTrip(to: string, subject: string, body: string)
    requires NoCR(to) && NoCR(subject)
    ensures ParseMessage(Message(to, subject, body)) == Some((to, subject, body))
  {
    var tail := CRLF + body + CRLF;
    var rest := "Subject: " + subject + CRLF + tail;
    MessageLayout(to, subject, body);
    HeaderLineOf("To: ", to, rest);
    HeaderLineOf("Subject: ", subject, tail);
    BlankLineThenBody(body);
  }

  lemma MessageLayout(to: string, subject: string, body: string)
    ensures Message(to, subject, body) == "To: " + to + CRLF + ("Subject: " + subject + CRLF + (CRLF + body + CRLF))
  {
  }

  lemma BlankLineThenBody(body: string)
    ensures
      var tail := CRLF + body + CRLF;
      |tail| >= 4 && tail[..2] == CRLF && tail[|tail| - 2..] == CRLF && tail[2..|tail| - 2] == body
  {
  }

  /** The subject names the order: its number reads back from after the prefix. */
  lemma SubjectNamesOrder(orderId: int)
    requires IsInt64(orderId)
    ensures NoCR(Subject(orderId))
    ensures SubjectPrefix <= Subject(orderId)
    ensures Atoi(Subject(orderId)[|SubjectPrefix|..]) == Some(orderId)
  {
    var d := FormatInt(orderId);
    assert Subject(orderId)[|SubjectPrefix|..] == d;
    AtoiFormatInt(orderId);
    SubjectNoCR(orderId);
  }

  lemma SubjectNoCR(orderId: int)
    ensures NoCR(Subject(orderId))
  {
    FormatIntNoCR(orderId);
    assert NoCR(SubjectPrefix);
    NoCRAppend(SubjectPrefix, FormatInt(orderId));
  }

  lemma NoCRAppend(a: string, b: string)
    requires NoCR(a) && NoCR(b)
    ensures NoCR(a + b)
  {
    forall i | 0 <= i < |a + b| ensures (a + b)[i] != '\r' {
      if i >= |a| {
        assert (a + b)[i] == b[i - |a|];
      }
    }
  }

  lemma FormatIntNoCR(n: int)
    ensures NoCR(FormatInt(n))
  {
    var d := FormatInt(n);
    if n < 0 {
      var t := NatDigits(-n);
      assert d == "-" + t;
      forall i | 0 <= i < |d| ensures d[i] != '\r' {
        if i > 0 {
          assert d[i] == t[i - 1];
        }
      }
    }
  }

  /** The confirmation email for a request carries its address, subject and body. */
  lemma ConfirmationEmailReadsBack(req: NotificationRequest, smtp: SendOutcome)
    requires req.paymentStatus == PaymentSuccess && NoCR(req.userEmail) && IsInt64(req.orderId)
    ensures NotificationHandler(MethodPost, Decoded(req), smtp).1.Some?
    ensures
      var e := NotificationHandler(MethodPost, Decoded(req), smtp).1.value;
      ParseMessage(e.msg) == Some((req.userEmail, Subject(req.orderId), ConfirmationBody(req.orderId, req.amount)))
  {
    SubjectNamesOrder(req.orderId);
    ParseMessageRoundTrip(req.userEmail, Subject(req.orderId), ConfirmationBody(req.orderId, req.amount));
  }
}
