/** What the two contact controllers share: the submission as the request body
    carries it, the required-field gate, the outcome of a step with an external
    effect, the JSON response, and the two mails (to the operator and to the
    submitter) with the fields they interpolate. */
module Contact {
  import opened Wrappers
  import opened Subjects

  /** A field of the JSON request body: `None` when it is absent (`undefined`). */
  type Field = Option<string>

  /** JavaScript truthiness of a string field: present and non-empty. */
  predicate Truthy(f: Field) {
    f.Some? && f.value != ""
  }

  /** `f || fallback` for a string field. */
  function OrElse(f: Field, fallback: string): string {
    if Truthy(f) then f.value else fallback
  }

  datatype Submission = Submission(
    name: Field, lastname: Field, email: Field, phone: Field, subject: Field, message: Field)

  /** The gate both controllers run first: every field but the phone is truthy.
      Neither controller trims or checks formats here. */
  predicate HasRequiredFields(s: Submission) {
    Truthy(s.name) && Truthy(s.lastname) && Truthy(s.email) && Truthy(s.subject) && Truthy(s.message)
  }

  /** The outcome of a step that leaves the process (a file write, a mail send):
      success, or the `message` of the error it throws. */
  datatype Outcome = Ok | Fail(error: string)

  /** The outcomes the mail transport gives the two sends, in order. */
  datatype MailOutcomes = MailOutcomes(notify: Outcome, confirm: Outcome)

  /** An HTTP response: its status and the fields of its JSON body (`None` for a
      field that is absent or `undefined`, which JSON leaves out). */
  datatype Response = Response(status: int, message: string, success: Option<bool>, error: Option<string>)

  const RequiredFieldsMessage := "Please fill in all required fields"

  const MissingFields := Response(400, RequiredFieldsMessage, None, None)

  // ---------------------------------------------------------------- mails

  const NotificationPrefix := "\U{1F514} New Contact Form: "
  const ConfirmationSubject := "\U{2705} We received your message - Codease"
  const PhoneNotProvided := "Not provided"

  /** The parts of a mail's HTML body that come from the submission. */
  datatype MailBody =
    | NotificationBody(name: string, lastname: string, email: string, phone: string,
                       subject: string, message: string)
    | ConfirmationBody(name: string, lastname: string)

  datatype Mail = Mail(from: string, to: string, replyTo: Option<string>, subject: string, body: MailBody)

  /** `message.replace(/\n/g, '<br>')` */
  function ReplaceNewlines(m: string): (r: string)
    ensures '\n' !in r
    ensures '\n' !in m ==> r == m
    ensures |r| >= |m|
  {
    if m == [] then []
    else (if m[0] == '\n' then "<br>" else [m[0]]) + ReplaceNewlines(m[1..])
  }

  /** The replacement works piece by piece: replacing in a concatenation is
      concatenating the replacements. */
  lemma {:induction false} ReplaceNewlinesAppend(a: string, b: string)
    ensures ReplaceNewlines(a + b) == ReplaceNewlines(a) + ReplaceNewlines(b)
  {
    if a == [] {
      assert a + b == b;
    } else {
      var c := a[0];
      var head := if c == '\n' then "<br>" else [c];
      assert (a + b)[0] == c && (a + b)[1..] == a[1..] + b;
      ReplaceNewlinesAppend(a[1..], b);
      calc {
        ReplaceNewlines(a + b);
        head + ReplaceNewlines(a[1..] + b);
        head + (ReplaceNewlines(a[1..]) + ReplaceNewlines(b));
        (head + ReplaceNewlines(a[1..])) + ReplaceNewlines(b);
        ReplaceNewlines(a) + ReplaceNewlines(b);
      }
    }
  }

  /** Each newline becomes `<br>`, and the text around it is replaced on its own. */
  lemma NewlineBecomesBreak(a: string, b: string)
    ensures ReplaceNewlines(a + "\n" + b) == ReplaceNewlines(a) + "<br>" + ReplaceNewlines(b)
  {
    var nl: string := ['\n'];
    assert nl[1..] == [];
    assert ReplaceNewlines(nl) == "<br>";
    ReplaceNewlinesAppend(a, nl);
    ReplaceNewlinesAppend(a + nl, b);
  }

  /** The mail `sendEmailNotification` sends: from and to the company address,
      replies going to the submitter, the subject line carrying the subject's
      label, the message with its line breaks turned into `<br>`. */
  function NotificationMail(company: string, s: Submission): (m: Mail)
    requires HasRequiredFields(s)
    ensures m.from == company && m.to == company && m.replyTo == s.email
    ensures m.subject == NotificationPrefix + FormatSubject(s.subject.value)
    ensures m.body == NotificationBody(s.name.value, s.lastname.value, s.email.value,
                                       OrElse(s.phone, PhoneNotProvided), FormatSubject(s.subject.value),
                                       ReplaceNewlines(s.message.value))
    ensures '\n' !in m.body.message
    ensures m.body.phone == PhoneNotProvided <==> !Truthy(s.phone) || s.phone.value == PhoneNotProvided
  {
    var display := FormatSubject(s.subject.value);
    Mail(company, company, s.email, NotificationPrefix + display,
         NotificationBody(s.name.value, s.lastname.value, s.email.value,
                          OrElse(s.phone, PhoneNotProvided), display,
                          ReplaceNewlines(s.message.value)))
  }

  /** The mail `sendConfirmationEmail` sends: from the company address to the
      submitter, with a fixed subject and no reply-to. */
  function ConfirmationMail(company: string, s: Submission): (m: Mail)
    requires HasRequiredFields(s)
    ensures m.from == company && Some(m.to) == s.email && m.replyTo == None
    ensures m.subject == ConfirmationSubject
    ensures m.body == ConfirmationBody(s.name.value, s.lastname.value)
  {
    Mail(company, s.email.value, None, ConfirmationSubject,
         ConfirmationBody(s.name.value, s.lastname.value))
  }
}
