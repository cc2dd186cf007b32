/** The client-side checks of the three submit handlers (registration, sign-in
    and contact), once the field reads are taken as inputs and the network calls
    after the checks are left out. Each handler runs its checks in a fixed order
    and shows the message of the first one that fails; it goes on to submit only
    when every check passes. A field whose element is missing reads as the empty
    string, which the handlers treat exactly like an empty field. */
module Forms {
  import opened Wrappers
  import opened JsText
  import opened Validators
  import opened Checks
  import Contact

  const NameTooShortMessage := "Full name must be at least 3 characters long"
  const InvalidEmailMessage := "Please enter a valid email address"
  const InvalidPhoneMessage := "Please enter a valid phone number"
  const PasswordMismatchMessage := "Passwords do not match!"
  const NoCourseMessage := "Please select at least one course"
  const TermsMessage := "Please accept the Terms & Privacy Policy"
  const SignInFieldsMessage := "Please enter both email and password"

  // ---------------------------------------------------------------- registration

  /** The raw values the registration handler reads: the text fields untrimmed,
      the values of the checked course boxes, and the terms box (`None` when the
      page has none). */
  datatype RegistrationForm = RegistrationForm(
    fullname: string, email: string, phone: string,
    password: string, confirmPassword: string,
    checkedCourses: seq<string>, terms: Option<bool>)

  /** The checks of the registration handler, in the order it runs them. */
  datatype RegistrationCheck =
    | RequiredFields | NameLength | EmailFormat | PhoneFormat
    | PasswordsMatch | PasswordRulesMet | CourseSelected | TermsAccepted

  const RegistrationOrder: seq<RegistrationCheck> := [
    RequiredFields, NameLength, EmailFormat, PhoneFormat,
    PasswordsMatch, PasswordRulesMet, CourseSelected, TermsAccepted
  ]

  /** At least one checked course box with a non-empty value. */
  predicate HasSelectedCourse(checked: seq<string>) {
    exists k :: 0 <= k < |checked| && checked[k] != ""
  }

  predicate RegistrationFails(c: RegistrationCheck, f: RegistrationForm) {
    match c
    case RequiredFields =>
      Trim(f.fullname) == "" || Trim(f.email) == "" || f.password == "" || f.confirmPassword == ""
    case NameLength => JsLength(Trim(f.fullname)) < 3
    case EmailFormat => !ValidateEmail(Trim(f.email))
    case PhoneFormat => Trim(f.phone) != "" && !ValidatePhone(Trim(f.phone))
    case PasswordsMatch => f.password != f.confirmPassword
    case PasswordRulesMet => PasswordErrors(f.password) != []
    case CourseSelected => !HasSelectedCourse(f.checkedCourses)
    case TermsAccepted => f.terms == Some(false)
  }

  /** `validatePassword(password).errors[0]`, the one password message the
      handler shows (empty when there is none, a case the handler never shows). */
  function FirstPasswordError(password: string): string {
    var errors := PasswordErrors(password);
    if errors == [] then "" else errors[0]
  }

  function RegistrationMessage(c: RegistrationCheck, f: RegistrationForm): string {
    match c
    case RequiredFields => Contact.RequiredFieldsMessage
    case NameLength => NameTooShortMessage
    case EmailFormat => InvalidEmailMessage
    case PhoneFormat => InvalidPhoneMessage
    case PasswordsMatch => PasswordMismatchMessage
    case PasswordRulesMet => FirstPasswordError(f.password)
    case CourseSelected => NoCourseMessage
    case TermsAccepted => TermsMessage
  }

  /** The registration handler's chain of early returns: the message it shows,
      or `None` when it goes on to register. */
  function RegistrationError(f: RegistrationForm): Option<string> {
    if RegistrationFails(RequiredFields, f) then Some(RegistrationMessage(RequiredFields, f))
    else if RegistrationFails(NameLength, f) then Some(RegistrationMessage(NameLength, f))
    else if RegistrationFails(EmailFormat, f) then Some(RegistrationMessage(EmailFormat, f))
    else if RegistrationFails(PhoneFormat, f) then Some(RegistrationMessage(PhoneFormat, f))
    else if RegistrationFails(PasswordsMatch, f) then Some(RegistrationMessage(PasswordsMatch, f))
    else if RegistrationFails(PasswordRulesMet, f) then Some(RegistrationMessage(PasswordRulesMet, f))
    else if RegistrationFails(CourseSelected, f) then Some(RegistrationMessage(CourseSelected, f))
    else if RegistrationFails(TermsAccepted, f) then Some(RegistrationMessage(TermsAccepted, f))
    else None
  }

  /** The handler shows exactly one message, that of the first failing check in
      the order required fields, name length, email, phone, password match,
      password rules, course, terms; it shows none only when every check passes. */
  lemma RegistrationErrorIsFirstFailure(f: RegistrationForm)
    ensures RegistrationError(f) ==
      FirstError(RegistrationOrder, c => RegistrationFails(c, f), c => RegistrationMessage(c, f))
  {
    var fails, message := c => RegistrationFails(c, f), c => RegistrationMessage(c, f);
    RegistrationChain(fails, message);
  }

  /** The registration order unrolled, for any verdicts and messages. */
  lemma RegistrationChain(fails: RegistrationCheck -> bool, message: RegistrationCheck -> string)
    ensures FirstError(RegistrationOrder, fails, message) ==
      if fails(RequiredFields) then Some(message(RequiredFields))
      else if fails(NameLength) then Some(message(NameLength))
      else if fails(EmailFormat) then Some(message(EmailFormat))
      else if fails(PhoneFormat) then Some(message(PhoneFormat))
      else if fails(PasswordsMatch) then Some(message(PasswordsMatch))
      else if fails(PasswordRulesMet) then Some(message(PasswordRulesMet))
      else if fails(CourseSelected) then Some(message(CourseSelected))
      else if fails(TermsAccepted) then Some(message(TermsAccepted))
      else None
  {
    var t7 := [TermsAccepted];
    var t6 := [CourseSelected] + t7;
    var t5 := [PasswordRulesMet] + t6;
    var t4 := [PasswordsMatch] + t5;
    var t3 := [PhoneFormat] + t4;
    var t2 := [EmailFormat] + t3;
    var t1 := [NameLength] + t2;
    assert RegistrationOrder == [RequiredFields] + t1;
    assert t7 == [TermsAccepted] + [];
    FirstErrorCons(RequiredFields, t1, fails, message);
    FirstErrorCons(NameLength, t2, fails, message);
    FirstErrorCons(EmailFormat, t3, fails, message);
    FirstErrorCons(PhoneFormat, t4, fails, message);
    FirstErrorCons(PasswordsMatch, t5, fails, message);
    FirstErrorCons(PasswordRulesMet, t6, fails, message);
    FirstErrorCons(CourseSelected, t7, fails, message);
    FirstErrorCons(TermsAccepted, [], fails, message);
  }

  /** A registration that passes the checks has a trimmed name of at least three
      code units, a valid email, matching passwords and a password whose
      strength score is at least 3 (so the indicator calls it Medium or Strong). */
  lemma RegistrationAcceptsOnlyValidInput(f: RegistrationForm)
    requires RegistrationError(f) == None
    ensures JsLength(Trim(f.fullname)) >= 3
    ensures ValidateEmail(Trim(f.email))
    ensures f.password == f.confirmPassword
    ensures Strength(f.password) >= 3
  {
    PassedRegistrationFacts(f);
    AcceptedPasswordScoresAtLeastThree(f.password);
  }

  lemma PassedRegistrationFacts(f: RegistrationForm)
    requires RegistrationError(f) == None
    ensures JsLength(Trim(f.fullname)) >= 3
    ensures ValidateEmail(Trim(f.email))
    ensures f.password == f.confirmPassword
    ensures PasswordErrors(f.password) == []
  {
    assert !RegistrationFails(RequiredFields, f);
    assert !RegistrationFails(NameLength, f);
    assert !RegistrationFails(EmailFormat, f);
    assert !RegistrationFails(PhoneFormat, f);
    assert !RegistrationFails(PasswordsMatch, f);
    assert !RegistrationFails(PasswordRulesMet, f);
  }

  /** When the password is the first thing wrong, the handler shows the message
      of the first password rule it breaks. */
  lemma RegistrationReportsFirstBrokenRule(f: RegistrationForm)
    requires !RegistrationFails(RequiredFields, f) && !RegistrationFails(NameLength, f)
    requires !RegistrationFails(EmailFormat, f) && !RegistrationFails(PhoneFormat, f)
    requires !RegistrationFails(PasswordsMatch, f)
    requires PasswordErrors(f.password) != []
    ensures var first := FirstFailing(PasswordRules, r => !RuleHolds(r, f.password));
      first.Some? && RegistrationError(f) == Some(RuleMessage(PasswordRules[first.value]))
  {
    PasswordIsFirstFailure(f);
    ViolationsSpec(PasswordRules, f.password);
  }

  lemma PasswordIsFirstFailure(f: RegistrationForm)
    requires !RegistrationFails(RequiredFields, f) && !RegistrationFails(NameLength, f)
    requires !RegistrationFails(EmailFormat, f) && !RegistrationFails(PhoneFormat, f)
    requires !RegistrationFails(PasswordsMatch, f)
    requires PasswordErrors(f.password) != []
    ensures RegistrationError(f) == Some(PasswordErrors(f.password)[0])
  {
  }

  // ---------------------------------------------------------------- sign-in

  /** The raw values of the sign-in form. */
  datatype SignInForm = SignInForm(email: string, password: string)

  datatype SignInCheck = BothFields | SignInEmailFormat

  const SignInOrder: seq<SignInCheck> := [BothFields, SignInEmailFormat]

  predicate SignInFails(c: SignInCheck, f: SignInForm) {
    match c
    case BothFields => Trim(f.email) == "" || f.password == ""
    case SignInEmailFormat => !ValidateEmail(Trim(f.email))
  }

  function SignInMessage(c: SignInCheck): string {
    match c
    case BothFields => SignInFieldsMessage
    case SignInEmailFormat => InvalidEmailMessage
  }

  /** The sign-in handler's chain of early returns. */
  function SignInError(f: SignInForm): Option<string> {
    var email := Trim(f.email);
    if email == "" || f.password == "" then Some(SignInFieldsMessage)
    else if !ValidateEmail(email) then Some(InvalidEmailMessage)
    else None
  }

  /** Sign-in checks both fields first, then the email format. */
  lemma SignInErrorIsFirstFailure(f: SignInForm)
    ensures SignInError(f) == FirstError(SignInOrder, c => SignInFails(c, f), SignInMessage)
  {
    var fails := c => SignInFails(c, f);
    assert SignInOrder == [BothFields] + [SignInEmailFormat] && [SignInEmailFormat] == [SignInEmailFormat] + [];
    FirstErrorCons(BothFields, [SignInEmailFormat], fails, SignInMessage);
    FirstErrorCons(SignInEmailFormat, [], fails, SignInMessage);
  }

  // ---------------------------------------------------------------- contact

  /** The raw values of the contact form; the subject is a select and is not trimmed. */
  datatype ContactForm = ContactForm(
    name: string, lastname: string, email: string, phone: string, subject: string, message: string)

  datatype ContactCheck = ContactRequired | ContactEmailFormat | ContactPhoneFormat

  const ContactOrder: seq<ContactCheck> := [ContactRequired, ContactEmailFormat, ContactPhoneFormat]

  predicate ContactFails(c: ContactCheck, f: ContactForm) {
    match c
    case ContactRequired =>
      || Trim(f.name) == "" || Trim(f.lastname) == "" || Trim(f.email) == ""
      || f.subject == "" || Trim(f.message) == ""
    case ContactEmailFormat => !ValidateEmail(Trim(f.email))
    case ContactPhoneFormat => Trim(f.phone) != "" && !ValidatePhone(Trim(f.phone))
  }

  function ContactMessage(c: ContactCheck): string {
    match c
    case ContactRequired => Contact.RequiredFieldsMessage
    case ContactEmailFormat => InvalidEmailMessage
    case ContactPhoneFormat => InvalidPhoneMessage
  }

  /** The contact handler's chain of early returns. */
  function ContactFormError(f: ContactForm): Option<string> {
    var name, lastname, email := Trim(f.name), Trim(f.lastname), Trim(f.email);
    var phone, message := Trim(f.phone), Trim(f.message);
    if name == "" || lastname == "" || email == "" || f.subject == "" || message == "" then
      Some(Contact.RequiredFieldsMessage)
    else if !ValidateEmail(email) then Some(InvalidEmailMessage)
    else if phone != "" && !ValidatePhone(phone) then Some(InvalidPhoneMessage)
    else None
  }

  /** The contact form checks the required fields, then the email, then the phone
      (only when one is given). */
  lemma ContactFormErrorIsFirstFailure(f: ContactForm)
    ensures ContactFormError(f) == FirstError(ContactOrder, c => ContactFails(c, f), ContactMessage)
  {
    var fails := c => ContactFails(c, f);
    var t2 := [ContactPhoneFormat];
    var t1 := [ContactEmailFormat] + t2;
    assert ContactOrder == [ContactRequired] + t1 && t2 == [ContactPhoneFormat] + [];
    FirstErrorCons(ContactRequired, t1, fails, ContactMessage);
    FirstErrorCons(ContactEmailFormat, t2, fails, ContactMessage);
    FirstErrorCons(ContactPhoneFormat, [], fails, ContactMessage);
  }

  /** The JSON body the contact handler posts: the trimmed fields and the subject. */
  function ContactPayload(f: ContactForm): Contact.Submission {
    Contact.Submission(
      Some(Trim(f.name)), Some(Trim(f.lastname)), Some(Trim(f.email)),
      Some(Trim(f.phone)), Some(f.subject), Some(Trim(f.message)))
  }

  /** A submission the contact form lets through always passes the server's
      required-field gate, and its email is well formed. */
  lemma ClientAcceptedPassesServerGate(f: ContactForm)
    requires ContactFormError(f) == None
    ensures Contact.HasRequiredFields(ContactPayload(f))
    ensures MatchesEmailPattern(Trim(f.email))
  {
    ValidateEmailMatchesPattern(Trim(f.email));
  }
}
