# Codease contact site — a Dafny model

This project models the logic of the Codease course site that can be stated
without a browser, a mail server or a file system. It covers three parts:

- **Client script (`js/script.js`).**
  - The email, phone and password validators.
  - The password strength score and its label.
  - The first-failure check chains of the registration, sign-in and contact
    submit handlers.
  - The slideshow index arithmetic.
  - The choice of the active navigation link.
- **Main backend contact controller.**
  - The required-field gate.
  - The save → operator mail → confirmation mail pipeline, with its
    environment-dependent error report.
  - The contact-submission spreadsheet, as an object holding whether the file
    exists, its header row and its data rows.
  - The download endpoint.
- **Mail-only API contact controller.**
  - The same gate and mails.
  - No spreadsheet.
  - A raw error message on failure.

Browser field reads, the outcomes of file writes and mail sends, the
environment's `NODE_ENV`, the company address and the save timestamp are all
inputs to the model. Each effect is modelled as an `Outcome`: `Ok`, or `Fail`
carrying the error's message. Each controller returns the sequence of mails it
handed to the transport.

## Modelling choices

- **Strings.**
  - A string is a sequence of Unicode scalar values.
  - JavaScript's `.length` counts UTF-16 code units, which is `JsText.JsLength`.
  - `\s` is the full whitespace set of ECMAScript's `WhiteSpace` and
    `LineTerminator`.
  - `trim`, `indexOf`, `split` and `join` are restated in `JsText`.
- **Email pattern.** `/^[^\s@]+@[^\s@]+\.[^\s@]+$/` has a reference reading as
  a ghost predicate: some split into local part, domain head and domain tail.
  `ValidateEmail` is proved equal to it. `ValidateEmail` checks the characters,
  looks up the single `@`, and looks for a `.` inside the domain that has a
  character on each side.
- **Phone pattern.** The character class `/^[\d\s\-\+\(\)]+$/` is a recursive
  matcher, proved equal to "every character is in the class".
- **Request fields.** Server-side request fields are `Option<string>`, with
  `None` for absent. A field is truthy when it is present and non-empty.
- **Server gate and trimming.**
  - Both controllers test the raw body fields for truthiness. Neither trims.
  - So a field made only of spaces passes the gate.
  - A contact-form submission from the site itself has its text fields trimmed
    by the client. The subject is posted untrimmed, but the client has checked
    that it is non-empty (`Forms.ClientAcceptedPassesServerGate`).
- **Subject table.** The five-entry subject table appears three times in the
  sources: in `formatSubject`, in the backend's operator mail and in the API's
  operator mail. All three copies have the same entries, so the model holds
  the table once, in `Subjects`.

## Model

| member | source | states |
|---|---|---|
| JsText.JsLength | js/script.js:465 | the UTF-16 length lies between the number of characters and twice that, and equals it exactly when every character is in the Basic Multilingual Plane |
| JsText.Trim | js/script.js:446-448 | the result is the slice of the input left after removing its leading and trailing whitespace: everything before and after it is whitespace; it is empty exactly when the input is all whitespace, and otherwise starts and ends with a non-whitespace character |
| JsText.Split | js/script.js:912 | there is at least one part; the parts joined with the separator give back the input; no part contains the separator |
| JsText.JoinEndsWithLast | js/script.js:912 | the joined string ends with the last part, preceded by the separator when there are several parts |
| Checks.FirstFailing | js/script.js:458-505 | `None` exactly when every check passes; otherwise the index of a failing check with every earlier check passing |
| Validators.ValidateEmailMatchesPattern | js/script.js:120-123 | the email check `Validators.ValidateEmail` accepts exactly the strings with one `@`, no whitespace, a non-empty local part, and a `.` in the domain with a character on each side |
| Validators.PhonePatternIsAllPhoneChars | js/script.js:126 | the phone regex matches exactly the non-empty strings made of digits, whitespace, `-`, `+`, `(` and `)` |
| Validators.ValidatePhoneCharacterization | js/script.js:125-128 | the phone check `Validators.ValidatePhone` accepts exactly the strings of UTF-16 length at least 10 whose every character is in the phone class |
| Validators.RuleMessageInjective | js/script.js:133-144 | the four password messages are pairwise distinct, so a message names its rule |
| Validators.ViolationsSpec | js/script.js:130-150 | no more messages than rules; empty exactly when every rule holds; the first message belongs to the first failing rule |
| Validators.ViolationsNameFailingRules | js/script.js:133-144 | a rule's message is listed exactly when the rule fails |
| Validators.MessageComesFromRule | js/script.js:130-150 | every listed message is the message of a failing rule |
| Validators.PasswordErrorsInOrder | js/script.js:133-144 | the error list is built in the fixed order: length, lowercase, uppercase, digit |
| Validators.AllRulesHoldIffNoErrors | js/script.js:146-149 | the password has no errors exactly when it has at least 8 code units, a lowercase letter, an uppercase letter and a digit |
| Validators.ValidatePassword | js/script.js:130-150 | returns the rule messages in order; `isValid` holds exactly when the list is empty, exactly when every rule holds; at most 4 messages |
| Validators.CountMet | js/script.js:152-162 | the count is at most the number of criteria, and equals it exactly when all are met |
| Validators.Strength | js/script.js:152-162 | the score is between 0 and 5 |
| Validators.StrengthInOrder | js/script.js:155-159 | the score is the sum of one point each for length ≥ 8, length ≥ 12, mixed case, a digit and a symbol |
| Validators.CheckPasswordStrength | js/script.js:152-162 | the loop-free counter returns the score, which is at most 5 |
| Validators.AcceptedPasswordScoresAtLeastThree | js/script.js:130-162 | a password the validator accepts scores at least 3 |
| Validators.StrengthIndicator | js/script.js:394-422 | no label exactly for an empty value; otherwise Weak for scores 0–1, Strong for 4–5, and Medium for 2–3; never unlabelled |
| Validators.AcceptedPasswordIsNotWeak | js/script.js:394-422 | a password the validator accepts is labelled Medium or Strong, never Weak |
| Forms.RegistrationErrorIsFirstFailure | js/script.js:443-505 | the registration handler `Forms.RegistrationError` shows the message of the first failing check: required fields, name length, email, phone if given, match, password rules, course, terms; it shows none exactly when all pass |
| Forms.RegistrationChain | js/script.js:458-505 | the first-failure chain over the registration order is the sequence of early returns: required fields, name length, email, phone, match, password rules, course, terms |
| Forms.PassedRegistrationFacts | js/script.js:459-493 | an accepted registration has a trimmed name of UTF-16 length at least 3, a valid email, matching passwords and no password errors |
| Forms.RegistrationAcceptsOnlyValidInput | js/script.js:459-493 | an accepted registration has a trimmed name of length at least 3, a valid email, matching passwords, and a password scoring at least 3 |
| Forms.PasswordIsFirstFailure | js/script.js:488-493 | when the earlier checks pass and the password breaks a rule, the handler shows `errors[0]` |
| Forms.RegistrationReportsFirstBrokenRule | js/script.js:488-493 | in that case the message shown is that of the first password rule broken |
| Forms.SignInErrorIsFirstFailure | js/script.js:584-596 | the sign-in handler `Forms.SignInError` reports missing fields first, then a bad email, and nothing when both pass |
| Forms.ContactFormErrorIsFirstFailure | js/script.js:658-679 | the contact form handler `Forms.ContactFormError` reports missing fields, then a bad email, then a bad phone (only when one is given), and nothing when all pass |
| Forms.ClientAcceptedPassesServerGate | js/script.js:658-700 | what the contact form posts after passing its checks always passes the server's required-field gate `Contact.HasRequiredFields`, with a well-formed email |
| Navigation.NextSlide | js/script.js:868-871 | the next index stays in [0, 4) and is one more than the current index, wrapping from 3 to 0 |
| Navigation.PrevSlide | js/script.js:873-876 | the previous index stays in [0, 4) and is one less than the current index, wrapping from 0 to 3 |
| Navigation.PrevUndoesNext | js/script.js:868-876 | going back after going forward returns to the same slide, and the other way round |
| Navigation.Advance | js/script.js:868-885 | any number of steps of the three-second timer keeps the index in [0, 4) |
| Navigation.AdvanceIsModular | js/script.js:869 | n forward steps from slide i land on (i + n) mod 4 |
| Navigation.AdvanceCycles | js/script.js:869-881 | the timer returns to the starting slide after 4 steps, and reaches any slide t from slide i after (t − i) mod 4 steps |
| Navigation.CurrentPage | js/script.js:912 | the page is non-empty and never contains `/`; it is `index.html` for an empty path or one ending in `/`; otherwise it is the suffix of the path after its last `/` |
| Navigation.ActiveLinks | js/script.js:911-920 | a link is marked active exactly when its href equals the current page; only links whose href is non-empty and free of `/` are ever marked active; on an empty path or one ending in `/`, exactly the `index.html` links are marked |
| Subjects.FormatSubject | codease_backend/controllers/contact_controller.js:309-318 | a known code gets its label; the result is the code itself exactly when the code is unknown; it is never a known code; it is empty exactly when the code is |
| Subjects.FormatSubjectIdempotent | codease_backend/controllers/contact_controller.js:309-318 | formatting a formatted subject changes nothing |
| Subjects.KnownLabelsDistinct | codease_backend/controllers/contact_controller.js:310-316 | distinct known codes have distinct labels |
| Contact.ReplaceNewlines | codease_backend/controllers/contact_controller.js:214 | the result contains no newline, is never shorter than the input, and is the input itself when the input has no newline |
| Contact.NewlineBecomesBreak | codease_backend/controllers/contact_controller.js:214 | each newline becomes `<br>`, and the text on either side of it is replaced on its own |
| Contact.ReplaceNewlinesAppend | codease_backend/controllers/contact_controller.js:214 | replacing newlines in a concatenation is the concatenation of the replacements |
| Contact.NotificationMail | codease_backend/controllers/contact_controller.js:151-214 | the operator mail is from and to the company address and replies to the submitter; its subject is the prefix plus the subject label; its body shows exactly the submitted name, last name and email, the phone or "Not provided", the subject label, and the message with each newline as `<br>` (so no newline remains); the phone reads "Not provided" exactly when it is missing (or literally that text). The API's mail (api/controllers/contact_controller.js lines 54-116) is the same |
| Contact.ConfirmationMail | codease_backend/controllers/contact_controller.js:253-256 | the confirmation is from the company address to the submitter's email, with the fixed subject and no reply-to |
| Backend.SubmissionRow | codease_backend/controllers/contact_controller.js:100-108 | the row carries the save time; the name, last name, email and message are as submitted, and a given phone is written as given; its phone is "N/A" exactly when the phone is missing (or literally that text); its subject is the subject label; every cell after the time is non-empty |
| Backend.RowAndMailAgreeOnSubject | codease_backend/controllers/contact_controller.js:151-166 | the spreadsheet row and the operator mail show the same subject label |
| Backend.ServerError | codease_backend/controllers/contact_controller.js:36-42 | 500 with the fixed failure message; the error detail is present exactly when `NODE_ENV` is `development`, and is then the error's message |
| Backend.SubmissionLog.constructor | codease_backend/controllers/contact_controller.js:60-66 | a fresh deployment has no file, no header and no rows |
| Backend.SubmissionLog.SaveToExcel | codease_backend/controllers/contact_controller.js:47-124 | a failed write changes nothing; a successful one leaves the file existing, writes the seven-column header only when there was no file (an existing header is untouched), and appends exactly one row at the end, keeping the earlier rows |
| Backend.SubmissionLog.Download | codease_backend/controllers/contact_controller.js:321-336 | 404 "No contact submissions found" when there is no file; otherwise the whole file as `contact_submissions.xlsx`, or 500 "Error downloading file" when the transfer fails |
| Backend.SendContactMessage | codease_backend/controllers/contact_controller.js:7-44 | missing field (`Contact.HasRequiredFields` fails): 400, no row and no mail; otherwise save, operator mail, confirmation mail in order; a successful save leaves the file existing, writes the header only for a new file and appends the submission's row, and a failed save changes nothing; the first failure skipping the rest and answering the 500 of `ServerError`; 200 with `success: true` exactly when every step succeeds |
| Backend.DownloadAfterFirstSubmission | codease_backend/controllers/contact_controller.js:7-124 | on a fresh deployment, one complete submission whose save and mails succeed makes the download serve the seven-column header and exactly that submission's row |
| Api.SendContactMessage | api/controllers/contact_controller.js:6-39 | missing field (`Contact.HasRequiredFields` fails): 400 and no mail; otherwise the operator mail and then, only if it succeeded, the confirmation; a failure answers 500 with the error's own message; 200 with `success: true` and "Message sent successfully!" exactly when both sends succeed |

## Left out

- DOM building, animations, the cursor trail and the counters in `js/script.js`: presentation only. They rely on timers, floating point and `Math.random`.
- The network calls after each form's checks (`fetch`), `localStorage` and the redirects: browser and network I/O. The model stops at the decision to submit.
- The slideshow's update of the current index 800 ms after a click: timer-driven. Only the index arithmetic is modelled.
- Validators.StrengthIndicator: does not model the colour of the indicator or the DOM element it replaces.
- The mail transport and the ExcelJS reads and writes: foreign libraries and I/O. Each send or save is an input `Outcome`.
- The cell styling and borders of the spreadsheet.
- The creation of the data directory before a save.
- Backend.SubmissionLog.SaveToExcel: an existing file without the "Contact Submissions" sheet makes the source throw while adding the row. The model folds that case into a failed write, so the state is unchanged.
- Backend.SubmissionLog.SaveToExcel: assumes the keyed row is written with all seven cells also when the file already existed. Only a new file gets the column keys (codease_backend/controllers/contact_controller.js:68-76); the source relies on the spreadsheet library to fill a keyed row on a re-loaded sheet (lines 100-108), which the model does not check.
- Backend.SubmissionLog.SaveToExcel: each request is modelled as running alone, its save atomic. In the source the save waits on the file read and on the file write (codease_backend/controllers/contact_controller.js:62, 123), so two overlapping saves can load the same rows and one submission's row is lost, or, with no file yet, one fresh file overwrites the other. Concurrency is not modelled.
- Backend.SubmissionLog.SaveToExcel: a write that fails part-way is modelled as changing nothing.
- The save timestamp produced by `toLocaleString`: an input string.
- The HTML templates of both mails: only the fields they interpolate are modelled.
- Non-string JSON values in the request body (numbers, objects, booleans): fields are strings or absent.
- JavaScript prototype-key lookups in the subject table (a code such as `constructor`): the table is exactly five entries with pass-through.
- Backend.SubmissionLog.Download: the outer 500 "Server error" for an exception thrown before the transfer starts is not modelled. That exception can come only from path building.
- Backend.ServerError: a thrown value that has no `message` property gives no error detail, even in development. The model always carries a message, so there the detail is always present.
- Api.SendContactMessage: an error that has no `message` property answers 500 with no message field. The model always carries a message.
- `server.js`, `app.js` and both route files: Express wiring, CORS and listening only. They are not part of this model.
- The console logging in both controllers.
