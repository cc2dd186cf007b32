/** The contact controller of the main backend: the required-field gate, then
    save to the submission spreadsheet, mail to the operator, mail to the
    submitter, in that order, any failure ending the request with a 500; and the
    download of the spreadsheet. The spreadsheet file is modelled as an object
    holding whether the file exists, its header row and its data rows; the
    outcome of each file write and mail send is an input. */
module Backend {
  import opened Wrappers
  import opened Contact
  import opened Subjects

  const SheetColumns: seq<string> :=
    ["Date & Time", "First Name", "Last Name", "Email", "Phone", "Subject", "Message"]
  const LogFileName := "contact_submissions.xlsx"
  const PhonePlaceholder := "N/A"
  const SuccessMessage := "Message sent successfully! We will get back to you soon."
  const FailureMessage := "Failed to send message. Please try again or contact us directly."
  const NoSubmissionsMessage := "No contact submissions found"
  const DownloadErrorMessage := "Error downloading file"

  /** One data row of the spreadsheet, one cell per column of `SheetColumns`. */
  datatype Row = Row(datetime: string, name: string, lastname: string, email: string,
                     phone: string, subject: string, message: string)

  /** The row `saveToExcel` adds for a submission that passed the gate, stamped
      with the locale-formatted time of the save. Every cell after the time is
      non-empty: a missing phone is written as `N/A`, and the subject is its
      label from the subject table. */
  function SubmissionRow(timestamp: string, s: Submission): (row: Row)
    requires HasRequiredFields(s)
    ensures row.datetime == timestamp
    ensures row.name == s.name.value && row.lastname == s.lastname.value && row.email == s.email.value
    ensures Truthy(s.phone) ==> row.phone == s.phone.value
    ensures row.name != "" && row.lastname != "" && row.email != ""
    ensures row.phone != "" && row.subject != "" && row.message != ""
    ensures row.phone == PhonePlaceholder <==> !Truthy(s.phone) || s.phone.value == PhonePlaceholder
    ensures row.subject == FormatSubject(s.subject.value)
    ensures row.message == s.message.value
  {
    Row(timestamp, s.name.value, s.lastname.value, s.email.value,
        OrElse(s.phone, PhonePlaceholder), FormatSubject(s.subject.value), s.message.value)
  }

  /** The spreadsheet and the operator mail show the same subject label. */
  lemma RowAndMailAgreeOnSubject(timestamp: string, company: string, s: Submission)
    requires HasRequiredFields(s)
    ensures NotificationMail(company, s).subject == NotificationPrefix + SubmissionRow(timestamp, s).subject
    ensures NotificationMail(company, s).body.subject == SubmissionRow(timestamp, s).subject
  {
  }

  /** The 500 response of the main backend: a fixed message, and the error's own
      message only when `NODE_ENV` is `development`. */
  function ServerError(nodeEnv: Option<string>, error: string): (r: Response)
    ensures r.status == 500 && r.message == FailureMessage && r.success == None
    ensures r.error.Some? <==> nodeEnv == Some("development")
    ensures r.error.Some? ==> r.error.value == error
  {
    Response(500, FailureMessage, None, if nodeEnv == Some("development") then Some(error) else None)
  }

  const Success := Response(200, SuccessMessage, Some(true), None)

  /** What the download endpoint answers: the spreadsheet file as an attachment,
      or a JSON error. */
  datatype DownloadResponse =
    | Attachment(fileName: string, header: seq<string>, rows: seq<Row>)
    | JsonError(status: int, message: string)

  /** The spreadsheet file on disk. */
  class SubmissionLog {
    var fileExists: bool
    var header: seq<string>
    var rows: seq<Row>

    /** A file that does not exist has no header and no rows. */
    ghost predicate Valid()
      reads this
    {
      !fileExists ==> header == [] && rows == []
    }

    /** No file yet: the state of a fresh deployment. */
    constructor ()
      ensures Valid() && !fileExists && header == [] && rows == []
    {
      fileExists := false;
      header := [];
      rows := [];
    }

    /** `saveToExcel`: load the file if it exists, otherwise start one with the
        seven-column header; add one row at the end; write the file back. A write
        that fails (`io`) leaves the file as it was. An existing header is never
        touched, and the earlier rows are kept as they were, in order. */
    method SaveToExcel(s: Submission, timestamp: string, io: Outcome) returns (r: Outcome)
      requires Valid() && HasRequiredFields(s)
      modifies this
      ensures Valid()
      ensures r == io
      ensures io.Fail? ==> fileExists == old(fileExists) && header == old(header) && rows == old(rows)
      ensures io.Ok? ==> fileExists
      ensures io.Ok? ==> header == if old(fileExists) then old(header) else SheetColumns
      ensures io.Ok? ==> rows == old(rows) + [SubmissionRow(timestamp, s)]
    {
      if io.Fail? {
        return io;
      }
      if !fileExists {
        header := SheetColumns;
        fileExists := true;
      }
      rows := rows + [SubmissionRow(timestamp, s)];
      r := Ok;
    }

    /** `downloadContactSubmissions`: 404 when no submission was ever saved;
        otherwise the whole file, header and rows, unless the transfer (`io`)
        fails. */
    method Download(io: Outcome) returns (r: DownloadResponse)
      requires Valid()
      ensures !fileExists ==> r == JsonError(404, NoSubmissionsMessage)
      ensures fileExists && io.Ok? ==> r == Attachment(LogFileName, header, rows)
      ensures fileExists && io.Fail? ==> r == JsonError(500, DownloadErrorMessage)
    {
      if !fileExists {
        return JsonError(404, NoSubmissionsMessage);
      }
      if io.Fail? {
        return JsonError(500, DownloadErrorMessage);
      }
      r := Attachment(LogFileName, header, rows);
    }
  }

  /** `sendContactMessage` of the main backend. A submission missing a required
      field gets 400 and changes nothing. Otherwise the steps run in the order
      save, operator mail, confirmation mail; the first that fails ends the
      request with a 500 and no later step runs. `mails` are the mails handed to
      the transport, in order. */
  method SendContactMessage(body: Submission, log: SubmissionLog, company: string,
                            nodeEnv: Option<string>, timestamp: string,
                            save: Outcome, outcomes: MailOutcomes)
    returns (res: Response, mails: seq<Mail>)
    requires log.Valid()
    modifies log
    ensures log.Valid()
    ensures !HasRequiredFields(body) ==>
      && res == MissingFields && mails == []
      && log.fileExists == old(log.fileExists) && log.header == old(log.header)
      && log.rows == old(log.rows)
    ensures HasRequiredFields(body) ==>
      && log.fileExists == (old(log.fileExists) || save.Ok?)
      && log.header == (if save.Ok? && !old(log.fileExists) then SheetColumns else old(log.header))
      && log.rows == (if save.Ok? then old(log.rows) + [SubmissionRow(timestamp, body)] else old(log.rows))
      && mails == (if save.Fail? then []
                   else if outcomes.notify.Fail? then [NotificationMail(company, body)]
                   else [NotificationMail(company, body), ConfirmationMail(company, body)])
      && res == (if save.Fail? then ServerError(nodeEnv, save.error)
                 else if outcomes.notify.Fail? then ServerError(nodeEnv, outcomes.notify.error)
                 else if outcomes.confirm.Fail? then ServerError(nodeEnv, outcomes.confirm.error)
                 else Success)
    ensures res.status == 200 <==> HasRequiredFields(body) && save.Ok? && outcomes == MailOutcomes(Ok, Ok)
  {
    if !HasRequiredFields(body) {
      return MissingFields, [];
    }
    var saved := log.SaveToExcel(body, timestamp, save);
    if saved.Fail? {
      return ServerError(nodeEnv, saved.error), [];
    }
    mails := [NotificationMail(company, body)];
    if outcomes.notify.Fail? {
      return ServerError(nodeEnv, outcomes.notify.error), mails;
    }
    mails := mails + [ConfirmationMail(company, body)];
    if outcomes.confirm.Fail? {
      return ServerError(nodeEnv, outcomes.confirm.error), mails;
    }
    res := Success;
  }

  /** A fresh deployment that receives one complete submission, with the save and
      both mails succeeding, then serves the spreadsheet: the header and that one
      row. */
  method DownloadAfterFirstSubmission(s: Submission, company: string, nodeEnv: Option<string>,
                                      timestamp: string)
    returns (r: DownloadResponse)
    requires HasRequiredFields(s)
    ensures r == Attachment(LogFileName, SheetColumns, [SubmissionRow(timestamp, s)])
  {
    var log := new SubmissionLog();
    var res, mails := SendContactMessage(s, log, company, nodeEnv, timestamp, Ok, MailOutcomes(Ok, Ok));
    r := log.Download(Ok);
  }
}
