/** The contact controller of the mail-only API: the same gate and the same two
    mails in the same order as the main backend, but nothing is saved, and a
    failure is reported with the error's own message whatever the environment. */
module Api {
  import opened Wrappers
  import opened Contact

  const SuccessMessage := "Message sent successfully!"

  /** `sendContactMessage` of the API. A submission missing a required field gets
      400 and no mail. Otherwise the operator mail is sent first; if it fails the
      confirmation is not attempted. Any failure answers 500 with the error's
      message; success answers 200 with `success: true`. `mails` are the mails
      handed to the transport, in order. */
  method SendContactMessage(body: Submission, company: string, outcomes: MailOutcomes)
    returns (res: Response, mails: seq<Mail>)
    ensures !HasRequiredFields(body) ==> res == MissingFields && mails == []
    ensures HasRequiredFields(body) ==>
      mails == if outcomes.notify.Fail? then [NotificationMail(company, body)]
               else [NotificationMail(company, body), ConfirmationMail(company, body)]
    ensures HasRequiredFields(body) && outcomes.notify.Fail? ==>
      res == Response(500, outcomes.notify.error, None, None)
    ensures HasRequiredFields(body) && outcomes.notify.Ok? && outcomes.confirm.Fail? ==>
      res == Response(500, outcomes.confirm.error, None, None)
    ensures res.status == 200 <==> HasRequiredFields(body) && outcomes == MailOutcomes(Ok, Ok)
    ensures res.status == 200 ==> res == Response(200, SuccessMessage, Some(true), None)
    ensures |mails| <= 2 && forall i :: 0 <= i < |mails| ==> mails[i].from == company
  {
    if !HasRequiredFields(body) {
      return MissingFields, [];
    }
    mails := [NotificationMail(company, body)];
    if outcomes.notify.Fail? {
      return Response(500, outcomes.notify.error, None, None), mails;
    }
    mails := mails + [ConfirmationMail(company, body)];
    if outcomes.confirm.Fail? {
      return Response(500, outcomes.confirm.error, None, None), mails;
    }
    res := Response(200, SuccessMessage, Some(true), None);
  }
}
