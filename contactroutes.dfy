/** routes/contactRoutes.js, `POST /`: the public contact form. The four
    required fields are checked, the text is composed from a template, and
    one mail goes through `sendEmail` of utils/sendEmail.js (SendGrid) to the
    admin address. */
module ContactRoutes {
  import opened Wrappers
  import opened Text
  import opened Email

  const SentMessage := "Message sent successfully."
  const FailedMessage := "Failed to send message."

  /** What one submission leads to: the reply and the mail handed to the
      provider, if any. */
  datatype Outcome = Outcome(reply: Reply, sent: Option<Sent>)

  /** The form's text: the template of lines 16-23, whose closing backtick is
      indented by four spaces. */
  function FormText(firstName: string, lastName: string, emailAddress: string, mobileNo: Option<string>,
                    message: string): string {
    ContactText(firstName, lastName, emailAddress, mobileNo, message, 4)
  }

  /** The message `sendEmail` hands to SendGrid: the sender is always the
      support address, whatever `from` the route passes. */
  function FormMail(firstName: string, lastName: string, emailAddress: string, mobileNo: Option<string>,
                    message: string): Mail {
    Mail(SupportSender, AdminAddress, ContactSubject(firstName, lastName),
         Some(FormText(firstName, lastName, emailAddress, mobileNo, message)), None)
  }

  /** The outcome of a submission when SendGrid has a key exactly when
      `haveKey` and accepts the message exactly when `accepts`. */
  function SubmitOutcome(firstName: Option<string>, lastName: Option<string>, emailAddress: Option<string>,
                         mobileNo: Option<string>, message: Option<string>, haveKey: bool, accepts: bool): (o: Outcome)
    ensures !(Truthy(firstName) && Truthy(lastName) && Truthy(emailAddress) && Truthy(message)) <==>
              o == Outcome(Reply(400, RequiredFieldsError), None)
    ensures Truthy(firstName) && Truthy(lastName) && Truthy(emailAddress) && Truthy(message) ==>
              (o.sent.Some? <==> haveKey && accepts)
              && (o.sent.Some? ==> o.reply == Reply(200, SentMessage)
                                   && o.sent.value == ViaSendGrid(FormMail(firstName.value, lastName.value,
                                                                           emailAddress.value, mobileNo, message.value)))
              && (o.sent.None? ==> o.reply == Reply(500, FailedMessage))
    ensures o.sent.Some? ==> o.sent.value.mail.to == AdminAddress
  {
    if !Truthy(firstName) || !Truthy(lastName) || !Truthy(emailAddress) || !Truthy(message) then
      Outcome(Reply(400, RequiredFieldsError), None)
    else if haveKey && accepts then
      Outcome(Reply(200, SentMessage),
              Some(ViaSendGrid(FormMail(firstName.value, lastName.value, emailAddress.value, mobileNo, message.value))))
    else Outcome(Reply(500, FailedMessage), None)
  }

  /** The body lists name, address, phone (or "N/A") and the message, in that
      order, each on a line of its own. */
  lemma FormTextLayout(firstName: string, lastName: string, emailAddress: string, mobileNo: Option<string>,
                       message: string)
    ensures FormText(firstName, lastName, emailAddress, mobileNo, message)
            == "\nName: " + firstName + " " + lastName + "\nEmail: " + emailAddress
               + "\nPhone: " + (if Truthy(mobileNo) then mobileNo.value else "N/A")
               + "\n\nMessage:\n" + message + "\n    "
  {
    assert Repeat(' ', 4) == "    ";
  }

  /** The template text without its final indentation. */
  lemma ContactTextIndent(firstName: string, lastName: string, emailAddress: string, mobileNo: Option<string>,
                          message: string, indent: nat)
    ensures ContactText(firstName, lastName, emailAddress, mobileNo, message, indent)
            == ContactText(firstName, lastName, emailAddress, mobileNo, message, 0) + Repeat(' ', indent)
  {
    var x := ContactText(firstName, lastName, emailAddress, mobileNo, message, 0);
    assert Repeat(' ', 0) == [];
    assert x == "\nName: " + firstName + " " + lastName + "\nEmail: " + emailAddress
                + "\nPhone: " + PhoneOrNA(mobileNo) + "\n\nMessage:\n" + message + "\n";
  }

  /** The form text and the text of `sendContactEmail` differ only in the
      spaces after the final line break. */
  lemma FormAndControllerTextsAgree(firstName: string, lastName: string, emailAddress: string, mobileNo: Option<string>,
                                    message: string)
    ensures DropTrailing(FormText(firstName, lastName, emailAddress, mobileNo, message), ' ')
            == DropTrailing(ContactText(firstName, lastName, emailAddress, mobileNo, message, 2), ' ')
            == ContactText(firstName, lastName, emailAddress, mobileNo, message, 0)
  {
    var x := ContactText(firstName, lastName, emailAddress, mobileNo, message, 0);
    ContactTextIndent(firstName, lastName, emailAddress, mobileNo, message, 4);
    ContactTextIndent(firstName, lastName, emailAddress, mobileNo, message, 2);
    ContactTextIndent(firstName, lastName, emailAddress, mobileNo, message, 0);
    assert x[|x| - 1] == '\n';
    DropTrailingAfterRepeat(x, ' ', 4);
    DropTrailingAfterRepeat(x, ' ', 2);
  }

  /** The handler: the required-field check, then one call of `sendEmail`. */
  method SubmitContactForm(mailer: Mailer, firstName: Option<string>, lastName: Option<string>,
                           emailAddress: Option<string>, mobileNo: Option<string>, message: Option<string>)
    returns (reply: Reply)
    modifies mailer
    ensures var o := SubmitOutcome(firstName, lastName, emailAddress, mobileNo, message,
                                   mailer.sendGridKey, mailer.providerAccepts);
            reply == o.reply
            && mailer.outbox == old(mailer.outbox) + (if o.sent.Some? then [o.sent.value] else [])
  {
    if !Truthy(firstName) || !Truthy(lastName) || !Truthy(emailAddress) || !Truthy(message) {
      return Reply(400, RequiredFieldsError);
    }
    var text := FormText(firstName.value, lastName.value, emailAddress.value, mobileNo, message.value);
    var r := mailer.SendGridEmail(AdminAddress, ContactSubject(firstName.value, lastName.value), Some(text), None);
    if r.Err? {
      return Reply(500, FailedMessage);
    }
    reply := Reply(200, SentMessage);
  }
}
