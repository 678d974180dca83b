/** controllers/contactController.js, `contactUser`: a logged-in user writes
    to another user. The message is checked, the target is looked up, and
    one contact mail is handed to `sendContactEmail` with the sender's own
    details. */
module ContactController {
  import opened Wrappers
  import opened Text
  import opened UserModel
  import opened Email

  const EmptyMessage := "Message cannot be empty"
  const TargetNotFoundMessage := "Target user not found"
  const SentMessage := "Message sent successfully"
  const ServerErrorMessage := "Server error. Could not send message."

  /** What one request leads to: the reply and the mail handed to the provider, if any. */
  datatype Outcome = Outcome(reply: Reply, sent: Option<Sent>)

  /** `!message || !message.trim()`. */
  function IsBlank(message: Option<string>): (b: bool)
    ensures b <==> message.None? || AllSpace(message.value)
  {
    if message.None? then true
    else
      TrimEmptyIffAllSpace(message.value);
      Trim(message.value) == ""
  }

  /** The sender fields `sendContactEmail` requires: first name, last name and
      address must be non-empty, otherwise it throws before sending. */
  predicate SenderComplete(sender: User) {
    sender.firstName != "" && sender.lastName != "" && sender.email != ""
  }

  /** The mail the handler asks for, built from the sender's account alone. */
  function SenderMail(sender: User, message: string): Mail {
    ContactMail(sender.firstName, sender.lastName, sender.email, Some(sender.phone), message)
  }

  /** The outcome of `contactUser` for the logged-in `sender`, when the Gmail
      transport works exactly when `gmailWorks`. */
  function ContactOutcome(users: map<Id, User>, sender: User, targetId: Id, message: Option<string>,
                          gmailWorks: bool): (o: Outcome)
    ensures IsBlank(message) ==> o == Outcome(Reply(400, EmptyMessage), None)
    ensures !IsBlank(message) && targetId !in users ==> o == Outcome(Reply(404, TargetNotFoundMessage), None)
    ensures !IsBlank(message) && targetId in users ==>
              (o.sent.Some? <==> SenderComplete(sender) && gmailWorks)
              && (o.sent.Some? ==> o.reply == Reply(200, SentMessage)
                                   && o.sent.value == ViaGmail(SenderMail(sender, message.value)))
              && (o.sent.None? ==> o.reply == Reply(500, ServerErrorMessage))
    ensures o.sent.Some? ==> o.sent.value.mail.to == AdminAddress
  {
    if IsBlank(message) then Outcome(Reply(400, EmptyMessage), None)
    else if targetId !in users then Outcome(Reply(404, TargetNotFoundMessage), None)
    else if SenderComplete(sender) && gmailWorks then
      Outcome(Reply(200, SentMessage), Some(ViaGmail(SenderMail(sender, message.value))))
    else Outcome(Reply(500, ServerErrorMessage), None)
  }

  /** The target only decides between 404 and the rest: the mail is the same,
      and goes to the admin address, whoever the target is (the `to` field of
      lines 26-33 is not read by `sendContactEmail`). */
  lemma TargetDoesNotReceive(users: map<Id, User>, sender: User, t1: Id, t2: Id, message: Option<string>,
                             gmailWorks: bool)
    requires t1 in users && t2 in users
    ensures ContactOutcome(users, sender, t1, message, gmailWorks) == ContactOutcome(users, sender, t2, message, gmailWorks)
    ensures ContactOutcome(users, sender, t1, message, gmailWorks).sent.Some? ==>
              ContactOutcome(users, sender, t1, message, gmailWorks).sent.value.mail.to == AdminAddress
  {
  }

  /** The handler: the checks in order, then one call of `sendContactEmail`
      with the sender's name, address and phone. */
  method ContactUser(users: map<Id, User>, mailer: Mailer, sender: User, targetId: Id, message: Option<string>)
    returns (reply: Reply)
    modifies mailer
    ensures var o := ContactOutcome(users, sender, targetId, message, mailer.GmailWorks());
            reply == o.reply
            && mailer.outbox == old(mailer.outbox) + (if o.sent.Some? then [o.sent.value] else [])
  {
    if IsBlank(message) {
      return Reply(400, EmptyMessage);
    }
    if targetId !in users {
      return Reply(404, TargetNotFoundMessage);
    }
    var r := mailer.SendContactEmail(Some(sender.firstName), Some(sender.lastName), Some(sender.email),
                                     Some(sender.phone), message);
    if r.Err? {
      return Reply(500, ServerErrorMessage);
    }
    reply := Reply(200, SentMessage);
  }
}
