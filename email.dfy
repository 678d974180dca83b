/** Outgoing mail (utils/Email.js and the SendGrid wrapper utils/sendEmail.js).
    The Gmail path turns a message into the `raw` field of the Gmail API: the
    header lines and the body joined with newlines, UTF-8 encoded, then written
    in the URL-safe base64 alphabet of section 5 of RFC 4648 with the padding of
    section 3.2 removed. Providers are reduced to an outbox that records what was
    handed over. */
module Email {
  import opened Wrappers
  import opened Text
  import Base64
  import Utf8
  import opened UserModel

  const SupportSender := "MPDB Support <moplaysdatabase@gmail.com>"
  const TeamSender := "MO Plays <moplaysdatabase@gmail.com>"
  const AdminAddress := "moplaysdatabase@gmail.com"
  const HtmlType := "Content-Type: text/html; charset=UTF-8"
  const PlainType := "Content-Type: text/plain; charset=UTF-8"
  const CredentialsError := "Gmail API credentials are not set in environment variables."
  const SendGridKeyError := "SendGrid API key not set in environment variables."
  const ProviderError := "the provider refused the message"
  const RequiredFieldsError := "All required fields must be filled."
  const ResetSubject := "Password Reset - MO Plays"
  const NotificationSubject := "MO Plays Notification"
  const WelcomeSubject := "Welcome to MO Plays!"

  /** A message as handed to a provider, with the sender already resolved. */
  datatype Mail = Mail(from: string, to: string, subject: string, text: Option<string>, html: Option<string>)

  /** The lines `makeRawMessage` joins: three headers, the MIME version, the
      content type, a blank line and the body. */
  function Lines(m: Mail): (lines: seq<string>)
    ensures |lines| == 7
    ensures lines[0] == "From: " + m.from && lines[1] == "To: " + m.to
    ensures lines[2] == "Subject: " + m.subject && lines[3] == "MIME-Version: 1.0"
    ensures lines[4] == HtmlType <==> Truthy(m.html)
    ensures lines[4] == PlainType <==> !Truthy(m.html)
    ensures lines[5] == ""
    ensures Truthy(m.html) ==> lines[6] == m.html.value
    ensures !Truthy(m.html) ==> lines[6] == m.text.GetOr("")
  {
    var body := if Truthy(m.html) then m.html.value else m.text.GetOr("");
    ["From: " + m.from, "To: " + m.to, "Subject: " + m.subject, "MIME-Version: 1.0",
     if Truthy(m.html) then HtmlType else PlainType, "", body]
  }

  function MessageText(m: Mail): string {
    Join(Lines(m), "\n")
  }

  /** The `+`/`/` substitutions followed by dropping the trailing `=` run,
      applied to standard base64. */
  function UrlSafeUnpadded(b64: string): string {
    DropTrailing(ReplaceChar(ReplaceChar(b64, '+', '-'), '/', '_'), '=')
  }

  lemma NoPlusNoSlash(b64: string)
    ensures var r := UrlSafeUnpadded(b64);
      forall i :: 0 <= i < |r| ==> r[i] != '+' && r[i] != '/'
  {
    var x := ReplaceChar(b64, '+', '-');
    var y := ReplaceChar(x, '/', '_');
    assert forall i :: 0 <= i < |x| ==> x[i] != '+';
    assert forall i :: 0 <= i < |y| ==> y[i] != '+' && y[i] != '/';
  }

  /** The substituted, unpadded encoding of some bytes is their URL-safe
      encoding without padding. */
  lemma UrlSafeUnpaddedIsUnpad(bytes: seq<Base64.byte>)
    ensures UrlSafeUnpadded(Base64.Encode(Base64.Standard, bytes)) == Base64.Unpad(Base64.Encode(Base64.UrlSafe, bytes))
  {
    Base64.StandardToUrlSafe(bytes);
  }

  /** `makeRawMessage`: base64 of the UTF-8 bytes, `+` to `-`, `/` to `_`, and
      the trailing `=` run removed. No `+`, `/` or `=` is left. */
  function MakeRawMessage(m: Mail): (raw: string)
    ensures forall i :: 0 <= i < |raw| ==> raw[i] != '+' && raw[i] != '/' && raw[i] != '='
  {
    var bytes := Utf8.Encode(MessageText(m));
    var b64 := Base64.Encode(Base64.Standard, bytes);
    NoPlusNoSlash(b64);
    UrlSafeUnpaddedIsUnpad(bytes);
    Base64.RepadUnpad(Base64.UrlSafe, bytes);
    UrlSafeUnpadded(b64)
  }

  /** What a reader of the Gmail message does: restore the padding, decode
      URL-safe base64, decode UTF-8. */
  function ReadRaw(raw: string): Option<string> {
    match Base64.Decode(Base64.UrlSafe, Base64.Repad(raw))
    case None => None
    case Some(bytes) => Utf8.Decode(bytes)
  }

  /** Re-padding and decoding the raw message gives back its UTF-8 bytes, and
      those bytes are the message text. */
  lemma RawRoundTrip(m: Mail)
    ensures Base64.Decode(Base64.UrlSafe, Base64.Repad(MakeRawMessage(m))) == Some(Utf8.Encode(MessageText(m)))
    ensures ReadRaw(MakeRawMessage(m)) == Some(MessageText(m))
  {
    var bytes := Utf8.Encode(MessageText(m));
    UrlSafeUnpaddedIsUnpad(bytes);
    Base64.RepadUnpad(Base64.UrlSafe, bytes);
    Base64.DecodeEncode(Base64.UrlSafe, bytes);
    Utf8.DecodeEncode(MessageText(m));
  }

  /** `mobileNo || "N/A"`. */
  function PhoneOrNA(mobile: Option<string>): string {
    if Truthy(mobile) then mobile.value else "N/A"
  }

  /** The contact-form text; `indent` is the number of spaces before the
      closing backtick of the template. */
  function ContactText(firstName: string, lastName: string, emailAddress: string,
                       mobile: Option<string>, message: string, indent: nat): string {
    "\nName: " + firstName + " " + lastName
    + "\nEmail: " + emailAddress
    + "\nPhone: " + PhoneOrNA(mobile)
    + "\n\nMessage:\n" + message + "\n" + Repeat(' ', indent)
  }

  function ContactSubject(firstName: string, lastName: string): string {
    "Contact Form Submission from " + firstName + " " + lastName
  }

  /** The message `sendContactEmail` hands to Gmail. */
  function ContactMail(firstName: string, lastName: string, emailAddress: string,
                       mobile: Option<string>, message: string): Mail {
    Mail(SupportSender, AdminAddress, ContactSubject(firstName, lastName),
         Some(ContactText(firstName, lastName, emailAddress, mobile, message, 2)), None)
  }

  /** The account-type word of the admin notice: only codes 0 and 1 are named. */
  function AccountType(account: int): (r: string)
    ensures account == Educator ==> r == AccountName(account).value
    ensures account == Playwright ==> r == AccountName(account).value
    ensures account != Educator && account != Playwright ==> r == "Unknown"
  {
    if account == 0 then "Educator" else if account == 1 then "Playwright" else "Unknown"
  }

  /** The fixed wording around the fields of the two sign-up messages. */
  datatype Wording = Wording(noticeOpening: string, noticeClosing: string, welcomeBody: string)

  const MoPlaysWording := Wording(
    "\nA new MO Plays account has been created.\n\nEmail: ",
    "\n\nPlease review and verify the account.\n",
    ",\n\nYour account has been successfully created on MO Plays! "
    + "\nPlease understand that our verification process may take up to 24 hours. "
    + "\nWe appreciate your patience \U{2014} thank you!\n\n\U{2013} The MO Plays Team\n")

  /** The admin notice: the new user's address, name, phone, account type,
      school (or "N/A") and contact flag (or "N/A" when it is 0). */
  function AdminNotice(w: Wording, u: User): string {
    w.noticeOpening + u.email
    + "\nName: " + u.firstName + " " + u.lastName
    + "\nPhone Number: " + u.phone
    + "\nAccount Type: " + AccountType(u.account)
    + "\nSchool: " + (if u.schoolName != "" then u.schoolName else "N/A")
    + "\nContact: " + (if u.contact != 0 then DecimalString(u.contact) else "N/A")
    + w.noticeClosing
  }

  function WelcomeText(w: Wording, u: User): string {
    "\nHello " + u.firstName + " " + u.lastName + w.welcomeBody
  }

  function CustomSubject(customMessage: string): string {
    if StartsWith(customMessage, "Reset") then ResetSubject else NotificationSubject
  }

  /** The messages `sendAccountEmail` hands over, in order: none without an
      address, one to the user with a custom message, otherwise the admin
      notice and then the welcome. */
  function AccountEmails(w: Wording, user: Option<User>, customMessage: Option<string>): (r: seq<Mail>)
    ensures (user.None? || user.value.email == "") <==> r == []
    ensures r != [] && Truthy(customMessage) ==>
              |r| == 1 && r[0].to == user.value.email && r[0].text == customMessage
              && (r[0].subject == ResetSubject <==> StartsWith(customMessage.value, "Reset"))
    ensures r != [] && !Truthy(customMessage) ==>
              |r| == 2 && r[0].to == AdminAddress && r[1].to == user.value.email
              && r[1].subject == WelcomeSubject
    ensures forall i :: 0 <= i < |r| ==> r[i].from == TeamSender && r[i].html.None?
  {
    if user.None? || user.value.email == "" then []
    else
      var u := user.value;
      if Truthy(customMessage) then
        [Mail(TeamSender, u.email, CustomSubject(customMessage.value), customMessage, None)]
      else
        [Mail(TeamSender, AdminAddress, "New MO Plays Account Created: " + u.firstName + " " + u.lastName,
              Some(AdminNotice(w, u)), None),
         Mail(TeamSender, u.email, WelcomeSubject, Some(WelcomeText(w, u)), None)]
  }

  /** A message handed to a provider. The Gmail API receives `MakeRawMessage(mail)`. */
  datatype Sent = ViaGmail(mail: Mail) | ViaSendGrid(mail: Mail)

  function GmailAll(ms: seq<Mail>): (r: seq<Sent>)
    ensures |r| == |ms| && forall i :: 0 <= i < |ms| ==> r[i] == ViaGmail(ms[i])
  {
    if ms == [] then [] else [ViaGmail(ms[0])] + GmailAll(ms[1..])
  }

  /** The mail providers: whether each is configured, whether the provider
      accepts what it is handed, and everything handed over so far. */
  class Mailer {
    const gmailCredentials: bool
    const sendGridKey: bool
    const providerAccepts: bool
    /** The wording of the sign-up messages, fixed when the mailer is made. */
    const wording: Wording
    var outbox: seq<Sent>

    constructor (gmailCredentials: bool, sendGridKey: bool, providerAccepts: bool)
      ensures this.gmailCredentials == gmailCredentials && this.sendGridKey == sendGridKey
      ensures this.providerAccepts == providerAccepts && outbox == []
      ensures wording == MoPlaysWording
    {
      wording := MoPlaysWording;
      this.gmailCredentials := gmailCredentials;
      this.sendGridKey := sendGridKey;
      this.providerAccepts := providerAccepts;
      outbox := [];
    }

    predicate GmailWorks() {
      gmailCredentials && providerAccepts
    }

    /** `sendEmail` of utils/Email.js: no credentials throws before anything is
        sent; the sender defaults to the support address. */
    method SendEmail(from: Option<string>, to: string, subject: string, text: Option<string>, html: Option<string>)
      returns (r: Result<(), string>)
      modifies this
      ensures !gmailCredentials ==> r == Err(CredentialsError)
      ensures r.Ok? <==> GmailWorks()
      ensures var m := Mail(if Truthy(from) then from.value else SupportSender, to, subject, text, html);
              outbox == if r.Ok? then old(outbox) + [ViaGmail(m)] else old(outbox)
    {
      if !gmailCredentials {
        return Err(CredentialsError);
      }
      var m := Mail(if Truthy(from) then from.value else SupportSender, to, subject, text, html);
      if !providerAccepts {
        return Err(ProviderError);
      }
      outbox := outbox + [ViaGmail(m)];
      r := Ok(());
    }

    /** utils/sendEmail.js: no API key throws; the sender is always the
        verified support address. */
    method SendGridEmail(to: string, subject: string, text: Option<string>, html: Option<string>)
      returns (r: Result<(), string>)
      modifies this
      ensures !sendGridKey ==> r == Err(SendGridKeyError)
      ensures r.Ok? <==> sendGridKey && providerAccepts
      ensures outbox == if r.Ok? then old(outbox) + [ViaSendGrid(Mail(SupportSender, to, subject, text, html))]
                        else old(outbox)
    {
      if !sendGridKey {
        return Err(SendGridKeyError);
      }
      if !providerAccepts {
        return Err(ProviderError);
      }
      outbox := outbox + [ViaSendGrid(Mail(SupportSender, to, subject, text, html))];
      r := Ok(());
    }

    /** `sendContactEmail`: a missing name, address or message throws before
        any send; otherwise one message goes to the admin address. */
    method SendContactEmail(firstName: Option<string>, lastName: Option<string>, emailAddress: Option<string>,
                            mobileNo: Option<string>, message: Option<string>)
      returns (r: Result<(), string>)
      modifies this
      ensures !(Truthy(firstName) && Truthy(lastName) && Truthy(emailAddress) && Truthy(message)) ==>
                r == Err(RequiredFieldsError) && outbox == old(outbox)
      ensures Truthy(firstName) && Truthy(lastName) && Truthy(emailAddress) && Truthy(message) ==>
                (r.Ok? <==> GmailWorks())
                && outbox == if r.Ok? then old(outbox) + [ViaGmail(ContactMail(firstName.value, lastName.value,
                                                                               emailAddress.value, mobileNo,
                                                                               message.value))]
                             else old(outbox)
    {
      if !Truthy(firstName) || !Truthy(lastName) || !Truthy(emailAddress) || !Truthy(message) {
        return Err(RequiredFieldsError);
      }
      var text := ContactText(firstName.value, lastName.value, emailAddress.value, mobileNo, message.value, 2);
      r := SendEmail(Some(SupportSender), AdminAddress, ContactSubject(firstName.value, lastName.value),
                     Some(text), None);
    }

    /** `sendAccountEmail`: the messages of `AccountEmails`, where the
        branching of the source lives, sent one after the other until one fails. */
    method SendAccountEmail(user: Option<User>, customMessage: Option<string>) returns (r: Result<(), string>)
      modifies this
      ensures AccountEmails(wording, user, customMessage) == [] ==> r.Ok? && outbox == old(outbox)
      ensures AccountEmails(wording, user, customMessage) != [] ==> (r.Ok? <==> GmailWorks())
      ensures outbox == if r.Ok? then old(outbox) + GmailAll(AccountEmails(wording, user, customMessage))
                        else old(outbox)
    {
      var mails := AccountEmails(wording, user, customMessage);
      if mails == [] {
        return Ok(());
      }
      r := SendEmail(Some(mails[0].from), mails[0].to, mails[0].subject, mails[0].text, mails[0].html);
      if r.Err? || |mails| == 1 {
        return;
      }
      r := SendEmail(Some(mails[1].from), mails[1].to, mails[1].subject, mails[1].text, mails[1].html);
      assert mails == [mails[0], mails[1]];
    }
  }
}
