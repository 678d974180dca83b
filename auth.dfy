/** routes/auth.js: sign-up, login, the login-status check, and the
    forgot/reset password exchange, as steps over the user collection.
    `findOne({ email })` is the one user with that address (emails are unique);
    the clock, the salt, the new document's id and the random reset token are
    parameters. */
module AuthRoutes {
  import opened Wrappers
  import opened Text
  import opened UserModel
  import opened Tokens
  import opened Store
  import opened Email

  const EmailInUseMessage := "Email already in use"
  const ServerErrorMessage := "Server error. Please try again later."
  const CreatedMessage := "Account created successfully"
  const BadCredentialsMessage := "Invalid email or password"
  const LoginMessage := "Login successful"
  const NotAuthenticatedMessage := "User not authenticated"
  const UserNotFoundMessage := "User not found"
  const BadTokenMessage := "Invalid or expired token"
  const ResetSentMessage := "If an account exists, a reset link has been sent."
  const ResetDoneMessage := "Password reset successfully"
  const ResetRequestSubject := "Password Reset Request"
  const DefaultClientUrl := "http://localhost:3000"

  /** How long a reset token stays usable: one hour, in milliseconds. */
  const ResetWindowMs := 3600000

  /** The document `new User({...})` builds from a sign-up body, or `None`
      when saving it fails validation: a required text that is missing or
      empty, an account that is missing, null or not a number, or a contact
      that is not a number. */
  function SignupRecord(firstName: Option<string>, lastName: Option<string>, email: string,
                        phone: Option<string>, password: Option<string>, account: Option<Json>,
                        contact: Option<Json>, schoolName: Option<string>): (r: Option<User>)
    ensures r.Some? <==>
              Truthy(firstName) && Truthy(lastName) && email != "" && Truthy(phone) && Truthy(password)
              && account.Some? && CastNumber(account.value).Ok? && CastNumber(account.value).value.Some?
              && (contact.Some? ==> CastNumber(contact.value).Ok?)
    ensures r.Some? ==>
              r.value.firstName == firstName.value && r.value.lastName == lastName.value
              && r.value.email == email && r.value.phone == phone.value
              && r.value.password == Plain(password.value)
              && r.value.account == CastNumber(account.value).value.value
              && r.value.profile == Some(DefaultProfile)
              && r.value.resetToken.None? && r.value.resetExpires.None?
  {
    if !Truthy(firstName) || !Truthy(lastName) || email == "" || !Truthy(phone) || !Truthy(password) then None
    else if account.None? || CastNumber(account.value).Err? || CastNumber(account.value).value.None? then None
    else if contact.Some? && CastNumber(contact.value).Err? then None
    else
      var c := if contact.Some? then CastNumber(contact.value).value else None;
      Some(NewUser(firstName.value, lastName.value, email, phone.value, password.value,
                   CastNumber(account.value).value.value, c, schoolName))
  }

  /** The 7-day login token, with the user's id and account, in a lax
      same-site cookie whose lifetime matches the token's. */
  function LoginCookie(id: Id, account: int, nowMs: nat): (c: Cookie)
    ensures c.token == Sign(Claims(Some(id), None, Some(account), None), nowMs, LoginLifetime)
    ensures c.name == "token" && c.sameSite == "lax"
    ensures c.maxAgeMs == (c.token.exp - c.token.iat) * 1000
  {
    Cookie("token", Sign(Claims(Some(id), None, Some(account), None), nowMs, LoginLifetime),
           "lax", 7 * 24 * 60 * 60 * 1000)
  }

  /** POST /signup. */
  method Signup(db: Db, firstName: Option<string>, lastName: Option<string>, email: string,
                phone: Option<string>, password: Option<string>, account: Option<Json>,
                contact: Option<Json>, schoolName: Option<string>, freshId: Id, salt: nat)
    returns (reply: Reply, created: Option<Id>)
    requires db.Valid() && freshId !in db.users
    modifies db
    ensures db.Valid() && db.plays == old(db.plays)
    ensures Owner(old(db.users), email).Some? ==>
              reply == Reply(400, EmailInUseMessage) && created.None? && db.users == old(db.users)
    ensures Owner(old(db.users), email).None? ==>
              var record := SignupRecord(firstName, lastName, email, phone, password, account, contact, schoolName);
              if record.None? then
                reply == Reply(500, ServerErrorMessage) && created.None? && db.users == old(db.users)
              else
                reply == Reply(201, CreatedMessage) && created == Some(freshId)
                && db.users == old(db.users)[freshId := PreSave(None, record.value, salt)]
    ensures created.Some? ==>
              db.users[freshId].profile == Some(DefaultProfile)
              && MatchPassword(db.users[freshId], password.value)
  {
    var existing := db.FindByEmail(email);
    if existing.Some? {
      return Reply(400, EmailInUseMessage), None;
    }
    var record := SignupRecord(firstName, lastName, email, phone, password, account, contact, schoolName);
    if record.None? {
      return Reply(500, ServerErrorMessage), None;
    }
    var newUser := record.value;
    if account == Some(JNumber(1)) {
      newUser := newUser.(profile := Some(Profile("", "", "", "", "", "", "", "")));
    }
    SavedPasswordMatches(None, newUser, salt, password.value);
    db.users := db.users[freshId := PreSave(None, newUser, salt)];
    reply, created := Reply(201, CreatedMessage), Some(freshId);
  }

  /** POST /login: the user's reply and, on success, the login cookie. */
  method Login(db: Db, email: string, password: Option<string>, nowMs: nat)
    returns (reply: Reply, cookie: Option<Cookie>)
    requires db.Valid()
    ensures Owner(db.users, email).None? ==> reply == Reply(401, BadCredentialsMessage) && cookie.None?
    ensures Owner(db.users, email).Some? ==>
              var u := db.users[Owner(db.users, email).value];
              if password.None? then reply == Reply(500, ServerErrorMessage) && cookie.None?
              else if !MatchPassword(u, password.value) then reply == Reply(401, BadCredentialsMessage) && cookie.None?
              else reply == Reply(200, LoginMessage)
                   && cookie == Some(LoginCookie(Owner(db.users, email).value, u.account, nowMs))
  {
    var found := db.FindByEmail(email);
    if found.None? {
      return Reply(401, BadCredentialsMessage), None;
    }
    var user := db.users[found.value];
    if password.None? {
      // bcrypt.compare throws on an undefined password
      return Reply(500, ServerErrorMessage), None;
    }
    if !MatchPassword(user, password.value) {
      return Reply(401, BadCredentialsMessage), None;
    }
    reply := Reply(200, LoginMessage);
    cookie := Some(LoginCookie(found.value, user.account, nowMs));
  }

  /** `verifyToken` (GET /profile and /check): the id of the user the cookie
      names, or the reply that refuses it. */
  function VerifyToken(db: Db, token: Option<Jwt>, nowMs: nat): (r: Result<Id, Reply>)
    reads db
    ensures token.None? ==> r == Err(Reply(401, NotAuthenticatedMessage))
    ensures token.Some? && Verify(token.value, nowMs).Err? ==> r == Err(Reply(401, BadTokenMessage))
    ensures r.Ok? <==>
              token.Some? && Verify(token.value, nowMs).Ok?
              && token.value.claims.id.Some? && token.value.claims.id.value in db.users
    ensures r.Ok? ==> r.value == token.value.claims.id.value
    ensures r.Err? && r.error.status != 401 ==> r.error == Reply(404, UserNotFoundMessage)
  {
    if token.None? then Err(Reply(401, NotAuthenticatedMessage))
    else match Verify(token.value, nowMs)
      case Err(_) => Err(Reply(401, BadTokenMessage))
      case Ok(decoded) =>
        if decoded.id.None? || decoded.id.value !in db.users then Err(Reply(404, UserNotFoundMessage))
        else Ok(decoded.id.value)
  }

  /** The link the reset mail carries. */
  function ResetLink(clientUrl: Option<string>, resetToken: string): (s: string)
    ensures StartsWith(s, if Truthy(clientUrl) then clientUrl.value else DefaultClientUrl)
    ensures |s| >= |resetToken| && s[|s| - |resetToken|..] == resetToken
  {
    (if Truthy(clientUrl) then clientUrl.value else DefaultClientUrl) + "/reset-password/" + resetToken
  }

  /** The message of the reset mail, as plain text and as HTML. */
  function ResetMail(to: string, link: string): (m: Mail)
    ensures m.to == to && m.from == SupportSender && m.subject == ResetRequestSubject
    ensures m.text == Some("Click here to reset your password: " + link)
    ensures m.html == Some("<p>Click <a href=\"" + link + "\">here</a> to reset your password.</p>")
  {
    Mail(SupportSender, to, ResetRequestSubject, Some("Click here to reset your password: " + link),
         Some("<p>Click <a href=\"" + link + "\">here</a> to reset your password.</p>"))
  }

  /** The record after a reset was requested at `nowMs`. */
  function WithResetToken(u: User, resetToken: string, nowMs: nat): (r: User)
    ensures r == u.(resetToken := r.resetToken, resetExpires := r.resetExpires)
    ensures r.resetToken == Some(resetToken) && r.resetExpires == Some(nowMs + ResetWindowMs)
  {
    u.(resetToken := Some(resetToken), resetExpires := Some(nowMs + ResetWindowMs))
  }

  /** POST /forgot-password: an unknown address gets the same reply and changes
      nothing; a known one gets a token valid for an hour, saved before the mail
      is sent through the SendGrid wrapper. */
  method ForgotPassword(db: Db, mailer: Mailer, email: string, resetToken: string, nowMs: nat,
                        clientUrl: Option<string>)
    returns (reply: Reply)
    requires db.Valid()
    modifies db, mailer
    ensures db.Valid() && db.plays == old(db.plays)
    ensures Owner(old(db.users), email).None? ==>
              reply == Reply(200, ResetSentMessage) && db.users == old(db.users) && mailer.outbox == old(mailer.outbox)
    ensures Owner(old(db.users), email).Some? ==>
              var id := Owner(old(db.users), email).value;
              db.users == old(db.users)[id := WithResetToken(old(db.users)[id], resetToken, nowMs)]
              && var sent := mailer.sendGridKey && mailer.providerAccepts;
              mailer.outbox == (if sent then old(mailer.outbox) + [ViaSendGrid(ResetMail(email, ResetLink(clientUrl, resetToken)))]
                                else old(mailer.outbox))
              && reply == (if sent then Reply(200, ResetSentMessage) else Reply(500, ServerErrorMessage))
  {
    var found := db.FindByEmail(email);
    if found.None? {
      return Reply(200, ResetSentMessage);
    }
    var user := db.users[found.value];
    user := user.(resetToken := Some(resetToken));
    user := user.(resetExpires := Some(nowMs + ResetWindowMs));
    db.users := db.users[found.value := PreSave(Some(db.users[found.value]), user, 0)];
    var link := ResetLink(clientUrl, resetToken);
    var m := ResetMail(email, link);
    var sent := mailer.SendGridEmail(m.to, m.subject, m.text, m.html);
    if sent.Err? {
      return Reply(500, ServerErrorMessage);
    }
    reply := Reply(200, ResetSentMessage);
  }

  /** The reset query: the user holds `token` and its expiry lies after `nowMs`. */
  predicate HoldsResetToken(u: User, token: string, nowMs: int) {
    u.resetToken == Some(token) && u.resetExpires.Some? && u.resetExpires.value > nowMs
  }

  /** A token issued at `issuedMs` is accepted exactly before the hour is up. */
  lemma ResetTokenLifetime(u: User, token: string, issuedMs: nat, nowMs: int)
    ensures HoldsResetToken(WithResetToken(u, token, issuedMs), token, nowMs) <==> nowMs < issuedMs + ResetWindowMs
  {
  }

  /** The record after a successful reset: the new password, no reset token. */
  function AfterReset(u: User, newPassword: string, salt: nat): (r: User)
    requires u.password.Hashed?
    ensures r == u.(password := r.password, resetToken := None, resetExpires := None)
    ensures r.password == Hashed(Digest(newPassword, salt))
  {
    PreSave(Some(u), u.(password := Plain(newPassword), resetToken := None, resetExpires := None), salt)
  }

  /** POST /reset-password/:token: some user holding the unexpired token gets the
      new password, loses the token, and is logged in. `reset` names that user. */
  method ResetPassword(db: Db, token: string, newPassword: Option<string>, nowMs: nat, salt: nat)
    returns (reply: Reply, cookie: Option<Cookie>, reset: Option<Id>)
    requires db.Valid()
    modifies db
    ensures db.Valid() && db.plays == old(db.plays)
    ensures (forall id :: id in old(db.users) ==> !HoldsResetToken(old(db.users)[id], token, nowMs)) ==>
              reply == Reply(400, BadTokenMessage) && cookie.None? && reset.None? && db.users == old(db.users)
    ensures (exists id :: id in old(db.users) && HoldsResetToken(old(db.users)[id], token, nowMs)) ==>
              (reset.Some? <==> Truthy(newPassword))
    ensures reset.None? ==> db.users == old(db.users) && cookie.None? && reply.status in {400, 500}
    ensures reset.Some? ==>
              var id := reset.value;
              id in old(db.users) && HoldsResetToken(old(db.users)[id], token, nowMs)
              && db.users == old(db.users)[id := AfterReset(old(db.users)[id], newPassword.value, salt)]
              && reply == Reply(200, ResetDoneMessage)
              && cookie == Some(LoginCookie(id, old(db.users)[id].account, nowMs))
    ensures reset.Some? ==>
              MatchPassword(db.users[reset.value], newPassword.value)
              && forall t :: !HoldsResetToken(db.users[reset.value], token, t)
  {
    if id :| id in db.users && HoldsResetToken(db.users[id], token, nowMs) {
      if !Truthy(newPassword) {
        // the required validator refuses a missing or empty password
        return Reply(500, ServerErrorMessage), None, None;
      }
      var user := db.users[id];
      user := user.(password := Plain(newPassword.value));
      user := user.(resetToken := None);
      user := user.(resetExpires := None);
      db.users := db.users[id := PreSave(Some(db.users[id]), user, salt)];
      reply := Reply(200, ResetDoneMessage);
      cookie := Some(LoginCookie(id, user.account, nowMs));
      reset := Some(id);
    } else {
      reply, cookie, reset := Reply(400, BadTokenMessage), None, None;
    }
  }
}
