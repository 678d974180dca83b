/** routes/userRoutes.js: the cookie check of that file, the profile-picture
    upload limits, and PUT /profile, which runs every validation before it
    assigns anything and then assigns only the fields supplied. */
module UserRoutes {
  import opened Wrappers
  import opened Text
  import opened UserModel
  import opened Tokens
  import opened Store
  import opened Uploads
  import DataUrl
  import AuthRoutes

  const NotLoggedInMessage := "Not logged in"
  const BadTokenMessage := "Invalid or expired token"
  const UserNotFoundMessage := "User not found"
  const ServerErrorMessage := "Server error"
  const UpdatedMessage := "Profile updated successfully"

  const PictureField := "profilePicture"
  const PictureMaxBytes := 2 * 1024 * 1024
  const PictureTypeMessage := "Only PNG or JPEG images are allowed."

  /** `authMiddleware`: the `id` claim of a verified cookie token (which a
      token may lack), or a 401. */
  function Authenticate(token: Option<Jwt>, nowMs: nat): (r: Result<Option<Id>, Reply>)
    ensures token.None? ==> r == Err(Reply(401, NotLoggedInMessage))
    ensures token.Some? && Verify(token.value, nowMs).Err? ==> r == Err(Reply(401, BadTokenMessage))
    ensures r.Ok? <==> token.Some? && Verify(token.value, nowMs).Ok?
    ensures r.Ok? ==> r.value == token.value.claims.id
  {
    if token.None? then Err(Reply(401, NotLoggedInMessage))
    else match Verify(token.value, nowMs)
      case Err(_) => Err(Reply(401, BadTokenMessage))
      case Ok(decoded) => Ok(decoded.id)
  }

  /** The picture filter: PNG and JPEG only. */
  function PictureFilter(f: Upload): (r: Option<string>)
    ensures r.None? <==> f.mimetype == "image/png" || f.mimetype == "image/jpeg"
    ensures r.Some? ==> r.value == PictureTypeMessage
  {
    if f.mimetype == "image/png" || f.mimetype == "image/jpeg" then None else Some(PictureTypeMessage)
  }

  /** `upload.single("profilePicture")` with the 2 MiB limit: the picture, if
      one was sent, or the message of the error the request fails with. */
  function ReceivePicture(files: seq<Upload>): (r: Result<Option<Upload>, string>)
    ensures r.Ok? ==> forall i :: 0 <= i < |files| ==> files[i].fieldname == PictureField
    ensures r.Ok? ==> (r.value.Some? <==> files != [])
    ensures r.Ok? && r.value.Some? ==>
              (r.value.value.mimetype == "image/png" || r.value.value.mimetype == "image/jpeg")
              && |r.value.value.bytes| <= PictureMaxBytes
    ensures r.Err? ==> r.error in {UnexpectedFieldMessage, FileTooLargeMessage, PictureTypeMessage}
  {
    match Receive(files, map[PictureField := 1], PictureFilter, Some(PictureMaxBytes))
    case Err(m) => Err(m)
    case Ok(_) =>
      assert files != [] ==> Count(files, PictureField) > 0 by {
        if files != [] { assert files[0].fieldname == PictureField; }
      }
      Ok(FirstOf(files, PictureField))
  }

  /** The text fields of the multipart form; `account` and `contact` carry
      what `Number` makes of them. */
  datatype ProfileForm = ProfileForm(
    firstName: Option<string>,
    lastName: Option<string>,
    phone: Option<string>,
    account: Option<Coerced>,
    contact: Option<Coerced>,
    schoolName: Option<string>,
    description: Option<string>,
    biography: Option<string>,
    companyName: Option<string>,
    street: Option<string>,
    stateCity: Option<string>,
    country: Option<string>,
    website: Option<string>)

  /** A supplied text longer than `max` UTF-16 code units. */
  predicate TooLong(s: Option<string>, max: nat) {
    Truthy(s) && Utf16Length(s.value) > max
  }

  /** A supplied number outside `allowed` (NaN is outside every set). */
  predicate NotAmong(c: Option<Coerced>, allowed: set<int>) {
    Given(c) && (c.value.value.None? || c.value.value.value !in allowed)
  }

  /** The message of the first validation the form fails, in the order the
      handler checks them. */
  function Violation(f: ProfileForm): (r: Option<string>) {
    if TooLong(f.firstName, 20) then Some("First name too long")
    else if TooLong(f.lastName, 20) then Some("Last name too long")
    else if TooLong(f.description, 450) then Some("Description too long")
    else if TooLong(f.biography, 2000) then Some("Biography too long")
    else if TooLong(f.schoolName, 100) then Some("School name too long")
    else if TooLong(f.companyName, 100) then Some("Company name too long")
    else if TooLong(f.street, 100) then Some("Street too long")
    else if TooLong(f.stateCity, 100) then Some("State & City too long")
    else if TooLong(f.country, 50) then Some("Country too long")
    else if NotAmong(f.account, {0, 1, 2, 3, 4}) then Some("Invalid account type")
    else if NotAmong(f.contact, {0, 1}) then Some("Invalid contact value")
    else None
  }

  /** A form passes validation exactly when every bound holds. */
  lemma AcceptedIff(f: ProfileForm)
    ensures Violation(f).None? <==>
              !TooLong(f.firstName, 20) && !TooLong(f.lastName, 20) && !TooLong(f.description, 450)
              && !TooLong(f.biography, 2000) && !TooLong(f.schoolName, 100) && !TooLong(f.companyName, 100)
              && !TooLong(f.street, 100) && !TooLong(f.stateCity, 100) && !TooLong(f.country, 50)
              && !NotAmong(f.account, {0, 1, 2, 3, 4}) && !NotAmong(f.contact, {0, 1})
  {
  }

  /** A supplied account or contact code outside its range is refused, whatever else the form holds. */
  lemma OutOfRangeCodesRefused(f: ProfileForm)
    requires NotAmong(f.account, {0, 1, 2, 3, 4}) || NotAmong(f.contact, {0, 1})
    ensures Violation(f).Some?
  {
  }

  /** Every assigned number is a number: the save fails on NaN. */
  predicate Castable(f: ProfileForm) {
    (f.account.Some? ==> f.account.value.value.Some?) && (f.contact.Some? ==> f.contact.value.value.Some?)
  }

  /** The text a truthy field supplies, or what is stored. */
  function Supplied(o: Option<string>, stored: string): (r: string)
    ensures Truthy(o) ==> r == o.value
    ensures !Truthy(o) ==> r == stored
  {
    if Truthy(o) then o.value else stored
  }

  /** The user-level fields after the assignments: truthy texts replace the
      stored ones, and `account` and `contact` are taken whenever present. */
  function UpdatedFields(u: User, f: ProfileForm): (r: User)
    requires Castable(f)
    ensures r == u.(firstName := r.firstName, lastName := r.lastName, phone := r.phone, account := r.account,
                    contact := r.contact, schoolName := r.schoolName)
    ensures r.firstName == Supplied(f.firstName, u.firstName) && r.lastName == Supplied(f.lastName, u.lastName)
    ensures r.phone == Supplied(f.phone, u.phone) && r.schoolName == Supplied(f.schoolName, u.schoolName)
    ensures r.account == (if f.account.Some? then f.account.value.value.value else u.account)
    ensures r.contact == (if f.contact.Some? then f.contact.value.value.value else u.contact)
  {
    u.(firstName := Supplied(f.firstName, u.firstName),
       lastName := Supplied(f.lastName, u.lastName),
       phone := Supplied(f.phone, u.phone),
       account := if f.account.Some? then f.account.value.value.value else u.account,
       contact := if f.contact.Some? then f.contact.value.value.value else u.contact,
       schoolName := Supplied(f.schoolName, u.schoolName))
  }

  /** The profile after the assignments: truthy texts replace the stored ones,
      and the picture changes only with a new upload. */
  function UpdatedProfile(p: Profile, f: ProfileForm, picture: Option<Upload>): (r: Profile)
    ensures r.description == Supplied(f.description, p.description)
    ensures r.biography == Supplied(f.biography, p.biography)
    ensures r.companyName == Supplied(f.companyName, p.companyName)
    ensures r.street == Supplied(f.street, p.street)
    ensures r.stateCity == Supplied(f.stateCity, p.stateCity)
    ensures r.country == Supplied(f.country, p.country)
    ensures r.website == Supplied(f.website, p.website)
    ensures picture.Some? ==> r.profilePicture == DataUrl.Make(picture.value.mimetype, picture.value.bytes)
    ensures picture.None? ==> r.profilePicture == p.profilePicture
  {
    p.(description := Supplied(f.description, p.description),
       biography := Supplied(f.biography, p.biography),
       companyName := Supplied(f.companyName, p.companyName),
       street := Supplied(f.street, p.street),
       stateCity := Supplied(f.stateCity, p.stateCity),
       country := Supplied(f.country, p.country),
       website := Supplied(f.website, p.website),
       profilePicture := if picture.Some? then DataUrl.Make(picture.value.mimetype, picture.value.bytes)
                         else p.profilePicture)
  }

  /** The whole record after the handler's assignments; a missing profile is
      created first. Email, password and reset fields are never touched. */
  function ProfileUpdate(u: User, f: ProfileForm, picture: Option<Upload>): (r: User)
    requires Castable(f)
    ensures r.email == u.email && r.password == u.password
    ensures r.resetToken == u.resetToken && r.resetExpires == u.resetExpires
    ensures r.profile.Some?
  {
    UpdatedFields(u, f).(profile := Some(UpdatedProfile(u.profile.GetOr(DefaultProfile), f, picture)))
  }

  /** A form that supplies nothing. */
  const EmptyForm := ProfileForm(None, None, None, None, None, None, None, None, None, None, None, None, None)

  /** Supplying nothing changes nothing, except that a missing profile is created. */
  lemma EmptyFormKeepsUser(u: User)
    ensures ProfileUpdate(u, EmptyForm, None) == u.(profile := Some(u.profile.GetOr(DefaultProfile)))
  {
  }

  /** Sending the same form twice has the effect of sending it once. */
  lemma ProfileUpdateIdempotent(u: User, f: ProfileForm, picture: Option<Upload>)
    requires Castable(f)
    ensures ProfileUpdate(ProfileUpdate(u, f, picture), f, picture) == ProfileUpdate(u, f, picture)
  {
  }

  /** The account code passes validation for any value in 0..4, so a logged-in
      user can give themselves any account level, Admin included. */
  lemma SelfPromotion(u: User)
    ensures var f := EmptyForm.(account := Some(Coerced("4", Some(Admin))));
            Violation(f).None? && ProfileUpdate(u, f, None).account == Admin
  {
  }

  /** `User.findById(id).select("-password")` as the GET handlers answer it:
      the user without the password, or 404 when no user has that id (a token
      without an `id` claim finds nobody). */
  function FindUser(users: map<Id, User>, id: Option<Id>): (r: Result<Shown, Reply>)
    ensures r.Ok? <==> id.Some? && id.value in users
    ensures r.Err? ==> r.error == Reply(404, UserNotFoundMessage)
    ensures r.Ok? ==> r.value == Show(id.value, users[id.value]) && r.value.id == id.value
  {
    if id.Some? && id.value in users then Ok(Show(id.value, users[id.value]))
    else Err(Reply(404, UserNotFoundMessage))
  }

  /** GET /: every user without the password, for any caller with a valid
      cookie; no account level is checked. */
  function ListAll(db: Db, token: Option<Jwt>, nowMs: nat): (r: Result<set<Shown>, Reply>)
    reads db
    ensures r.Err? <==> Authenticate(token, nowMs).Err?
    ensures r.Err? ==> r.error == Authenticate(token, nowMs).error
    ensures r.Ok? ==> forall s :: s in r.value <==> s.id in db.users && s == Show(s.id, db.users[s.id])
  {
    match Authenticate(token, nowMs)
    case Err(e) => Err(e)
    case Ok(_) => Ok(set id | id in db.users :: Show(id, db.users[id]))
  }

  /** GET /profile: the caller's own record, looked up by the token's `id`. */
  function GetProfile(db: Db, token: Option<Jwt>, nowMs: nat): (r: Result<Shown, Reply>)
    reads db
    ensures Authenticate(token, nowMs).Err? ==> r == Err(Authenticate(token, nowMs).error)
    ensures r.Ok? <==> Authenticate(token, nowMs).Ok? && FindUser(db.users, Authenticate(token, nowMs).value).Ok?
    ensures r.Ok? ==> r.value.id == token.value.claims.id.value && r.value.id in db.users
    ensures r.Err? && Authenticate(token, nowMs).Ok? ==> r.error == Reply(404, UserNotFoundMessage)
  {
    match Authenticate(token, nowMs)
    case Err(e) => Err(e)
    case Ok(id) => FindUser(db.users, id)
  }

  /** GET /:id needs no cookie and hides only the password, so the reset
      token of a user who asked for a reset can be read by anyone, and it
      passes the reset query until the hour is up. */
  lemma ResetTokenExposed(users: map<Id, User>, id: Id, u: User, token: string, issuedMs: nat, nowMs: int)
    requires nowMs < issuedMs + AuthRoutes.ResetWindowMs
    ensures var stored := users[id := AuthRoutes.WithResetToken(u, token, issuedMs)];
            var r := FindUser(stored, Some(id));
            r.Ok? && r.value.resetToken == Some(token)
            && AuthRoutes.HoldsResetToken(stored[id], r.value.resetToken.value, nowMs)
  {
    AuthRoutes.ResetTokenLifetime(u, token, issuedMs, nowMs);
  }

  /** PUT /profile. */
  method UpdateProfile(db: Db, token: Option<Jwt>, nowMs: nat, files: seq<Upload>, form: ProfileForm)
    returns (reply: Reply)
    requires db.Valid()
    modifies db
    ensures db.Valid() && db.plays == old(db.plays)
    ensures reply.status != 200 ==> db.users == old(db.users)
    ensures match Authenticate(token, nowMs)
            case Err(e) => reply == e
            case Ok(userId) =>
              match ReceivePicture(files)
              case Err(m) => reply == Reply(500, m)
              case Ok(picture) =>
                if userId.None? || userId.value !in old(db.users) then reply == Reply(404, UserNotFoundMessage)
                else if Violation(form).Some? then reply == Reply(400, Violation(form).value)
                else if !Castable(form) then reply == Reply(500, ServerErrorMessage)
                else reply == Reply(200, UpdatedMessage)
                     && db.users == old(db.users)[userId.value := ProfileUpdate(old(db.users)[userId.value], form, picture)]
  {
    var auth := Authenticate(token, nowMs);
    if auth.Err? {
      return auth.error;
    }
    var received := ReceivePicture(files);
    if received.Err? {
      return Reply(500, received.error);
    }
    var userId, picture := auth.value, received.value;
    if userId.None? || userId.value !in db.users {
      return Reply(404, UserNotFoundMessage);
    }
    if TooLong(form.firstName, 20) { return Reply(400, "First name too long"); }
    if TooLong(form.lastName, 20) { return Reply(400, "Last name too long"); }
    if TooLong(form.description, 450) { return Reply(400, "Description too long"); }
    if TooLong(form.biography, 2000) { return Reply(400, "Biography too long"); }
    if TooLong(form.schoolName, 100) { return Reply(400, "School name too long"); }
    if TooLong(form.companyName, 100) { return Reply(400, "Company name too long"); }
    if TooLong(form.street, 100) { return Reply(400, "Street too long"); }
    if TooLong(form.stateCity, 100) { return Reply(400, "State & City too long"); }
    if TooLong(form.country, 50) { return Reply(400, "Country too long"); }
    if NotAmong(form.account, {0, 1, 2, 3, 4}) { return Reply(400, "Invalid account type"); }
    if NotAmong(form.contact, {0, 1}) { return Reply(400, "Invalid contact value"); }
    reply := Assign(db, userId.value, form, picture);
  }

  /** Lines 110-135 of the handler: the assignments, then the save. */
  method Assign(db: Db, id: Id, form: ProfileForm, picture: Option<Upload>) returns (reply: Reply)
    requires db.Valid() && id in db.users
    modifies db
    ensures db.Valid() && db.plays == old(db.plays)
    ensures !Castable(form) ==> reply == Reply(500, ServerErrorMessage) && db.users == old(db.users)
    ensures Castable(form) ==>
              reply == Reply(200, UpdatedMessage)
              && db.users == old(db.users)[id := ProfileUpdate(old(db.users)[id], form, picture)]
  {
    var user, castFails := AssignFields(db.users[id], form);
    if user.profile.None? {
      user := user.(profile := Some(DefaultProfile));
    }
    var p := AssignProfile(user.profile.value, form, picture);
    user := user.(profile := Some(p));
    if castFails {
      // Mongoose refuses to cast NaN when saving
      return Reply(500, ServerErrorMessage);
    }
    db.users := db.users[id := PreSave(Some(db.users[id]), user, 0)];
    reply := Reply(200, UpdatedMessage);
  }

  /** Lines 110-115: the user-level assignments; `castFails` records a NaN
      assigned to a Number field. */
  method AssignFields(u: User, form: ProfileForm) returns (user: User, castFails: bool)
    ensures castFails <==> !Castable(form)
    ensures Castable(form) ==> user == UpdatedFields(u, form)
    ensures user.profile == u.profile
  {
    user := u;
    if Truthy(form.firstName) { user := user.(firstName := form.firstName.value); }
    if Truthy(form.lastName) { user := user.(lastName := form.lastName.value); }
    if Truthy(form.phone) { user := user.(phone := form.phone.value); }
    castFails := false;
    if form.account.Some? {
      if form.account.value.value.None? { castFails := true; } else { user := user.(account := form.account.value.value.value); }
    }
    if form.contact.Some? {
      if form.contact.value.value.None? { castFails := true; } else { user := user.(contact := form.contact.value.value.value); }
    }
    if Truthy(form.schoolName) { user := user.(schoolName := form.schoolName.value); }
  }

  /** Lines 120-133: the profile assignments and the picture. */
  method AssignProfile(p0: Profile, form: ProfileForm, picture: Option<Upload>) returns (p: Profile)
    ensures p == UpdatedProfile(p0, form, picture)
  {
    p := AssignProfileTexts(p0, form);
    if Truthy(form.stateCity) { p := p.(stateCity := form.stateCity.value); }
    if Truthy(form.country) { p := p.(country := form.country.value); }
    if Truthy(form.website) { p := p.(website := form.website.value); }
    if picture.Some? {
      p := p.(profilePicture := DataUrl.Make(picture.value.mimetype, picture.value.bytes));
    }
  }

  /** Lines 120-123. */
  method AssignProfileTexts(p0: Profile, form: ProfileForm) returns (p: Profile)
    ensures p == p0.(description := Supplied(form.description, p0.description),
                     biography := Supplied(form.biography, p0.biography),
                     companyName := Supplied(form.companyName, p0.companyName),
                     street := Supplied(form.street, p0.street))
  {
    p := p0;
    if Truthy(form.description) { p := p.(description := form.description.value); }
    if Truthy(form.biography) { p := p.(biography := form.biography.value); }
    if Truthy(form.companyName) { p := p.(companyName := form.companyName.value); }
    if Truthy(form.street) { p := p.(street := form.street.value); }
  }
}
