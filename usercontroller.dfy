/** controllers/userController.js, `updateUserProfile`: the variant of the
    profile update that trims names, puts a single space where a text is
    blank, takes `account` and `contact` without a range check, and rebuilds
    the whole profile from the `profile` field on every call. */
module UserController {
  import opened Wrappers
  import opened Text
  import opened UserModel
  import opened Store
  import opened Uploads
  import DataUrl
  import UserRoutes

  const UserNotFoundMessage := "User not found"
  const ServerErrorMessage := "Server error"
  const UpdatedMessage := "Profile updated successfully"

  /** `value.trim() || " "`. */
  function TrimOrSpace(s: string): (r: string)
    ensures r != []
    ensures AllSpace(s) ==> r == " "
    ensures !AllSpace(s) ==> r == Trim(s)
  {
    TrimEmptyIffAllSpace(s);
    if Trim(s) == "" then " " else Trim(s)
  }

  /** A text supplied through `trim() || " "` never starts or ends with
      white space unless it is the single space, and trimming it again is the
      identity on the non-blank case. */
  lemma TrimOrSpaceShape(s: string)
    ensures TrimOrSpace(s) == " " || (!IsSpace(TrimOrSpace(s)[0]) && !IsSpace(TrimOrSpace(s)[|TrimOrSpace(s)| - 1]))
    ensures TrimOrSpace(TrimOrSpace(s)) == TrimOrSpace(s)
  {
    TrimEmptyIffAllSpace(s);
    if !AllSpace(s) {
      TrimIdempotent(s);
      TrimEmptyIffAllSpace(Trim(s));
    }
  }

  /** One field of the parsed profile object: missing or null, a string, or
      some other JSON value (whose `trim` call throws). */
  datatype JsonText = Absent | Text(s: string) | NotText

  /** The `profile` field of the request. */
  datatype ProfileInput =
    | NoProfile       // missing or empty
    | Unparsable      // a string `JSON.parse` rejects
    | ParsedNull      // the text "null": reading a field of null throws
    | NotAnObject     // a number, string, boolean or array: every field reads as undefined
    | Fields(description: JsonText, biography: JsonText, companyName: JsonText, street: JsonText,
             stateCity: JsonText, country: JsonText, website: JsonText)

  /** A name or the phone as the JSON body carries it: a string, or some other
      value, of which only its truthiness matters (`trim` on it throws). */
  datatype BodyText = Str(s: string) | Other(truthy: bool)

  /** `if (value)`: a non-empty string, or a truthy other value. */
  predicate Set(t: Option<BodyText>) {
    t.Some? && match t.value
      case Str(s) => s != ""
      case Other(truthy) => truthy
  }

  /** `value.trim()` is reached on something that is not a string. */
  predicate TrimThrows(t: Option<BodyText>) {
    Set(t) && t.value.Other?
  }

  datatype ControllerForm = ControllerForm(
    firstName: Option<BodyText>,
    lastName: Option<BodyText>,
    phone: Option<BodyText>,
    contact: Option<Coerced>,
    account: Option<Coerced>,
    schoolName: Option<string>,
    profile: ProfileInput)

  /** `profileData.field?.trim() || " "`: `None` when it throws. */
  function FieldText(t: JsonText): (r: Option<string>)
    ensures r.None? <==> t.NotText?
    ensures t.Absent? ==> r == Some(" ")
    ensures t.Text? ==> r == Some(TrimOrSpace(t.s))
  {
    match t
    case Absent => Some(" ")
    case Text(s) => Some(TrimOrSpace(s))
    case NotText => None
  }

  /** The profile object the handler assigns, keeping `picture`; `None` when
      building it throws. */
  function RebuiltProfile(picture: string, input: ProfileInput): (r: Option<Profile>)
    ensures r.None? <==>
              input.ParsedNull?
              || (input.Fields? && (input.description.NotText? || input.biography.NotText?
                  || input.companyName.NotText? || input.street.NotText? || input.stateCity.NotText?
                  || input.country.NotText? || input.website.NotText?))
    ensures r.Some? ==> r.value.profilePicture == picture
    ensures r.Some? && !input.Fields? ==>
              r.value == Profile(picture, " ", " ", " ", " ", " ", " ", " ")
  {
    match input
    case NoProfile => Some(Profile(picture, " ", " ", " ", " ", " ", " ", " "))
    case Unparsable => Some(Profile(picture, " ", " ", " ", " ", " ", " ", " "))
    case NotAnObject => Some(Profile(picture, " ", " ", " ", " ", " ", " ", " "))
    case ParsedNull => None
    case Fields(d, b, c, st, sc, co, w) =>
      if d.NotText? || b.NotText? || c.NotText? || st.NotText? || sc.NotText? || co.NotText? || w.NotText? then None
      else Some(Profile(picture, FieldText(d).value, FieldText(b).value, FieldText(c).value, FieldText(st).value,
                        FieldText(sc).value, FieldText(co).value, FieldText(w).value))
  }

  /** Every text field of a rebuilt profile is non-empty. */
  lemma RebuiltTextsNonEmpty(picture: string, input: ProfileInput)
    requires RebuiltProfile(picture, input).Some?
    ensures var p := RebuiltProfile(picture, input).value;
            p.description != "" && p.biography != "" && p.companyName != "" && p.street != ""
            && p.stateCity != "" && p.country != "" && p.website != ""
  {
  }

  /** No `trim` of lines 36-38 throws. */
  predicate Trimmable(f: ControllerForm) {
    !TrimThrows(f.firstName) && !TrimThrows(f.lastName) && !TrimThrows(f.phone)
  }

  /** Every assigned number is a number: the save fails on NaN. */
  predicate Castable(f: ControllerForm) {
    (f.account.Some? ==> f.account.value.value.Some?) && (f.contact.Some? ==> f.contact.value.value.Some?)
  }

  /** The picture kept through the rebuild: a new upload as a data URL, else
      the stored one, else "". */
  function KeptPicture(u: User, file: Option<Upload>): (s: string)
    ensures file.Some? ==> s == DataUrl.Make(file.value.mimetype, file.value.bytes)
    ensures file.None? ==> s == (if u.profile.Some? then u.profile.value.profilePicture else "")
  {
    if file.Some? then DataUrl.Make(file.value.mimetype, file.value.bytes)
    else if u.profile.Some? then u.profile.value.profilePicture
    else ""
  }

  /** The user-level fields after lines 36-41: trimmed names and phone, the
      numbers whenever present, the school name when truthy. */
  function ControllerFields(u: User, f: ControllerForm): (r: User)
    requires Trimmable(f) && Castable(f)
    ensures r == u.(firstName := r.firstName, lastName := r.lastName, phone := r.phone,
                    account := r.account, contact := r.contact, schoolName := r.schoolName)
    ensures r.firstName == (if Set(f.firstName) then TrimOrSpace(f.firstName.value.s) else u.firstName)
    ensures r.lastName == (if Set(f.lastName) then TrimOrSpace(f.lastName.value.s) else u.lastName)
    ensures r.phone == (if Set(f.phone) then TrimOrSpace(f.phone.value.s) else u.phone)
    ensures r.schoolName == (if Truthy(f.schoolName) then f.schoolName.value else u.schoolName)
    ensures r.account == (if f.account.Some? then f.account.value.value.value else u.account)
    ensures r.contact == (if f.contact.Some? then f.contact.value.value.value else u.contact)
  {
    u.(firstName := if Set(f.firstName) then TrimOrSpace(f.firstName.value.s) else u.firstName,
       lastName := if Set(f.lastName) then TrimOrSpace(f.lastName.value.s) else u.lastName,
       phone := if Set(f.phone) then TrimOrSpace(f.phone.value.s) else u.phone,
       contact := if f.contact.Some? then f.contact.value.value.value else u.contact,
       account := if f.account.Some? then f.account.value.value.value else u.account,
       schoolName := if Truthy(f.schoolName) then f.schoolName.value else u.schoolName)
  }

  /** The saved record, or `None` when the request ends in a 500. */
  function ControllerUpdate(u: User, f: ControllerForm, file: Option<Upload>): (r: Option<User>)
    ensures r.Some? <==> Trimmable(f) && Castable(f) && RebuiltProfile(KeptPicture(u, file), f.profile).Some?
    ensures r.Some? ==> r.value == ControllerFields(u, f).(profile := RebuiltProfile(KeptPicture(u, file), f.profile))
    ensures r.Some? ==> r.value.email == u.email && r.value.password == u.password
  {
    if !Trimmable(f) || !Castable(f) then None
    else match RebuiltProfile(KeptPicture(u, file), f.profile)
      case None => None
      case Some(p) => Some(ControllerFields(u, f).(profile := Some(p)))
  }

  /** Without a `profile` field every profile text becomes a single space and
      only the picture survives: the stored texts are not preserved. */
  lemma AbsentProfileBlanksTexts(u: User, f: ControllerForm)
    requires Trimmable(f) && Castable(f) && f.profile == NoProfile
    ensures ControllerUpdate(u, f, None).Some?
    ensures ControllerUpdate(u, f, None).value.profile
            == Some(Profile(if u.profile.Some? then u.profile.value.profilePicture else "", " ", " ", " ", " ", " ", " ", " "))
  {
  }

  /** The two profile updates disagree: an account code of 9 is refused by the
      route and stored by the controller, and a form without profile texts
      keeps the stored ones through the route but blanks them through the
      controller. */
  lemma VariantsDiverge(u: User)
    requires u.profile == Some(DefaultProfile.(description := "Author of short plays"))
    ensures var f := ControllerForm(None, None, None, None, Some(Coerced("9", Some(9))), None, NoProfile);
            ControllerUpdate(u, f, None).Some? && ControllerUpdate(u, f, None).value.account == 9
    ensures UserRoutes.Violation(UserRoutes.EmptyForm.(account := Some(Coerced("9", Some(9))))) == Some("Invalid account type")
    ensures UserRoutes.ProfileUpdate(u, UserRoutes.EmptyForm, None).profile.value.description == "Author of short plays"
    ensures var f := ControllerForm(None, None, None, None, None, None, NoProfile);
            ControllerUpdate(u, f, None).value.profile.value.description == " "
  {
  }

  /** The handler: the assignments of lines 36-71 one at a time, then the save. */
  method UpdateUserProfile(db: Db, userId: Option<Id>, form: ControllerForm, file: Option<Upload>)
    returns (reply: Reply)
    requires db.Valid()
    modifies db
    ensures db.Valid() && db.plays == old(db.plays)
    ensures userId.None? || userId.value !in old(db.users) ==>
              reply == Reply(404, UserNotFoundMessage) && db.users == old(db.users)
    ensures userId.Some? && userId.value in old(db.users) ==>
              var r := ControllerUpdate(old(db.users)[userId.value], form, file);
              if r.None? then reply == Reply(500, ServerErrorMessage) && db.users == old(db.users)
              else reply == Reply(200, UpdatedMessage) && db.users == old(db.users)[userId.value := r.value]
  {
    if userId.None? || userId.value !in db.users {
      return Reply(404, UserNotFoundMessage);
    }
    var id := userId.value;
    var user, throws, castFails := AssignFields(db.users[id], form);
    if throws {
      // a TypeError from `trim` on a value that is not a string
      return Reply(500, ServerErrorMessage);
    }
    if file.Some? {
      if user.profile.None? {
        user := user.(profile := Some(DefaultProfile));
      }
      user := user.(profile := Some(user.profile.value.(profilePicture := DataUrl.Make(file.value.mimetype, file.value.bytes))));
    }
    var picture := if user.profile.Some? then user.profile.value.profilePicture else "";
    assert picture == KeptPicture(db.users[id], file);
    var rebuilt := RebuiltProfile(picture, form.profile);
    if rebuilt.None? {
      // a TypeError while reading the parsed profile
      return Reply(500, ServerErrorMessage);
    }
    user := user.(profile := rebuilt);
    if castFails {
      // Mongoose refuses to cast NaN when saving
      return Reply(500, ServerErrorMessage);
    }
    db.users := db.users[id := PreSave(Some(db.users[id]), user, 0)];
    reply := Reply(200, UpdatedMessage);
  }

  /** Lines 36-41: the user-level assignments; `throws` records a `trim` that
      throws, which ends the assignments, and `castFails` a NaN assigned to a
      Number field. */
  method AssignFields(u: User, form: ControllerForm) returns (user: User, throws: bool, castFails: bool)
    ensures throws <==> !Trimmable(form)
    ensures !throws ==> (castFails <==> !Castable(form))
    ensures user.profile == u.profile && user.password == u.password && user.email == u.email
    ensures Trimmable(form) && Castable(form) ==> user == ControllerFields(u, form)
  {
    user, throws, castFails := u, false, false;
    if Set(form.firstName) {
      if form.firstName.value.Other? { return user, true, false; }
      user := user.(firstName := TrimOrSpace(form.firstName.value.s));
    }
    if Set(form.lastName) {
      if form.lastName.value.Other? { return user, true, false; }
      user := user.(lastName := TrimOrSpace(form.lastName.value.s));
    }
    if Set(form.phone) {
      if form.phone.value.Other? { return user, true, false; }
      user := user.(phone := TrimOrSpace(form.phone.value.s));
    }
    if form.contact.Some? {
      if form.contact.value.value.None? { castFails := true; } else { user := user.(contact := form.contact.value.value.value); }
    }
    if form.account.Some? {
      if form.account.value.value.None? { castFails := true; } else { user := user.(account := form.account.value.value.value); }
    }
    if Truthy(form.schoolName) { user := user.(schoolName := form.schoolName.value); }
  }
}
