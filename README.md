# MO Plays backend, modelled in Dafny

This project models the Express and Mongoose backend of MO Plays, a
database of plays. Playwrights upload plays and educators browse them. Its
parts are:

- **Users and sign-in.** The user record and its password hashing. Sign-up,
  login, the cookie check and the password-reset flow. The `protect` and
  `allowRoles` middleware.
- **The user routes.** The profile update of the user routes and the
  differing variant in the user controller. The admin routes that list
  users and change an account level.
- **Plays.** The listing with its filters, search hits, sort order and
  paging. Creating and editing plays with cover and script uploads. The
  script sample download. The 15-minute edit token of the play controller.
- **Mail.** Contact mail to the admins through the logged-in contact
  handler and the public contact form. Account mail. The Gmail raw message,
  which is URL-safe base64 of the UTF-8 text with the padding removed.

The stored collections live in one `Db` object (`Store.Db`). Its `users`
and `plays` maps are updated in place by the handlers, which are methods.
The pure parts are functions, proved against lemmas:

- the filters and the pages;
- base64 as described in section 4 of RFC 4648 and the URL-safe alphabet
  of section 5;
- UTF-8 as described in RFC 3629;
- data URLs as described in RFC 2397;
- ECMAScript white space for `trim`.

Mail goes through a `Mailer` object whose `outbox` records each message
handed to Gmail or to SendGrid.

Everything the server gets from outside is a parameter:

- the clock `nowMs`;
- bcrypt salts;
- fresh document ids;
- the random reset token;
- whether a user lookup throws (`lookupFails`);
- whether SendGrid has a key and accepts a message;
- whether the Gmail credentials are set and Gmail accepts;
- the plays a free-text search matches (`searchHits`).

bcrypt and JWT are abstract:

- a digest remembers the text it was made from, and comparing succeeds
  when the entered text gives the same 72 key bytes (`UserModel.BcryptKey`);
- a token knows its claims, its issue and expiry seconds, and whether this
  server signed it.

Where the code and its comments disagree, the model follows the code:

- `GET /users/` of the user routes says "Admin only", but it checks only
  the cookie (`UserRoutes.ListAll`).
- The contact handler's `to` field is ignored
  (`ContactController.TargetDoesNotReceive`).
- A user can give themselves any account level through `PUT /profile`
  (`UserRoutes.SelfPromotion`).
- The two profile updates disagree (`UserController.VariantsDiverge`).
- The public `GET /users/:id` hides only the password. It therefore shows
  an outstanding reset token, which opens the reset route
  (`UserRoutes.ResetTokenExposed`).
- The file filter's "Invalid file type" branch cannot be reached
  (`PlayRoutes.InvalidFileTypeNeverReported`).
- An empty script is stored but its sample is a 404
  (`PlayRoutes.EmptyUploadHasNoSample`).
- PUT `/:id` of the play routes lets any account from 4 up edit. The play controller
  lets only an account of exactly 4 edit.
- `models/Play.js` declares only title, author and year. The play record
  here has the fields the routes read and write.

## Model

| member | source | states |
|---|---|---|
| UserModel.AccountName | models/User.js:29-31 | an account code has a name exactly when it is 0 to 4 |
| UserModel.NewUser | models/User.js:21-45 | a new record holds the given names, email, phone, plain password and account, contact 0 and school "" by default, the all-empty profile and no reset token |
| UserModel.PreSave | models/User.js:48-53 | only a modified plain password is replaced by its digest; every other field, and an unmodified record, is saved as it is |
| UserModel.SavedPasswordMatches | models/User.js:48-58 | after saving a new password that password matches, and an entered text matches exactly when its bcrypt key bytes equal the password's |
| UserModel.LongKeyIsPrefix | models/User.js:55-58 | a password of 72 bytes or more contributes exactly its first 72 bytes to the hash |
| UserModel.ShortKeysDistinct | models/User.js:55-58 | passwords under 72 bytes without U+0000 have the same key bytes exactly when they are equal |
| UserModel.LongPasswordsCollide | models/User.js:55-58 | two different 73-character passwords that share 72 characters match each other's hash |
| UserModel.SaveKeepsHash | models/User.js:48-58 | saving without touching the password keeps the hash, so the same passwords match as before |
| UserModel.ShowHidesOnlyPassword | models/User.js:21-45 | `select("-password")` output of two records is equal exactly when the records differ at most in the password |
| Store.Owner | models/User.js:25 | the user registered under an email is the unique one with that email; none exactly when no user has it |
| Store.Db.constructor | models/User.js:61 | the collections start empty |
| Store.Db.FindByEmail | routes/auth.js:15-17 | `findOne({ email })` returns a user with that email, none exactly when there is none, and the owner while emails are unique |
| Tokens.Sign | middleware/authMiddleware.js:58-61 | a signed token carries the claims, the issue second and the expiry `lifetime` seconds later |
| Tokens.Verify | middleware/authMiddleware.js:17 | a forged token is a JsonWebTokenError, a genuine token at or after its expiry is a TokenExpiredError, otherwise the claims |
| Tokens.SignThenVerify | middleware/authMiddleware.js:17 | a token this server signed verifies with its claims exactly before it expires, and is never reported as forged |
| Tokens.FreshTokenVerifies | middleware/authMiddleware.js:17 | a token with a positive lifetime verifies at the moment it is issued |
| AuthMiddleware.Classify | middleware/authMiddleware.js:26-38 | every failure is a 401, and each message belongs to exactly one kind of failure |
| AuthMiddleware.Protect | middleware/authMiddleware.js:9-39 | no token gives 401 "No token found"; it passes exactly for a verified token whose user exists and whose lookup does not throw, with that user's id |
| AuthMiddleware.AllowRoles | middleware/authMiddleware.js:45-52 | passes exactly when there is a user whose account is listed, else 403 |
| AuthMiddleware.Gate | middleware/authMiddleware.js:9-52 | `protect` then `allowRoles` passes exactly when both do; a `protect` failure is reported as is |
| AuthMiddleware.GenerateToken | middleware/authMiddleware.js:58-69 | a 30-day strict same-site cookie whose max age equals the token's lifetime |
| AuthRoutes.SignupRecord | routes/auth.js:19-28 | the record saves exactly when the required texts are non-empty and the account casts to a number, and it holds those values |
| AuthRoutes.Signup | routes/auth.js:11-50 | a used email gives 400 and no change; an invalid body gives 500 and no change; otherwise 201 and exactly one new hashed record whose password matches |
| AuthRoutes.LoginCookie | routes/auth.js:65-72 | a 7-day lax cookie with the user's id and account, whose max age equals the token's lifetime |
| AuthRoutes.Login | routes/auth.js:53-87 | an unknown email or a wrong password gives 401; a missing password gives 500; the right one gives 200 and the login cookie |
| AuthRoutes.VerifyToken | routes/auth.js:90-104 | no cookie and a bad token give distinct 401s; it passes exactly for a verified token naming an existing user, and otherwise gives 404 |
| AuthRoutes.ResetLink | routes/auth.js:135 | the link starts with the client URL (or its default) and ends with the token |
| AuthRoutes.ResetMail | routes/auth.js:137-142 | the reset mail goes to the user, from support, with the link in both the text and the HTML |
| AuthRoutes.WithResetToken | routes/auth.js:128-133 | only the reset token and an expiry one hour on change |
| AuthRoutes.ForgotPassword | routes/auth.js:120-149 | an unknown email gets the same 200 and changes nothing; a known one stores the token before the mail, and the reply is 200 exactly when SendGrid takes the mail |
| AuthRoutes.ResetTokenLifetime | routes/auth.js:157-160 | a stored token passes the reset query exactly before its hour is up |
| AuthRoutes.AfterReset | routes/auth.js:166-169 | only the password (hashed) changes and the reset fields are cleared |
| AuthRoutes.ResetPassword | routes/auth.js:152-193 | no holder of the unexpired token gives 400 and no change; otherwise the holder gets the new password, loses the token for good and is logged in |
| UserRoutes.Authenticate | routes/userRoutes.js:10-21 | no cookie and a failed verification give distinct 401s; it passes exactly for a verified token, with its `id` claim |
| UserRoutes.FindUser | routes/userRoutes.js:35-57 | a lookup is 404 exactly when no user has the id, and otherwise shows that user without the password |
| UserRoutes.ListAll | routes/userRoutes.js:24-32 | any valid cookie lists every user without the password; only the cookie check can refuse |
| UserRoutes.GetProfile | routes/userRoutes.js:35-45 | a cookie failure is reported as is; otherwise it gives the caller's own record, or 404 |
| UserRoutes.ResetTokenExposed | routes/userRoutes.js:48-57 | the public lookup shows a user's outstanding reset token, and that token passes the reset query until it expires |
| UserRoutes.PictureFilter | routes/userRoutes.js:65-71 | a picture passes exactly when it is PNG or JPEG |
| UserRoutes.ReceivePicture | routes/userRoutes.js:61-72 | an accepted upload is at most one PNG or JPEG of at most 2 MiB under `profilePicture`; otherwise one of the three multer messages |
| UserRoutes.AcceptedIff | routes/userRoutes.js:97-107 | a form passes validation exactly when every length bound and both code ranges hold |
| UserRoutes.OutOfRangeCodesRefused | routes/userRoutes.js:106-107 | an account outside 0..4 or a contact outside 0..1 is refused whatever else the form holds |
| UserRoutes.Supplied | routes/userRoutes.js:110-123 | a truthy text replaces the stored one, anything else keeps it |
| UserRoutes.UpdatedFields | routes/userRoutes.js:110-115 | each of the four texts is replaced exactly when supplied, account and contact whenever present, and nothing else changes |
| UserRoutes.UpdatedProfile | routes/userRoutes.js:118-133 | each of the seven profile texts is replaced exactly when supplied; the picture changes only with an upload, into its data URL |
| UserRoutes.ProfileUpdate | routes/userRoutes.js:110-135 | email, password and reset fields are never touched, and the profile always exists afterwards |
| UserRoutes.EmptyFormKeepsUser | routes/userRoutes.js:110-135 | an empty form changes nothing except creating a missing profile |
| UserRoutes.ProfileUpdateIdempotent | routes/userRoutes.js:110-135 | sending the same form twice equals sending it once |
| UserRoutes.SelfPromotion | routes/userRoutes.js:106-112 | a user's own form with account 4 passes validation and makes them Admin |
| UserRoutes.UpdateProfile | routes/userRoutes.js:75-141 | cookie, upload, lookup and validation failures change nothing; otherwise the record becomes `ProfileUpdate`, or 500 when a number does not cast |
| UserRoutes.Assign | routes/userRoutes.js:110-135 | the assignments and the save give the updated record, or 500 and no change |
| UserRoutes.AssignFields | routes/userRoutes.js:110-115 | the step-by-step field assignments equal `UpdatedFields`, and flag exactly the casts that fail |
| UserRoutes.AssignProfile | routes/userRoutes.js:118-133 | the step-by-step profile assignments equal `UpdatedProfile` |
| UserRoutes.AssignProfileTexts | routes/userRoutes.js:120-126 | each profile text is replaced exactly when supplied |
| UserController.TrimOrSpace | controllers/userController.js:36-38 | never empty: a single space for blank text, else the trimmed text |
| UserController.TrimOrSpaceShape | controllers/userController.js:36-38 | the result is a single space or has no white space at its ends, and applying it again changes nothing |
| UserController.FieldText | controllers/userController.js:61-69 | an absent field becomes " ", a text becomes `TrimOrSpace` of it, and a non-text throws |
| UserController.RebuiltProfile | controllers/userController.js:51-70 | the rebuilt profile keeps the picture; it fails exactly for a parsed `null` or a non-text field, and a missing, malformed or non-object `profile` gives " " for every text |
| UserController.RebuiltTextsNonEmpty | controllers/userController.js:61-69 | every text of a rebuilt profile is non-empty |
| UserController.KeptPicture | controllers/userController.js:44-48 | a new upload becomes its data URL, else the stored picture, else "" |
| UserController.ControllerFields | controllers/userController.js:36-41 | when no `trim` throws: each name and the phone is replaced, trimmed (or " "), exactly when truthy, the school name when truthy, account and contact whenever present with no range check, and nothing else changes |
| UserController.ControllerUpdate | controllers/userController.js:28-79 | saving succeeds exactly when no name or phone is a truthy non-string (whose `trim` throws), the numbers cast and the profile builds; email and password never change |
| UserController.AbsentProfileBlanksTexts | controllers/userController.js:61-69 | without a `profile` field every profile text becomes " " and only the picture survives |
| UserController.VariantsDiverge | controllers/userController.js:39-69 | account 9 is refused by the route but stored by the controller, and an empty form keeps texts through the route but blanks them through the controller |
| UserController.UpdateUserProfile | controllers/userController.js:28-79 | a missing user is 404 with no change; otherwise the record becomes `ControllerUpdate`, or 500 with no change |
| UserController.AssignFields | controllers/userController.js:36-41 | the step-by-step assignments stop exactly at a `trim` that throws, flag exactly the casts that fail, and otherwise equal `ControllerFields` |
| AdminRoutes.ListUsers | routes/adminRoutes.js:11-24 | only an Admin caller gets the list, which holds every user without the password |
| AdminRoutes.ValidLevelIff | routes/adminRoutes.js:37-38 | a level is valid exactly when it is a JSON number from 0 to 4; the string "4" is not |
| AdminRoutes.UpdateAccount | routes/adminRoutes.js:29-53 | a gate failure, a missing user (checked first) or an invalid level changes nothing; otherwise only that user's account changes |
| Email.Lines | utils/Email.js:22-30 | seven lines: three headers, the MIME version, the HTML type exactly when there is HTML, a blank line and the body |
| Email.MakeRawMessage | utils/Email.js:21-37 | the raw message holds no `+`, `/` or `=` |
| Email.RawRoundTrip | utils/Email.js:21-37 | re-padding and URL-safe decoding the raw message gives its UTF-8 bytes, which decode to the message text |
| Email.NoPlusNoSlash | utils/Email.js:34-36 | after the two substitutions and the unpadding no `+`, `/` or `=` is left |
| Email.UrlSafeUnpaddedIsUnpad | utils/Email.js:32-36 | the substituted, unpadded standard encoding is the unpadded URL-safe encoding |
| Email.AccountType | utils/Email.js:102-105 | 0 is "Educator", 1 "Playwright", anything else "Unknown" |
| Email.AccountEmails | utils/Email.js:92-146 | no address gives no mail; a custom message gives one mail to the user, with the reset subject exactly when it starts with "Reset"; otherwise the admin notice, then the welcome |
| Email.GmailAll | utils/Email.js:142-143 | each message in order is handed to Gmail |
| Email.Mailer.constructor | utils/Email.js:9-18 | the mailer starts with the given provider settings and an empty outbox |
| Email.Mailer.SendEmail | utils/Email.js:40-64 | missing credentials throw before sending; otherwise one message goes out, sent from support when no sender is given, exactly when Gmail accepts |
| Email.Mailer.SendGridEmail | utils/sendEmail.js:6-29 | no API key throws; otherwise one message goes out from the support address exactly when SendGrid accepts |
| Email.Mailer.SendContactEmail | utils/Email.js:67-89 | a missing name, address or message throws with nothing sent; otherwise one contact mail goes to the admin exactly when Gmail works |
| Email.Mailer.SendAccountEmail | utils/Email.js:92-146 | the messages of `AccountEmails` go out in order, and all of them exactly when Gmail works |
| ContactController.IsBlank | controllers/contactController.js:15-17 | a message is blank exactly when it is missing or all white space |
| ContactController.ContactOutcome | controllers/contactController.js:9-40 | blank gives 400, a missing target 404; otherwise a mail to the admin with the sender's own details, sent exactly when the sender's details are complete and Gmail works, with 200, else 500 |
| ContactController.TargetDoesNotReceive | controllers/contactController.js:26-33 | whichever existing user is the target, the outcome is the same and the mail goes to the admin |
| ContactController.ContactUser | controllers/contactController.js:9-40 | the reply is that of `ContactOutcome`, and the outbox gains exactly its mail |
| ContactRoutes.SubmitOutcome | routes/contactRoutes.js:7-38 | a missing required field gives exactly the 400; otherwise the form mail goes to the admin through SendGrid exactly when it has a key and accepts, with 200, else 500 |
| ContactRoutes.FormTextLayout | routes/contactRoutes.js:16-23 | the mail lists name, address, phone or "N/A", and the message, each on its own line |
| ContactRoutes.FormAndControllerTextsAgree | routes/contactRoutes.js:16-23 | the form text and the contact-handler text differ only in the spaces after the last line break |
| ContactRoutes.SubmitContactForm | routes/contactRoutes.js:7-38 | the reply is that of `SubmitOutcome`, and the outbox gains exactly its mail |
| Text.TrimStart | routes/playRoutes.js:102 | the result is the suffix of the input that starts at its first non-space character |
| Text.TrimEnd | routes/playRoutes.js:102 | the result is the prefix of the input that ends at its last non-space character |
| Text.Trim | controllers/userController.js:36-38 | the result is a slice with only white space around it, and neither starts nor ends in white space |
| Text.TrimEmptyIffAllSpace | controllers/contactController.js:15 | text trims to "" exactly when it is all white space |
| Text.TrimIdempotent | controllers/userController.js:36-38 | trimming twice equals trimming once |
| Text.Utf16Length | routes/userRoutes.js:97-105 | `.length` lies between the number of characters and twice it |
| Text.Utf16LengthOfBmp | routes/userRoutes.js:97-105 | for Basic Multilingual Plane text `.length` is the number of characters |
| Text.ReplaceChar | utils/Email.js:34-35 | each occurrence of the character, and only those, is replaced, keeping the length |
| Text.DropTrailing | utils/Email.js:36 | the result is the input without its final run of the character |
| Text.DropTrailingAfterRepeat | utils/Email.js:36 | dropping the run from `x` followed by copies of the character gives `x` back when `x` does not end in it |
| Text.CastNumber | controllers/playController.js:172-179 | Mongoose's Number cast: a number stays, null and "" give null, and a non-numeric value fails |
| Base64.ValueOf | utils/Email.js:32-33 | a character's value, when it has one, is the value that character encodes |
| Base64.ValueOfCharOf | utils/Email.js:32-33 | each digit reads back as its value, and `=` is no digit of either alphabet |
| Base64.Encode | utils/Email.js:32-33 | four characters per started group of three bytes |
| Base64.DecodeGroup | routes/playRoutes.js:314-317 | a decoded group of three bytes encodes back to the group |
| Base64.DecodeLast | routes/playRoutes.js:314-317 | a decoded last group of one to three bytes encodes back to it |
| Base64.Decode | routes/playRoutes.js:314-317 | whatever decodes is the encoding of the result, so only canonical text is accepted; Node's decoder is lenient, and the two agree on the canonical text `FilesEncoded` keeps stored |
| Base64.DecodeEncode | routes/playRoutes.js:188-197 | decoding an encoding gives the bytes back |
| Base64.DecodeIffEncode | routes/playRoutes.js:314-317 | text decodes to some bytes exactly when it is their encoding; this is the reference inverse, which agrees with Node's lenient decoder on canonical text |
| Base64.EncodeUrlSafeIsSubstituted | utils/Email.js:34-35 | the URL-safe encoding is the standard one with `+` as `-` and `/` as `_`, character by character |
| Base64.StandardToUrlSafe | utils/Email.js:34-35 | the two `replace` calls turn the standard encoding into the URL-safe one |
| Base64.EncodeShape | utils/Email.js:36 | an encoding is digits followed by the padding its length requires |
| Base64.Repad | utils/Email.js:36 | re-padding yields a multiple of four characters |
| Base64.RepadUnpad | utils/Email.js:36 | unpadding leaves no `=`, and re-padding restores the encoding |
| Utf8.EncodeChar | utils/Email.js:32 | one to four bytes per code point |
| Utf8.Encode | utils/Email.js:32 | between one and four bytes per character |
| Utf8.DecodeFirst | utils/Email.js:32 | reference inverse of the encoding: a decoded first code point is encoded by exactly the bytes it consumed |
| Utf8.Decode | utils/Email.js:32 | reference inverse of the encoding: whatever decodes is the encoding of the result |
| Utf8.DecodeEncode | utils/Email.js:32 | decoding the encoding of a string gives the string back |
| Utf8.EncodeAscii | utils/Email.js:32 | ASCII text is one byte per character, each byte the character's code |
| DataUrl.Make | routes/playRoutes.js:183-185 | the URL starts with `data:` and its length is the scheme, type, marker and encoded payload |
| DataUrl.Parse | routes/userRoutes.js:129-133 | reference inverse of the data URL built: whatever parses is rebuilt exactly by `Make` |
| DataUrl.ParseMake | routes/userRoutes.js:129-133 | a data URL built from a type without `;` reads back as that type and those bytes |
| Uploads.Count | routes/userRoutes.js:61-72 | the number of files under a field is at most the number of files |
| Uploads.Receive | routes/userRoutes.js:61-72 | accepted files keep within each field's count and the size limit, and pass the filter; otherwise the first multer error |
| Uploads.FirstOf | routes/playRoutes.js:179-197 | the first file under a field exists exactly when one was sent, and comes from that field |
| PlayModel.Populate | routes/playRoutes.js:98 | the author resolves exactly when the play names one who still exists, to that user's id, first name and last name only |
| PlayModel.Format | routes/playRoutes.js:140-146 | the author is shown with an id exactly when it resolves, by first and last name, and otherwise as "Anonymous" |
| PlayListing.TextKey | routes/playRoutes.js:76-78 | a text filter is set exactly when its parameter is non-empty, to that value |
| PlayListing.BoundOf | routes/playRoutes.js:81-96 | a bound is set exactly when its parameter is given, to its number |
| PlayListing.RangeOf | routes/playRoutes.js:79-93 | a range is set exactly when either parameter is given, `$gte` only from the lower and `$lte` only from the upper |
| PlayListing.FilterOf | routes/playRoutes.js:74-96 | each filter key comes from its own parameters and is set exactly when they are supplied |
| PlayListing.BuildFilters | routes/playRoutes.js:74-96 | the conditional assignments build exactly `FilterOf` |
| PlayListing.BuildRange | routes/playRoutes.js:79-93 | the nested range dictionary is exactly `RangeOf` |
| PlayListing.EmptyQueryMatchesAll | routes/playRoutes.js:74-98 | a query without parameters matches every play |
| PlayListing.Select | routes/playRoutes.js:98-129 | the selection holds exactly the stored plays that match the filter and the search, each once when the collection lists each id once |
| PlayListing.SearchHits | routes/playRoutes.js:101-129 | the search restricts the result exactly when it is non-empty |
| PlayListing.LexTotal | routes/playRoutes.js:138 | any two titles are ordered one way or the other |
| PlayListing.LexTransitive | routes/playRoutes.js:138 | title order is transitive |
| PlayListing.BeforeTotal | controllers/playController.js:94-96 | any two plays are ordered one way or the other under either sort key |
| PlayListing.BeforeTransitive | controllers/playController.js:94-96 | the sort order is transitive |
| PlayListing.OrderedPairwise | routes/playRoutes.js:138 | sorted neighbours imply sorted between any two positions |
| PlayListing.Insert | routes/playRoutes.js:138 | insertion keeps the order and adds exactly one play |
| PlayListing.Sort | routes/playRoutes.js:138 | the sorted list is a permutation of its input, in order |
| PlayListing.TotalPages | routes/playRoutes.js:132 | `Math.ceil(total / limit)`: the fewest pages of `limit` that hold every result; NaN or Infinity for a zero limit |
| PlayListing.NextPageIffMoreResults | routes/playRoutes.js:153 | with a positive limit a next page exists exactly when results remain after this page |
| PlayListing.Window | routes/playRoutes.js:135-137 | `skip` then `limit`: the elements from `skip` on, as many as the limit allows |
| PlayListing.EveryResultOnAPage | routes/playRoutes.js:131-138 | with a positive limit each result is on a page within `totalPages`, at its place in that page |
| PlayListing.PermutationKeepsDistinct | routes/playRoutes.js:138 | sorting distinct plays leaves them distinct |
| PlayListing.WindowOfSorted | routes/playRoutes.js:135-138 | a page of sorted selected plays holds only selected plays, each once, in order |
| PlayListing.PageOf | routes/playRoutes.js:131-146 | the page has exactly the length `skip` and `limit` leave of the matches, and is the formatted window at `skip` of an ordering of the matches by the key; every play shown is stored and selected, at most once |
| PlayListing.FormatAll | routes/playRoutes.js:140-146 | each play of the page is formatted, in order |
| PlayRoutes.FileFilter | routes/playRoutes.js:28-45 | a cover passes exactly when it is an image type, a script exactly when PDF or DOCX, and each refusal has its message |
| PlayRoutes.ReceivePlayFiles | routes/playRoutes.js:28-51 | accepted uploads are at most one cover and one script, each of a permitted type; errors are one of three messages |
| PlayRoutes.InvalidFileTypeNeverReported | routes/playRoutes.js:42-44 | the filter's last branch is never reported, since multer refuses other fields first |
| PlayRoutes.Attach | routes/playRoutes.js:188-197 | the stored script keeps the name and type, and its data decodes to the uploaded bytes |
| PlayRoutes.CoverOf | routes/playRoutes.js:179-186 | a cover is stored exactly when one was sent, as the data URL of an uploaded cover |
| PlayRoutes.ScriptOf | routes/playRoutes.js:188-197 | a script is stored exactly when one was sent, as decodable base64 of an uploaded script |
| PlayRoutes.ListPlays | routes/playRoutes.js:54-160 | a failing cast or a negative skip gives 500; otherwise the page of `PageOf` by title (the window at `skip` of the sorted matches), with the total, the page count and the page flags |
| PlayRoutes.NumberOf | routes/playRoutes.js:202-208 | nothing for an empty value, else its number |
| PlayRoutes.NewPlay | routes/playRoutes.js:199-215 | the play saves exactly when its values cast, with the caller as author, the submission time, each text as given, each number as cast, and the files |
| PlayRoutes.CreatePlay | routes/playRoutes.js:163-225 | gate and upload failures change nothing; a failed cast is a 500; otherwise 201 and exactly one new play |
| PlayRoutes.GetPlay | routes/playRoutes.js:228-238 | after `protect`, the stored play with its author reduced to id, first name and last name (no password or reset token), or 404 |
| PlayRoutes.EditedTexts | routes/playRoutes.js:265-275 | each of the five texts is replaced exactly when the body's value is non-empty, and nothing else changes |
| PlayRoutes.EditedNumbers | routes/playRoutes.js:266-271 | each of the five numbers (acts, duration, total, males, females) and the publication date is replaced by its cast exactly when supplied, and nothing else changes |
| PlayRoutes.EditedFiles | routes/playRoutes.js:277-293 | each file is replaced exactly when a new one is sent, and nothing else changes |
| PlayRoutes.EditedPlay | routes/playRoutes.js:265-293 | an edit saves exactly when its values cast, and the file changes only with an upload |
| PlayRoutes.EmptyEditKeepsPlay | routes/playRoutes.js:265-293 | an empty body without uploads keeps the play |
| PlayRoutes.EditIdempotent | routes/playRoutes.js:265-293 | the same edit twice equals it once |
| PlayRoutes.UpdatePlay | routes/playRoutes.js:241-301 | auth, upload, lookup and ownership failures change nothing; the author or an account from 4 up edits; a failed cast is a 500 |
| PlayRoutes.AssignTexts | routes/playRoutes.js:265-275 | the step-by-step text assignments equal `EditedTexts` |
| PlayRoutes.AssignNumbers | routes/playRoutes.js:266-271 | the step-by-step number assignments equal `EditedNumbers`, and flag exactly the casts that fail |
| PlayRoutes.AssignFiles | routes/playRoutes.js:277-293 | the step-by-step file assignments equal `EditedFiles` |
| PlayRoutes.SampleOf | routes/playRoutes.js:304-322 | a play without script text is a 404; otherwise its name, type and the bytes whose encoding is stored (the stored text is canonical, by `FilesEncoded`) |
| PlayRoutes.GetSample | routes/playRoutes.js:304-322 | after `protect`, a missing play is a 404, and otherwise it returns `SampleOf` the play |
| PlayRoutes.UploadDownloadRoundTrip | routes/playRoutes.js:188-197 | a non-empty uploaded script downloads as the same name, type and bytes |
| PlayRoutes.EmptyUploadHasNoSample | routes/playRoutes.js:310-312 | an empty uploaded script is stored but its sample is a 404 |
| PlayController.GetPlayById | controllers/playController.js:6-22 | a stored play is returned formatted; an unknown id gives 404 |
| PlayController.GetPlays | controllers/playController.js:25-114 | succeeds exactly when the filter casts and the skip is not negative, with the page of `PageOf` newest first (the window at `skip` of the sorted matches), the total and the page count |
| PlayController.GenerateEditToken | controllers/playController.js:117-140 | an unknown play is 404 and an authorless one 500; the author or an account of exactly 4 gets a 15-minute token for that play, anyone else 403 |
| PlayController.TokenCheck | controllers/playController.js:148-161 | no header is 401; it passes exactly for a verified token naming this play, else the wrong-play 403 or a 401 |
| PlayController.OwnerCheck | controllers/playController.js:166-169 | passes exactly for the token's user as author or an account of 4; an authorless play is a 500, otherwise a 403 |
| PlayController.EditTokenScope | controllers/playController.js:129-169 | an edit token opens its own play until it expires and then gives 401, and never opens another play |
| PlayController.SessionTokenCannotEdit | controllers/playController.js:159-161 | a sign-in token names no play and never passes the edit check |
| PlayController.EditedByToken | controllers/playController.js:172-179 | title, genre, funding and abstract replace when truthy, duration and acts when truthy, males and females whenever present (so 0 and null are stored); nothing else changes |
| PlayController.ZeroCountsDiffer | controllers/playController.js:172-179 | a body of zeros clears neither duration nor acts but sets males and females to 0 |
| PlayController.UpdatePlay | controllers/playController.js:143-187 | token, lookup and ownership failures change nothing; a failed cast is a 500; otherwise exactly that play becomes `EditedByToken` |
| PlayController.AssignEdits | controllers/playController.js:172-179 | the step-by-step assignments equal `EditedByToken` and flag exactly the casts that fail |
| PlayController.AssignCounts | controllers/playController.js:174-177 | each count is replaced under its own presence rule, and nothing else changes |

## Left out

- The free-text search is not modelled. The search builds regular
  expressions from raw input, so the plays it matches are a parameter
  (`searchHits`). An invalid pattern, which throws into the 500, is not
  modelled.
- `page` and `limit` arrive already parsed. The `parseInt` of their text,
  and NaN from text that is not a number, are not modelled. (The numeric
  filters and form fields are modelled with their failing casts.)
- Numbers are integers. A fractional number such as `Number("1.5")` has no
  representation, and neither has a JSON boolean (which Mongoose casts to
  1 or 0 in a number field).
- A request without `email` is modelled as one with a given address. The
  query `findOne({ email: undefined })`, which matches any user, is not
  captured by signup, login or forgot-password.
- UserController.ControllerFields: a non-string `schoolName`, which
  Mongoose casts to text or refuses, is not modelled; the school name is a
  string or missing.
- AuthRoutes.SignupRecord: a `null` or `""` contact is stored as 0, the
  schema default, where Mongoose stores `null`, because a user's contact is
  an integer here.
- Ties in the sort order are broken arbitrarily: PlayListing.PageOf states
  some ordering of the matches, not the particular ordering MongoDB uses
  under `skip` and `limit`.
- bcrypt's key bytes follow the `$2a$`/`$2b$` form: UTF-8, a zero
  terminator, repetition to 72 bytes. Salt rounds and the hash text are not
  modelled.
- Cookies beyond the token name, `SameSite` and max age are not modelled:
  `httpOnly`, `secure` and the contents of the JSON bodies. `POST /logout`
  only clears the cookie and is not modelled.
- A malformed ObjectId in a path, which makes `findById` throw, is not
  modelled: ids are natural numbers. Database failures (the 500 catch
  blocks of the read-only GET handlers) are not modelled either.
- `getUserProfile` and `getUserById` of the user controller do the same
  lookup as the user routes' GET handlers. They are not modelled apart from
  `UserRoutes.FindUser`.
- Multer's temporary files on disk are not modelled. The upload's bytes are
  part of the request.
- Console logging, the Express app setup and the database connection are
  not modelled.
- bcrypt and JWT are abstract. No cryptography is modelled beyond bcrypt's
  key bytes, and neither are the genuine-but-foreign tokens of another
  secret.
- Gmail and SendGrid acceptance is one flag per mailer, not per message.
  Concurrent requests are not modelled: every handler runs alone.
- `totalPages` for a zero limit is NaN or Infinity. It is kept as such
  values and not rendered as JSON `null`.
- `models/Play.js` lists only title, author and year. The play record
  follows the fields the routes and the controller use. `createdAt` is the
  request time.
- PlayRoutes.CreatePlay: a failed save's reply is stated by status only,
  because its message is Mongoose's validation text.
- PlayRoutes.UpdatePlay: a failed save's reply is stated by status only,
  because its message is Mongoose's validation text.
