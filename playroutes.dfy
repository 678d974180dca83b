/** routes/playRoutes.js: the filtered, searched and paginated listing, play
    creation with a cover image and a script file, a single play, the owner's
    or an admin's edit, and the script download. Uploaded files go through
    multer's `fields` strategy (one `coverImage`, one `playFile`) and the
    route's `fileFilter`; the bytes are what the handlers read back from
    multer's temporary file. */
module PlayRoutes {
  import opened Wrappers
  import opened Text
  import opened UserModel
  import opened PlayModel
  import opened Store
  import opened Tokens
  import opened AuthMiddleware
  import opened Uploads
  import opened PlayListing
  import Base64
  import DataUrl

  const ServerErrorMessage := "Server error"
  const CoverTypeMessage := "Only JPG, JPEG, PNG images are allowed for cover image"
  const ScriptTypeMessage := "Only PDF or DOCX files are allowed for play preview"
  const InvalidFileTypeMessage := "Invalid file type"
  const CreatedMessage := "Play created successfully"
  const NotFoundMessage := "Play not found"
  const NotAuthorizedMessage := "Not authorized to edit this play"
  const UpdatedMessage := "Play updated successfully"
  const NoSampleMessage := "No available play sample"
  /** The start of the message of Mongoose's validation error when a cast fails. */
  const ValidationFailedMessage := "Play validation failed"

  const ImageTypes := ["image/jpeg", "image/png", "image/jpg"]
  const DocumentTypes := ["application/pdf", "application/vnd.openxmlformats-officedocument.wordprocessingml.document"]
  const CoverField := "coverImage"
  const ScriptField := "playFile"

  /** `upload.fields`: one file under each of the two names. */
  const PlayFields := map[CoverField := 1, ScriptField := 1]

  /** The account codes `allowRoles(3, 4)` admits to play creation. */
  const CreatorRoles := [UnlockedPlaywright, Admin]

  // ---------------------------------------------------------------------
  // Uploads

  /** The route's `fileFilter`: images for the cover, PDF or DOCX for the
      script, and any other field refused. */
  function FileFilter(u: Upload): (r: Option<string>)
    ensures u.fieldname == CoverField ==> (r.None? <==> u.mimetype in ImageTypes)
    ensures u.fieldname == ScriptField ==> (r.None? <==> u.mimetype in DocumentTypes)
    ensures r.Some? ==> r.value == (if u.fieldname == CoverField then CoverTypeMessage
                                    else if u.fieldname == ScriptField then ScriptTypeMessage
                                    else InvalidFileTypeMessage)
  {
    if u.fieldname == CoverField then (if u.mimetype in ImageTypes then None else Some(CoverTypeMessage))
    else if u.fieldname == ScriptField then (if u.mimetype in DocumentTypes then None else Some(ScriptTypeMessage))
    else Some(InvalidFileTypeMessage)
  }

  /** `uploadFields`: the files pass, or the message of the error that ends
      the request (no size limit is set). */
  function ReceivePlayFiles(files: seq<Upload>): (r: Result<(), string>)
    ensures r.Ok? ==> forall i :: 0 <= i < |files| ==>
                        (files[i].fieldname == CoverField && files[i].mimetype in ImageTypes)
                        || (files[i].fieldname == ScriptField && files[i].mimetype in DocumentTypes)
    ensures r.Ok? ==> Count(files, CoverField) <= 1 && Count(files, ScriptField) <= 1
    ensures r.Err? ==> r.error in {UnexpectedFieldMessage, CoverTypeMessage, ScriptTypeMessage}
  {
    var r := Receive(files, PlayFields, FileFilter, None);
    assert r.Err? && r.error != UnexpectedFieldMessage ==> r.error in {CoverTypeMessage, ScriptTypeMessage} by {
      if r.Err? && r.error != UnexpectedFieldMessage {
        var i :| 0 <= i < |files| && files[i].fieldname in PlayFields && FileFilter(files[i]) == Some(r.error);
      }
    }
    assert r.Ok? ==> Count(files, CoverField) <= PlayFields[CoverField];
    r
  }

  /** The filter's last branch is never reached: multer refuses a file under
      any other name as an unexpected field before the filter runs. */
  lemma InvalidFileTypeNeverReported(files: seq<Upload>)
    ensures ReceivePlayFiles(files) != Err(InvalidFileTypeMessage)
  {
  }

  /** The script as stored: its name, its type and its bytes as standard base64. */
  function Attach(u: Upload): (a: Attachment)
    ensures a.FileData? && a.filename == u.originalname && a.mimetype == u.mimetype
    ensures Base64.Decode(Base64.Standard, a.data) == Some(u.bytes)
  {
    Base64.DecodeEncode(Base64.Standard, u.bytes);
    FileData(u.originalname, u.mimetype, Base64.Encode(Base64.Standard, u.bytes))
  }

  /** The cover image and script a request uploads, if any. */
  function CoverOf(files: seq<Upload>): (r: Option<string>)
    ensures r.Some? <==> Count(files, CoverField) > 0
    ensures r.Some? ==> exists u :: u in files && u.fieldname == CoverField && r.value == DataUrl.Make(u.mimetype, u.bytes)
  {
    match FirstOf(files, CoverField)
    case None => None
    case Some(u) => Some(DataUrl.Make(u.mimetype, u.bytes))
  }

  function ScriptOf(files: seq<Upload>): (r: Option<Attachment>)
    ensures r.Some? <==> Count(files, ScriptField) > 0
    ensures r.Some? ==> r.value.FileData? && Base64.Decode(Base64.Standard, r.value.data).Some?
    ensures r.Some? ==> exists u :: u in files && u.fieldname == ScriptField && r.value == Attach(u)
  {
    match FirstOf(files, ScriptField)
    case None => None
    case Some(u) => Some(Attach(u))
  }

  // ---------------------------------------------------------------------
  // GET /

  const DefaultPage := 1
  const DefaultLimit := 10

  datatype Listing = Listing(
    plays: seq<Listed>,
    totalResults: nat,
    totalPages: Pages,
    currentPage: int,
    hasNextPage: bool,
    hasPrevPage: bool)

  /** The listing sorted by title. `ids` is the collection's natural order,
      `searchHits` the plays whose title, abstract or author the search
      pattern matches, `page` and `limit` the parsed parameters. */
  method ListPlays(db: Db, ids: seq<Id>, q: Query, searchHits: set<Id>, page: Option<int>, limit: Option<int>)
    returns (r: Result<Listing, Reply>)
    requires Enumerates(ids, db.plays)
    ensures !Castable(FilterOf(q)) ==> r == Err(Reply(500, ServerErrorMessage))
    ensures r.Err? ==> r.error == Reply(500, ServerErrorMessage)
    ensures Castable(FilterOf(q)) ==>
              var pageNum, n := page.GetOr(DefaultPage), limit.GetOr(DefaultLimit);
              var hits := SearchHits(q.search, searchHits);
              var total := |Select(ids, db.plays, FilterOf(q), hits)|;
              if (pageNum - 1) * n < 0 then r.Err?
              else r == Ok(Listing(PageOf(db.users, ids, db.plays, FilterOf(q), hits, ByTitle, (pageNum - 1) * n, n),
                                   total, TotalPages(total, n), pageNum, HasNextPage(pageNum, TotalPages(total, n)),
                                   pageNum > 1))
  {
    var filters := BuildFilters(q);
    if !Castable(filters) {
      // the cast of a date or a number fails when the query runs
      return Err(Reply(500, ServerErrorMessage));
    }
    var hits := SearchHits(q.search, searchHits);
    var matches := Select(ids, db.plays, filters, hits);
    var totalResults := |matches|;
    var pageNum := page.GetOr(DefaultPage);
    var n := limit.GetOr(DefaultLimit);
    var totalPages := TotalPages(totalResults, n);
    var skip := (pageNum - 1) * n;
    if skip < 0 {
      // MongoDB refuses a negative skip
      return Err(Reply(500, ServerErrorMessage));
    }
    var plays := PageOf(db.users, ids, db.plays, filters, hits, ByTitle, skip, n);
    r := Ok(Listing(plays, totalResults, totalPages, pageNum, HasNextPage(pageNum, totalPages), pageNum > 1));
  }

  // ---------------------------------------------------------------------
  // POST / and PUT /:id

  /** The body fields both handlers read, with what `Number` or `new Date`
      makes of the numeric and date ones. */
  datatype PlayForm = PlayForm(
    title: Option<string>,
    publicationDate: Option<Coerced>,
    acts: Option<Coerced>,
    duration: Option<Coerced>,
    total: Option<Coerced>,
    males: Option<Coerced>,
    females: Option<Coerced>,
    funding: Option<string>,
    abstractText: Option<string>,
    genre: Option<string>,
    organizationType: Option<string>)

  /** Every supplied number and date is valid; otherwise the save fails its cast. */
  predicate FormCastable(f: PlayForm) {
    (Given(f.publicationDate) ==> f.publicationDate.value.value.Some?)
    && (Given(f.acts) ==> f.acts.value.value.Some?)
    && (Given(f.duration) ==> f.duration.value.value.Some?)
    && (Given(f.total) ==> f.total.value.value.Some?)
    && (Given(f.males) ==> f.males.value.value.Some?)
    && (Given(f.females) ==> f.females.value.value.Some?)
  }

  /** `x ? Number(x) : undefined`. */
  function NumberOf(c: Option<Coerced>): (r: Option<int>)
    ensures !Given(c) ==> r.None?
    ensures Given(c) ==> r == c.value.value
  {
    if Given(c) then c.value.value else None
  }

  /** The play a creation request saves, or `None` when the save fails. */
  function NewPlay(f: PlayForm, author: Id, nowMs: nat, files: seq<Upload>): (r: Option<Play>)
    ensures r.Some? <==> FormCastable(f)
    ensures r.Some? ==>
              r.value.author == Some(author) && r.value.submissionDate == Some(nowMs) && r.value.createdAt == nowMs
              && r.value.title == f.title && r.value.funding == f.funding && r.value.abstractText == f.abstractText
              && r.value.genre == f.genre && r.value.organizationType == f.organizationType
              && r.value.publicationDate == NumberOf(f.publicationDate) && r.value.acts == NumberOf(f.acts)
              && r.value.duration == NumberOf(f.duration) && r.value.total == NumberOf(f.total)
              && r.value.males == NumberOf(f.males) && r.value.females == NumberOf(f.females)
              && r.value.coverImage == CoverOf(files).GetOr("")
              && r.value.playFile == ScriptOf(files).GetOr(NoFile)
  {
    if !FormCastable(f) then None
    else Some(Play(f.title, Some(author), NumberOf(f.publicationDate), Some(nowMs), NumberOf(f.acts),
                   NumberOf(f.duration), NumberOf(f.total), NumberOf(f.males), NumberOf(f.females),
                   f.funding, f.abstractText, f.genre, f.organizationType,
                   CoverOf(files).GetOr(""), ScriptOf(files).GetOr(NoFile), nowMs))
  }

  /** POST /: `protect`, `allowRoles(3, 4)`, the uploads, then the save under
      a new id. The message of a failed save is Mongoose's. */
  method CreatePlay(db: Db, token: Option<Jwt>, nowMs: nat, lookupFails: bool, files: seq<Upload>,
                    form: PlayForm, freshId: Id)
    returns (reply: Reply)
    requires db.Valid() && freshId !in db.plays
    modifies db
    ensures db.Valid() && db.users == old(db.users)
    ensures reply.status != 201 ==> db.plays == old(db.plays)
    ensures old(Gate(db, token, nowMs, lookupFails, CreatorRoles)).Err? ==>
              reply == old(Gate(db, token, nowMs, lookupFails, CreatorRoles)).error
    ensures old(Gate(db, token, nowMs, lookupFails, CreatorRoles)).Ok? ==>
              var author := old(Gate(db, token, nowMs, lookupFails, CreatorRoles)).value;
              if ReceivePlayFiles(files).Err? then reply == Reply(500, ReceivePlayFiles(files).error)
              else if !FormCastable(form) then reply.status == 500
              else reply == Reply(201, CreatedMessage)
                   && db.plays == old(db.plays)[freshId := NewPlay(form, author, nowMs, files).value]
  {
    var gate := Gate(db, token, nowMs, lookupFails, CreatorRoles);
    if gate.Err? {
      return gate.error;
    }
    var received := ReceivePlayFiles(files);
    if received.Err? {
      return Reply(500, received.error);
    }
    var cover := "";
    var coverUpload := FirstOf(files, CoverField);
    if coverUpload.Some? {
      cover := DataUrl.Make(coverUpload.value.mimetype, coverUpload.value.bytes);
    }
    var script := NoFile;
    var scriptUpload := FirstOf(files, ScriptField);
    if scriptUpload.Some? {
      script := Attach(scriptUpload.value);
    }
    var play := NewPlay(form, gate.value, nowMs, files);
    if play.None? {
      return Reply(500, ValidationFailedMessage);
    }
    assert play.value.coverImage == cover && play.value.playFile == script;
    db.plays := db.plays[freshId := play.value];
    reply := Reply(201, CreatedMessage);
  }

  /** GET /:id: the play with its author populated to id and names only. */
  function GetPlay(db: Db, token: Option<Jwt>, nowMs: nat, lookupFails: bool, id: Id)
    : (r: Result<(Play, Option<AuthorRef>), Reply>)
    reads db
    ensures Protect(db, token, nowMs, lookupFails).Err? ==> r == Err(Protect(db, token, nowMs, lookupFails).error)
    ensures Protect(db, token, nowMs, lookupFails).Ok? ==>
              (r.Ok? <==> id in db.plays)
              && (r.Err? ==> r.error == Reply(404, NotFoundMessage))
              && (r.Ok? ==> r.value == (db.plays[id], Populate(db.users, db.plays[id])))
              && (r.Ok? && r.value.1.Some? ==>
                    var a := db.plays[id].author.value;
                    a in db.users && r.value.1.value == AuthorRef(a, db.users[a].firstName, db.users[a].lastName))
  {
    match Protect(db, token, nowMs, lookupFails)
    case Err(e) => Err(e)
    case Ok(_) =>
      if id !in db.plays then Err(Reply(404, NotFoundMessage))
      else Ok((db.plays[id], Populate(db.users, db.plays[id])))
  }

  /** The ownership check of PUT /:id: the author, or any account from 4 up. */
  predicate MayEdit(caller: Id, u: User, p: Play) {
    p.author == Some(caller) || u.account >= Admin
  }

  /** Lines 265-275, the text fields: each replaced when the body's value is non-empty. */
  function EditedTexts(p: Play, f: PlayForm): (r: Play)
    ensures r == p.(title := r.title, funding := r.funding, abstractText := r.abstractText,
                    genre := r.genre, organizationType := r.organizationType)
    ensures r.title == (if Truthy(f.title) then f.title else p.title)
    ensures r.funding == (if Truthy(f.funding) then f.funding else p.funding)
    ensures r.abstractText == (if Truthy(f.abstractText) then f.abstractText else p.abstractText)
    ensures r.genre == (if Truthy(f.genre) then f.genre else p.genre)
    ensures r.organizationType == (if Truthy(f.organizationType) then f.organizationType else p.organizationType)
  {
    p.(title := if Truthy(f.title) then f.title else p.title,
       funding := if Truthy(f.funding) then f.funding else p.funding,
       abstractText := if Truthy(f.abstractText) then f.abstractText else p.abstractText,
       genre := if Truthy(f.genre) then f.genre else p.genre,
       organizationType := if Truthy(f.organizationType) then f.organizationType else p.organizationType)
  }

  /** Lines 266-271, the numbers and the date: each replaced when supplied. */
  function EditedNumbers(p: Play, f: PlayForm): (r: Play)
    ensures r == p.(publicationDate := r.publicationDate, acts := r.acts, duration := r.duration,
                    total := r.total, males := r.males, females := r.females)
    ensures r.publicationDate == (if Given(f.publicationDate) then NumberOf(f.publicationDate) else p.publicationDate)
    ensures r.acts == (if Given(f.acts) then NumberOf(f.acts) else p.acts)
    ensures r.duration == (if Given(f.duration) then NumberOf(f.duration) else p.duration)
    ensures r.total == (if Given(f.total) then NumberOf(f.total) else p.total)
    ensures r.males == (if Given(f.males) then NumberOf(f.males) else p.males)
    ensures r.females == (if Given(f.females) then NumberOf(f.females) else p.females)
  {
    p.(publicationDate := if Given(f.publicationDate) then NumberOf(f.publicationDate) else p.publicationDate,
       acts := if Given(f.acts) then NumberOf(f.acts) else p.acts,
       duration := if Given(f.duration) then NumberOf(f.duration) else p.duration,
       total := if Given(f.total) then NumberOf(f.total) else p.total,
       males := if Given(f.males) then NumberOf(f.males) else p.males,
       females := if Given(f.females) then NumberOf(f.females) else p.females)
  }

  /** Lines 277-293, the uploads: each replaces the stored file when sent. */
  function EditedFiles(p: Play, files: seq<Upload>): (r: Play)
    ensures r == p.(coverImage := r.coverImage, playFile := r.playFile)
    ensures r.coverImage == CoverOf(files).GetOr(p.coverImage)
    ensures r.playFile == ScriptOf(files).GetOr(p.playFile)
  {
    p.(coverImage := CoverOf(files).GetOr(p.coverImage), playFile := ScriptOf(files).GetOr(p.playFile))
  }

  /** The edited play, or `None` when the save fails its cast. */
  function EditedPlay(p: Play, f: PlayForm, files: seq<Upload>): (r: Option<Play>)
    ensures r.Some? <==> FormCastable(f)
    ensures r.Some? ==>
              r.value.author == p.author && r.value.submissionDate == p.submissionDate
              && r.value.createdAt == p.createdAt
    ensures r.Some? ==> r.value.playFile == ScriptOf(files).GetOr(p.playFile)
  {
    if FormCastable(f) then Some(EditedFiles(EditedNumbers(EditedTexts(p, f), f), files)) else None
  }

  /** A body without values and no uploads leave the play as it is. */
  lemma EmptyEditKeepsPlay(p: Play)
    ensures EditedPlay(p, PlayForm(None, None, None, None, None, None, None, None, None, None, None), []) == Some(p)
  {
  }

  /** Sending the same edit twice stores the same play as sending it once. */
  lemma EditIdempotent(p: Play, f: PlayForm, files: seq<Upload>)
    requires FormCastable(f)
    ensures EditedPlay(EditedPlay(p, f, files).value, f, files) == EditedPlay(p, f, files)
  {
  }

  /** PUT /:id: `protect`, the uploads, the lookup, the ownership check, the
      assignments and the save. */
  method UpdatePlay(db: Db, token: Option<Jwt>, nowMs: nat, lookupFails: bool, id: Id,
                    files: seq<Upload>, form: PlayForm)
    returns (reply: Reply)
    requires db.Valid()
    modifies db
    ensures db.Valid() && db.users == old(db.users)
    ensures reply.status != 200 ==> db.plays == old(db.plays)
    ensures old(Protect(db, token, nowMs, lookupFails)).Err? ==>
              reply == old(Protect(db, token, nowMs, lookupFails)).error
    ensures old(Protect(db, token, nowMs, lookupFails)).Ok? ==>
              var caller := old(Protect(db, token, nowMs, lookupFails)).value;
              if ReceivePlayFiles(files).Err? then reply == Reply(500, ReceivePlayFiles(files).error)
              else if id !in old(db.plays) then reply == Reply(404, NotFoundMessage)
              else if !MayEdit(caller, old(db.users)[caller], old(db.plays)[id]) then reply == Reply(403, NotAuthorizedMessage)
              else if !FormCastable(form) then reply.status == 500
              else reply == Reply(200, UpdatedMessage)
                   && db.plays == old(db.plays)[id := EditedPlay(old(db.plays)[id], form, files).value]
  {
    var auth := Protect(db, token, nowMs, lookupFails);
    if auth.Err? {
      return auth.error;
    }
    var received := ReceivePlayFiles(files);
    if received.Err? {
      return Reply(500, received.error);
    }
    if id !in db.plays {
      return Reply(404, NotFoundMessage);
    }
    var caller := auth.value;
    var play := db.plays[id];
    if Some(caller) != play.author && db.users[caller].account < Admin {
      return Reply(403, NotAuthorizedMessage);
    }
    play := AssignTexts(play, form);
    var castFails;
    play, castFails := AssignNumbers(play, form);
    play := AssignFiles(play, files);
    if castFails {
      return Reply(500, ValidationFailedMessage);
    }
    assert play == EditedPlay(db.plays[id], form, files).value;
    db.plays := db.plays[id := play];
    reply := Reply(200, UpdatedMessage);
  }

  method AssignTexts(p: Play, f: PlayForm) returns (play: Play)
    ensures play == EditedTexts(p, f)
  {
    play := p;
    if Truthy(f.title) { play := play.(title := f.title); }
    if Truthy(f.funding) { play := play.(funding := f.funding); }
    if Truthy(f.abstractText) { play := play.(abstractText := f.abstractText); }
    if Truthy(f.genre) { play := play.(genre := f.genre); }
    if Truthy(f.organizationType) { play := play.(organizationType := f.organizationType); }
  }

  /** `castFails` records an Invalid Date or a NaN assigned to a field. */
  method AssignNumbers(p: Play, f: PlayForm) returns (play: Play, castFails: bool)
    ensures castFails <==> !FormCastable(f)
    ensures play == EditedNumbers(p, f)
  {
    play := p;
    if Given(f.publicationDate) { play := play.(publicationDate := NumberOf(f.publicationDate)); }
    if Given(f.acts) { play := play.(acts := NumberOf(f.acts)); }
    if Given(f.duration) { play := play.(duration := NumberOf(f.duration)); }
    if Given(f.total) { play := play.(total := NumberOf(f.total)); }
    if Given(f.males) { play := play.(males := NumberOf(f.males)); }
    if Given(f.females) { play := play.(females := NumberOf(f.females)); }
    castFails := !FormCastable(f);
  }

  method AssignFiles(p: Play, files: seq<Upload>) returns (play: Play)
    ensures play == EditedFiles(p, files)
  {
    play := p;
    var cover := FirstOf(files, CoverField);
    if cover.Some? {
      play := play.(coverImage := DataUrl.Make(cover.value.mimetype, cover.value.bytes));
    }
    var script := FirstOf(files, ScriptField);
    if script.Some? {
      play := play.(playFile := Attach(script.value));
    }
  }

  // ---------------------------------------------------------------------
  // GET /sample/:id

  /** The download: the stored name and type, and the decoded bytes. */
  datatype Sample = Sample(filename: string, mimetype: string, bytes: seq<Base64.byte>)

  /** The sample of a stored play, or 404 when it has no script text. */
  function SampleOf(p: Play): (r: Result<Sample, Reply>)
    requires p.playFile.FileData? ==> Base64.Decode(Base64.Standard, p.playFile.data).Some?
    ensures r.Err? <==> p.playFile.NoFile? || p.playFile.data == ""
    ensures r.Err? ==> r.error == Reply(404, NoSampleMessage)
    ensures r.Ok? ==>
              r.value.filename == p.playFile.filename && r.value.mimetype == p.playFile.mimetype
              && Base64.Encode(Base64.Standard, r.value.bytes) == p.playFile.data
  {
    if p.playFile.NoFile? || p.playFile.data == "" then Err(Reply(404, NoSampleMessage))
    else
      var bytes := Base64.Decode(Base64.Standard, p.playFile.data).value;
      Base64.DecodeIffEncode(Base64.Standard, p.playFile.data, bytes);
      Ok(Sample(p.playFile.filename, p.playFile.mimetype, bytes))
  }

  /** GET /sample/:id. */
  function GetSample(db: Db, token: Option<Jwt>, nowMs: nat, lookupFails: bool, id: Id): (r: Result<Sample, Reply>)
    reads db
    requires db.Valid()
    ensures Protect(db, token, nowMs, lookupFails).Err? ==> r == Err(Protect(db, token, nowMs, lookupFails).error)
    ensures Protect(db, token, nowMs, lookupFails).Ok? && id !in db.plays ==> r == Err(Reply(404, NotFoundMessage))
    ensures Protect(db, token, nowMs, lookupFails).Ok? && id in db.plays ==> r == SampleOf(db.plays[id])
  {
    match Protect(db, token, nowMs, lookupFails)
    case Err(e) => Err(e)
    case Ok(_) => if id !in db.plays then Err(Reply(404, NotFoundMessage)) else SampleOf(db.plays[id])
  }

  /** A non-empty script uploaded with a play downloads as the same name,
      type and bytes. */
  lemma UploadDownloadRoundTrip(p: Play, u: Upload)
    requires |u.bytes| > 0
    ensures SampleOf(p.(playFile := Attach(u))) == Ok(Sample(u.originalname, u.mimetype, u.bytes))
  {
    var a := Attach(u);
    assert |a.data| >= 4;
    Base64.DecodeIffEncode(Base64.Standard, a.data, u.bytes);
  }

  /** An empty script is stored but never downloadable. */
  lemma EmptyUploadHasNoSample(p: Play, u: Upload)
    requires |u.bytes| == 0
    ensures SampleOf(p.(playFile := Attach(u))) == Err(Reply(404, NoSampleMessage))
  {
  }
}
