/** controllers/playController.js: a play by id, the listing sorted newest
    first, and the edit flow that trades a signed-in owner's or admin's
    request for a short-lived token naming one play, then accepts an edit of
    that play with the token in the `Authorization` header. */
module PlayController {
  import opened Wrappers
  import opened Text
  import opened UserModel
  import opened PlayModel
  import opened Store
  import opened Tokens
  import opened PlayListing

  const ServerErrorMessage := "Server error"
  const NotFoundMessage := "Play not found"
  const NotAuthorizedMessage := "Not authorized to edit this play"
  const MissingTokenMessage := "Missing token"
  const BadTokenMessage := "Invalid or expired token"
  const WrongPlayMessage := "Token does not match this play"
  const UpdatedMessage := "Play updated successfully"

  const DefaultPage := 1
  const DefaultLimit := 10

  /** `getPlayById`: the formatted play. */
  function GetPlayById(db: Db, id: Id): (r: Result<Listed, Reply>)
    reads db
    ensures r.Ok? <==> id in db.plays
    ensures r.Err? ==> r.error == Reply(404, NotFoundMessage)
    ensures r.Ok? ==> r.value.id == id && r.value.play == db.plays[id]
    ensures r.Ok? ==> r.value == Format(db.users, id, db.plays[id])
  {
    if id !in db.plays then Err(Reply(404, NotFoundMessage)) else Ok(Format(db.users, id, db.plays[id]))
  }

  /** The reply of `getPlays`. */
  datatype PlaysPage = PlaysPage(plays: seq<Listed>, totalResults: nat, totalPages: Pages, page: int)

  /** `getPlays`: the same filters as the route's listing, the search on first
      or last name (given as `searchHits`), newest first. */
  method GetPlays(db: Db, ids: seq<Id>, q: Query, searchHits: set<Id>, page: Option<int>, limit: Option<int>)
    returns (r: Result<PlaysPage, Reply>)
    requires Enumerates(ids, db.plays)
    ensures r.Err? ==> r.error == Reply(500, ServerErrorMessage)
    ensures r.Ok? <==> Castable(FilterOf(q)) && (page.GetOr(DefaultPage) - 1) * limit.GetOr(DefaultLimit) >= 0
    ensures r.Ok? ==>
              var pageNum, n := page.GetOr(DefaultPage), limit.GetOr(DefaultLimit);
              var hits := SearchHits(q.search, searchHits);
              var total := |Select(ids, db.plays, FilterOf(q), hits)|;
              r.value == PlaysPage(PageOf(db.users, ids, db.plays, FilterOf(q), hits, ByNewest, (pageNum - 1) * n, n),
                                   total, TotalPages(total, n), pageNum)
  {
    var filters := BuildFilters(q);
    if !Castable(filters) {
      return Err(Reply(500, ServerErrorMessage));
    }
    var hits := SearchHits(q.search, searchHits);
    var matches := Select(ids, db.plays, filters, hits);
    var totalResults := |matches|;
    var pageNum := page.GetOr(DefaultPage);
    var n := limit.GetOr(DefaultLimit);
    var skip := (pageNum - 1) * n;
    if skip < 0 {
      return Err(Reply(500, ServerErrorMessage));
    }
    var plays := PageOf(db.users, ids, db.plays, filters, hits, ByNewest, skip, n);
    r := Ok(PlaysPage(plays, totalResults, TotalPages(totalResults, n), pageNum));
  }

  /** The claims of an edit token: who asked, their account code, and the play. */
  function EditClaims(callerId: Id, account: int, playId: Id): Claims {
    Claims(None, Some(callerId), Some(account), Some(playId))
  }

  /** `generateEditToken` for the signed-in user `callerId`: the author of the
      play, or an account of exactly 4, gets a token for that play valid for 15
      minutes. A play without an author ends in a 500 (`play.author` is null). */
  function GenerateEditToken(db: Db, callerId: Id, playId: Id, nowMs: nat): (r: Result<Jwt, Reply>)
    reads db
    requires callerId in db.users
    ensures playId !in db.plays ==> r == Err(Reply(404, NotFoundMessage))
    ensures playId in db.plays && db.plays[playId].author.None? ==> r == Err(Reply(500, ServerErrorMessage))
    ensures r.Ok? <==>
              playId in db.plays && db.plays[playId].author.Some?
              && (db.plays[playId].author == Some(callerId) || db.users[callerId].account == Admin)
    ensures r.Ok? ==>
              r.value == Sign(EditClaims(callerId, db.users[callerId].account, playId), nowMs, EditLifetime)
    ensures r.Err? && playId in db.plays && db.plays[playId].author.Some? ==> r.error == Reply(403, NotAuthorizedMessage)
  {
    if playId !in db.plays then Err(Reply(404, NotFoundMessage))
    else
      var play := db.plays[playId];
      if play.author.None? then Err(Reply(500, ServerErrorMessage))
      else if play.author.value != callerId && db.users[callerId].account != Admin then Err(Reply(403, NotAuthorizedMessage))
      else Ok(Sign(EditClaims(callerId, db.users[callerId].account, playId), nowMs, EditLifetime))
  }

  /** The `Authorization` header: absent, or present with the word after the
      space (`None` when there is none). */
  datatype AuthHeader = NoHeader | Header(token: Option<Jwt>)

  /** Lines 148-161: the header holds a valid token issued for this play. */
  function TokenCheck(header: AuthHeader, playId: Id, nowMs: nat): (r: Result<Claims, Reply>)
    ensures header.NoHeader? ==> r == Err(Reply(401, MissingTokenMessage))
    ensures r.Ok? <==>
              header.Header? && header.token.Some? && Verify(header.token.value, nowMs).Ok?
              && header.token.value.claims.playId == Some(playId)
    ensures r.Ok? ==> r.value == header.token.value.claims
    ensures r.Err? ==>
              r.error == Reply(401, MissingTokenMessage) || r.error == Reply(401, BadTokenMessage)
              || r.error == Reply(403, WrongPlayMessage)
    ensures r == Err(Reply(403, WrongPlayMessage)) <==>
              header.Header? && header.token.Some? && Verify(header.token.value, nowMs).Ok?
              && header.token.value.claims.playId != Some(playId)
  {
    match header
    case NoHeader => Err(Reply(401, MissingTokenMessage))
    case Header(token) =>
      if token.None? then Err(Reply(401, BadTokenMessage))
      else
        match Verify(token.value, nowMs)
        case Err(_) => Err(Reply(401, BadTokenMessage))
        case Ok(decoded) =>
          if decoded.playId != Some(playId) then Err(Reply(403, WrongPlayMessage)) else Ok(decoded)
  }

  /** Lines 166-169: the token's user is the play's author, or its account
      code is 4. A play without an author ends in a 500. */
  function OwnerCheck(claims: Claims, p: Play): (r: Result<(), Reply>)
    ensures p.author.None? ==> r == Err(Reply(500, ServerErrorMessage))
    ensures r.Ok? <==> p.author.Some? && (claims.userId == p.author || claims.account == Some(Admin))
    ensures r.Err? && p.author.Some? ==> r == Err(Reply(403, NotAuthorizedMessage))
  {
    if p.author.None? then Err(Reply(500, ServerErrorMessage))
    else if claims.userId != p.author && claims.account != Some(Admin) then Err(Reply(403, NotAuthorizedMessage))
    else Ok(())
  }

  /** An edit token opens exactly its own play, and only for 15 minutes: with
      it, an edit of that play passes both checks until the token expires and
      then gets a 401, and an edit of any other play gets a 403. */
  lemma EditTokenScope(db: Db, callerId: Id, playId: Id, otherId: Id, issuedMs: nat, nowMs: nat)
    requires callerId in db.users
    requires GenerateEditToken(db, callerId, playId, issuedMs).Ok?
    requires otherId != playId
    ensures var t := GenerateEditToken(db, callerId, playId, issuedMs).value;
            (nowMs / 1000 < issuedMs / 1000 + EditLifetime ==>
               TokenCheck(Header(Some(t)), playId, nowMs) == Ok(t.claims)
               && OwnerCheck(t.claims, db.plays[playId]) == Ok(())
               && TokenCheck(Header(Some(t)), otherId, nowMs) == Err(Reply(403, WrongPlayMessage)))
            && (nowMs / 1000 >= issuedMs / 1000 + EditLifetime ==>
                  TokenCheck(Header(Some(t)), playId, nowMs) == Err(Reply(401, BadTokenMessage)))
  {
    var t := GenerateEditToken(db, callerId, playId, issuedMs).value;
    SignThenVerify(t.claims, issuedMs, EditLifetime, nowMs);
  }

  /** A sign-in token names no play, so it never passes the edit check. */
  lemma SessionTokenCannotEdit(t: Jwt, playId: Id, nowMs: nat)
    requires t.claims.playId.None?
    ensures TokenCheck(Header(Some(t)), playId, nowMs).Err?
  {
  }

  /** The JSON body of an edit. */
  datatype EditBody = EditBody(
    title: Option<string>,
    genre: Option<string>,
    duration: Option<Json>,
    males: Option<Json>,
    females: Option<Json>,
    acts: Option<Json>,
    funding: Option<string>,
    abstractText: Option<string>)

  /** Whether `if (x)` holds for a body value. */
  predicate Present(j: Option<Json>) {
    j.Some? && JTruthy(j.value)
  }

  /** Each number the edit assigns casts; otherwise the save fails. */
  predicate EditCastable(b: EditBody) {
    (Present(b.duration) ==> CastNumber(b.duration.value).Ok?)
    && (b.males.Some? ==> CastNumber(b.males.value).Ok?)
    && (b.females.Some? ==> CastNumber(b.females.value).Ok?)
    && (Present(b.acts) ==> CastNumber(b.acts.value).Ok?)
  }

  /** Lines 172-179: titles, genre, funding, abstract, duration and acts when
      truthy; males and females whenever the body has them, so that `0` and
      `null` are stored. `None` when the save fails its cast. */
  function EditedByToken(p: Play, b: EditBody): (r: Option<Play>)
    ensures r.Some? <==> EditCastable(b)
    ensures r.Some? ==>
              r.value == p.(title := r.value.title, genre := r.value.genre, duration := r.value.duration,
                            males := r.value.males, females := r.value.females, acts := r.value.acts,
                            funding := r.value.funding, abstractText := r.value.abstractText)
    ensures r.Some? ==> r.value.title == (if Truthy(b.title) then b.title else p.title)
    ensures r.Some? ==> r.value.genre == (if Truthy(b.genre) then b.genre else p.genre)
    ensures r.Some? ==> r.value.funding == (if Truthy(b.funding) then b.funding else p.funding)
    ensures r.Some? ==> r.value.abstractText == (if Truthy(b.abstractText) then b.abstractText else p.abstractText)
    ensures r.Some? ==>
              r.value.duration == (if Present(b.duration) then CastNumber(b.duration.value).value else p.duration)
    ensures r.Some? ==> r.value.acts == (if Present(b.acts) then CastNumber(b.acts.value).value else p.acts)
    ensures r.Some? && b.males.Some? ==> r.value.males == CastNumber(b.males.value).value
    ensures r.Some? && b.males.None? ==> r.value.males == p.males
    ensures r.Some? && b.females.Some? ==> r.value.females == CastNumber(b.females.value).value
    ensures r.Some? && b.females.None? ==> r.value.females == p.females
  {
    if !EditCastable(b) then None
    else Some(p.(title := if Truthy(b.title) then b.title else p.title,
                 genre := if Truthy(b.genre) then b.genre else p.genre,
                 duration := if Present(b.duration) then CastNumber(b.duration.value).value else p.duration,
                 males := if b.males.Some? then CastNumber(b.males.value).value else p.males,
                 females := if b.females.Some? then CastNumber(b.females.value).value else p.females,
                 acts := if Present(b.acts) then CastNumber(b.acts.value).value else p.acts,
                 funding := if Truthy(b.funding) then b.funding else p.funding,
                 abstractText := if Truthy(b.abstractText) then b.abstractText else p.abstractText))
  }

  /** A number of 0 in the body clears neither duration nor acts, but it does
      set males and females to 0. */
  lemma ZeroCountsDiffer(p: Play)
    ensures var b := EditBody(None, None, Some(JNumber(0)), Some(JNumber(0)), None, Some(JNumber(0)), None, None);
            EditedByToken(p, b).Some?
            && EditedByToken(p, b).value.duration == p.duration && EditedByToken(p, b).value.acts == p.acts
            && EditedByToken(p, b).value.males == Some(0)
  {
  }

  /** `updatePlay`: the token checks, then the lookup, then the ownership
      check, then the assignments and the save. */
  method UpdatePlay(db: Db, playId: Id, header: AuthHeader, nowMs: nat, body: EditBody)
    returns (reply: Reply)
    requires db.Valid()
    modifies db
    ensures db.Valid() && db.users == old(db.users)
    ensures reply.status != 200 ==> db.plays == old(db.plays)
    ensures TokenCheck(header, playId, nowMs).Err? ==> reply == TokenCheck(header, playId, nowMs).error
    ensures TokenCheck(header, playId, nowMs).Ok? ==>
              if playId !in old(db.plays) then reply == Reply(404, NotFoundMessage)
              else if OwnerCheck(TokenCheck(header, playId, nowMs).value, old(db.plays)[playId]).Err? then
                reply == OwnerCheck(TokenCheck(header, playId, nowMs).value, old(db.plays)[playId]).error
              else if !EditCastable(body) then reply == Reply(500, ServerErrorMessage)
              else reply == Reply(200, UpdatedMessage)
                   && db.plays == old(db.plays)[playId := EditedByToken(old(db.plays)[playId], body).value]
  {
    var check := TokenCheck(header, playId, nowMs);
    if check.Err? {
      return check.error;
    }
    if playId !in db.plays {
      return Reply(404, NotFoundMessage);
    }
    var play := db.plays[playId];
    var owner := OwnerCheck(check.value, play);
    if owner.Err? {
      return owner.error;
    }
    var castFails;
    play, castFails := AssignEdits(play, body);
    if castFails {
      return Reply(500, ServerErrorMessage);
    }
    db.plays := db.plays[playId := play];
    reply := Reply(200, UpdatedMessage);
  }

  /** The assignments one at a time; `castFails` records a value the save cannot cast. */
  method AssignEdits(p: Play, b: EditBody) returns (play: Play, castFails: bool)
    ensures castFails <==> !EditCastable(b)
    ensures play.playFile == p.playFile
    ensures !castFails ==> play == EditedByToken(p, b).value
  {
    play := p;
    if Truthy(b.title) { play := play.(title := b.title); }
    if Truthy(b.genre) { play := play.(genre := b.genre); }
    if Truthy(b.funding) { play := play.(funding := b.funding); }
    if Truthy(b.abstractText) { play := play.(abstractText := b.abstractText); }
    castFails := !EditCastable(b);
    if !castFails {
      play := AssignCounts(play, b);
    }
  }

  method AssignCounts(p: Play, b: EditBody) returns (play: Play)
    requires EditCastable(b)
    ensures play == p.(duration := play.duration, males := play.males, females := play.females, acts := play.acts)
    ensures play.duration == (if Present(b.duration) then CastNumber(b.duration.value).value else p.duration)
    ensures play.males == (if b.males.Some? then CastNumber(b.males.value).value else p.males)
    ensures play.females == (if b.females.Some? then CastNumber(b.females.value).value else p.females)
    ensures play.acts == (if Present(b.acts) then CastNumber(b.acts.value).value else p.acts)
  {
    play := p;
    if Present(b.duration) { play := play.(duration := CastNumber(b.duration.value).value); }
    if b.males.Some? { play := play.(males := CastNumber(b.males.value).value); }
    if b.females.Some? { play := play.(females := CastNumber(b.females.value).value); }
    if Present(b.acts) { play := play.(acts := CastNumber(b.acts.value).value); }
  }
}
