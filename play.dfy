/** The play record as the routes and controllers read and write it (the
    schema file in the repository is a stub that lists other fields), and the
    author display both listings and single lookups produce. */
module PlayModel {
  import opened Wrappers
  import opened UserModel

  /** `playFile`: the empty string a play is created with, or the uploaded
      document with its bytes as standard base64 text. */
  datatype Attachment = NoFile | FileData(filename: string, mimetype: string, data: string)

  datatype Play = Play(
    title: Option<string>,
    author: Option<Id>,
    publicationDate: Option<int>,
    submissionDate: Option<int>,
    acts: Option<int>,
    duration: Option<int>,
    total: Option<int>,
    males: Option<int>,
    females: Option<int>,
    funding: Option<string>,
    abstractText: Option<string>,
    genre: Option<string>,
    organizationType: Option<string>,
    coverImage: string,
    playFile: Attachment,
    createdAt: int)

  /** A play as the API returns it: its id and own fields, then `authorId`
      and the display name replacing the populated author. */
  datatype Listed = Listed(id: Id, play: Play, authorId: Option<Id>, author: string)

  /** The populated author: only the selected `_id firstName lastName`. */
  datatype AuthorRef = AuthorRef(id: Id, firstName: string, lastName: string)

  /** `populate("author", "_id firstName lastName")` resolves the author id when
      that user still exists, to the three selected fields of that user. */
  function Populate(users: map<Id, User>, p: Play): (r: Option<AuthorRef>)
    ensures r.Some? <==> p.author.Some? && p.author.value in users
    ensures r.Some? ==> r.value.id == p.author.value
                        && r.value.firstName == users[p.author.value].firstName
                        && r.value.lastName == users[p.author.value].lastName
  {
    if p.author.Some? && p.author.value in users then
      var u := users[p.author.value];
      Some(AuthorRef(p.author.value, u.firstName, u.lastName))
    else None
  }

  /** The author shown is "first last" with its id when the author resolves,
      and "Anonymous" with no id otherwise. */
  function Format(users: map<Id, User>, id: Id, p: Play): (r: Listed)
    ensures r.id == id && r.play == p
    ensures r.authorId.Some? <==> Populate(users, p).Some?
    ensures r.authorId.Some? ==>
              r.authorId == p.author
              && r.author == users[p.author.value].firstName + " " + users[p.author.value].lastName
    ensures r.authorId.None? ==> r.author == "Anonymous"
  {
    match Populate(users, p)
    case Some(a) => Listed(id, p, p.author, a.firstName + " " + a.lastName)
    case None => Listed(id, p, None, "Anonymous")
  }
}
