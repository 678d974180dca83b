/** The MongoDB collections the handlers share: users and plays by id. */
module Store {
  import opened Wrappers
  import opened UserModel
  import opened PlayModel
  import Base64

  /** Every stored play file holds canonical base64 text, as the upload handlers write it. */
  predicate FilesEncoded(plays: map<Id, Play>) {
    forall id :: id in plays && plays[id].playFile.FileData? ==>
      Base64.Decode(Base64.Standard, plays[id].playFile.data).Some?
  }

  /** The user registered under `email`; there is at most one while emails are unique. */
  ghost function Owner(users: map<Id, User>, email: string): (r: Option<Id>)
    requires EmailsUnique(users)
    ensures r.Some? ==> r.value in users && users[r.value].email == email
    ensures r.None? <==> forall id :: id in users ==> users[id].email != email
    ensures forall id :: id in users && users[id].email == email ==> r == Some(id)
  {
    if exists id :: id in users && users[id].email == email then
      var id :| id in users && users[id].email == email; Some(id)
    else None
  }

  class Db {
    var users: map<Id, User>
    var plays: map<Id, Play>

    constructor ()
      ensures users == map[] && plays == map[]
    {
      users := map[];
      plays := map[];
    }

    /** What the schema and the handlers keep true of the stored documents. */
    predicate Valid()
      reads this
    {
      EmailsUnique(users) && AllHashed(users) && FilesEncoded(plays)
    }

    /** `User.findOne({ email })`: the one user with that address, if any. */
    method FindByEmail(email: string) returns (r: Option<Id>)
      ensures r.Some? ==> r.value in users && users[r.value].email == email
      ensures r.None? <==> forall id :: id in users ==> users[id].email != email
      ensures EmailsUnique(users) ==> r == Owner(users, email)
    {
      if id :| id in users && users[id].email == email {
        r := Some(id);
      } else {
        r := None;
      }
    }
  }
}
