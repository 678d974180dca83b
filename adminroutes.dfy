/** routes/adminRoutes.js: both routes sit behind `protect` and
    `allowRoles(4)`; the account update finds the user first, then checks the
    new level by strict membership, then changes that one field. */
module AdminRoutes {
  import opened Wrappers
  import opened Text
  import opened UserModel
  import opened Tokens
  import opened Store
  import opened AuthMiddleware

  const UserNotFoundMessage := "User not found"
  const InvalidLevelMessage := "Invalid account level"
  const UpdatedMessage := "Account updated successfully"

  /** The account codes an admin may assign. */
  const Levels := [Educator, Playwright, UnlockedEducator, UnlockedPlaywright, Admin]

  /** GET /users: every user (shown without the password), to admins only. */
  function ListUsers(db: Db, token: Option<Jwt>, nowMs: nat, lookupFails: bool): (r: Result<set<Shown>, Reply>)
    reads db
    ensures r.Ok? <==> Gate(db, token, nowMs, lookupFails, [Admin]).Ok?
    ensures r.Ok? ==> db.users[Gate(db, token, nowMs, lookupFails, [Admin]).value].account == Admin
    ensures r.Ok? ==> forall s :: s in r.value <==> s.id in db.users && s == Show(s.id, db.users[s.id])
    ensures r.Err? ==> r.error == Gate(db, token, nowMs, lookupFails, [Admin]).error
  {
    match Gate(db, token, nowMs, lookupFails, [Admin])
    case Err(e) => Err(e)
    case Ok(_) => Ok(set id | id in db.users :: Show(id, db.users[id]))
  }

  /** `[0, 1, 2, 3, 4].includes(account)`: strict equality, so only a JSON
      number from 0 to 4 passes; the string "4" does not. */
  predicate ValidLevel(account: Option<Json>) {
    account.Some? && account.value.JNumber? && account.value.n in Levels
  }

  lemma ValidLevelIff(account: Option<Json>)
    ensures ValidLevel(account) <==> exists n :: 0 <= n <= 4 && account == Some(JNumber(n))
  {
    if ValidLevel(account) {
      assert 0 <= account.value.n <= 4;
    }
  }

  /** PUT /users/:id/account. */
  method UpdateAccount(db: Db, token: Option<Jwt>, nowMs: nat, lookupFails: bool, target: Id, account: Option<Json>)
    returns (reply: Reply)
    requires db.Valid()
    modifies db
    ensures db.Valid() && db.plays == old(db.plays)
    ensures reply.status != 200 ==> db.users == old(db.users)
    ensures old(Gate(db, token, nowMs, lookupFails, [Admin])).Err? ==>
              reply == old(Gate(db, token, nowMs, lookupFails, [Admin])).error
    ensures old(Gate(db, token, nowMs, lookupFails, [Admin])).Ok? ==>
              if target !in old(db.users) then reply == Reply(404, UserNotFoundMessage)
              else if !ValidLevel(account) then reply == Reply(400, InvalidLevelMessage)
              else reply == Reply(200, UpdatedMessage)
                   && db.users == old(db.users)[target := old(db.users)[target].(account := account.value.n)]
  {
    var gate := Gate(db, token, nowMs, lookupFails, [Admin]);
    if gate.Err? {
      return gate.error;
    }
    if target !in db.users {
      return Reply(404, UserNotFoundMessage);
    }
    var user := db.users[target];
    if !ValidLevel(account) {
      return Reply(400, InvalidLevelMessage);
    }
    user := user.(account := account.value.n);
    db.users := db.users[target := PreSave(Some(db.users[target]), user, 0)];
    reply := Reply(200, UpdatedMessage);
  }
}
