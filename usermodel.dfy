/** The user record (models/User.js): the profile sub-document, the account
    codes, the defaults Mongoose fills in, the pre-save hook that hashes a
    changed password, and `matchPassword`. bcrypt is abstract: a digest
    remembers the text and the salt it was made from, and comparing succeeds
    exactly when the entered text yields the same key bytes as the text hashed
    (bcrypt reads at most 72 bytes of a password). */
module UserModel {
  import opened Wrappers
  import opened Base64
  import Utf8

  /** A document id, as `_id` and as the string form `String(_id)`. */
  type Id = nat

  /** `bcrypt.hash(plain, salt)`, kept abstract. */
  datatype Digest = Digest(plain: string, salt: nat)

  /** The `password` field: text just assigned by a handler, or the stored hash. */
  datatype Secret = Plain(text: string) | Hashed(digest: Digest)

  datatype Profile = Profile(
    profilePicture: string,
    description: string,
    biography: string,
    companyName: string,
    street: string,
    stateCity: string,
    country: string,
    website: string)

  datatype User = User(
    firstName: string,
    lastName: string,
    email: string,
    phone: string,
    password: Secret,
    account: int,
    contact: int,
    schoolName: string,
    profile: Option<Profile>,
    resetToken: Option<string>,
    resetExpires: Option<int>)

  /** The eight profile fields at their schema default, the empty string. */
  const DefaultProfile := Profile("", "", "", "", "", "", "", "")

  const Educator := 0
  const Playwright := 1
  const UnlockedEducator := 2
  const UnlockedPlaywright := 3
  const Admin := 4

  /** A user as `select("-password")` returns it: every field but the
      password, with the document id. */
  datatype Shown = Shown(
    id: Id,
    firstName: string,
    lastName: string,
    email: string,
    phone: string,
    account: int,
    contact: int,
    schoolName: string,
    profile: Option<Profile>,
    resetToken: Option<string>,
    resetExpires: Option<int>)

  function Show(id: Id, u: User): Shown {
    Shown(id, u.firstName, u.lastName, u.email, u.phone, u.account, u.contact, u.schoolName,
          u.profile, u.resetToken, u.resetExpires)
  }

  /** The projection hides the password and nothing else: two records show
      alike exactly when they differ at most in the password. */
  lemma ShowHidesOnlyPassword(id: Id, u: User, v: User)
    ensures Show(id, u) == Show(id, v) <==> u.(password := v.password) == v
  {
  }

  /** The name of an account code, as the schema comment lists them. */
  function AccountName(account: int): (r: Option<string>)
    ensures r.Some? <==> 0 <= account <= 4
  {
    if account == Educator then Some("Educator")
    else if account == Playwright then Some("Playwright")
    else if account == UnlockedEducator then Some("Unlocked Educator")
    else if account == UnlockedPlaywright then Some("Unlocked Playwright")
    else if account == Admin then Some("Admin")
    else None
  }

  /** `new User({...})`: the fields given, `contact` defaulting to 0,
      `schoolName` to "" and the profile to the all-default sub-document. */
  function NewUser(firstName: string, lastName: string, email: string, phone: string,
                   password: string, account: int, contact: Option<int>,
                   schoolName: Option<string>): (u: User)
    ensures u.firstName == firstName && u.lastName == lastName && u.phone == phone
    ensures u.password == Plain(password) && u.email == email && u.account == account
    ensures u.contact == (if contact.Some? then contact.value else 0)
    ensures u.schoolName == (if schoolName.Some? then schoolName.value else "")
    ensures u.profile == Some(DefaultProfile) && u.resetToken.None? && u.resetExpires.None?
  {
    User(firstName, lastName, email, phone, Plain(password), account,
         contact.GetOr(0), schoolName.GetOr(""), Some(DefaultProfile), None, None)
  }

  /** Mongoose's `isModified("password")`: a new document, or a password that differs
      from the one stored. */
  predicate PasswordModified(stored: Option<User>, u: User) {
    stored.None? || stored.value.password != u.password
  }

  /** The pre-save hook: a modified plain password is replaced by its digest
      under a fresh salt; otherwise the record is saved as it is. */
  function PreSave(stored: Option<User>, u: User, salt: nat): (r: User)
    ensures r == u.(password := r.password)
    ensures !PasswordModified(stored, u) ==> r == u
    ensures PasswordModified(stored, u) && u.password.Plain? ==> r.password == Hashed(Digest(u.password.text, salt))
  {
    if PasswordModified(stored, u) && u.password.Plain? then
      u.(password := Hashed(Digest(u.password.text, salt)))
    else u
  }

  /** The number of key bytes the bcrypt key schedule consumes. */
  const KeyLength := 72

  /** The key bytes bcrypt reads from a password: its UTF-8 encoding followed by
      a zero terminator, repeated cyclically to 72 bytes. Bytes past the 72nd
      never reach the hash. */
  function BcryptKey(password: string): (k: seq<byte>)
    ensures |k| == KeyLength
  {
    var b := Utf8.Encode(password) + [0];
    seq(KeyLength, i requires 0 <= i < KeyLength => b[i % |b|])
  }

  /** `bcrypt.compare(entered, this.password)`: hashing the entered text under the
      stored salt reproduces the stored hash, that is, it yields the same key bytes. */
  predicate MatchPassword(u: User, entered: string) {
    u.password.Hashed? && BcryptKey(u.password.digest.plain) == BcryptKey(entered)
  }

  lemma ModSmall(i: int, n: int)
    requires 0 <= i < n
    ensures i % n == i
  {
  }

  /** A password at least 72 bytes long contributes exactly its first 72 bytes. */
  lemma LongKeyIsPrefix(password: string)
    requires |Utf8.Encode(password)| >= KeyLength
    ensures BcryptKey(password) == Utf8.Encode(password)[..KeyLength]
  {
    var b := Utf8.Encode(password) + [0];
    forall i | 0 <= i < KeyLength
      ensures BcryptKey(password)[i] == Utf8.Encode(password)[i]
    {
      ModSmall(i, |b|);
    }
  }

  /** Passwords shorter than 72 bytes and free of U+0000 are told apart by
      their key bytes: the first zero byte marks where each one ends. */
  lemma ShortKeysDistinct(a: string, b: string)
    requires |Utf8.Encode(a)| < KeyLength && |Utf8.Encode(b)| < KeyLength
    requires forall i :: 0 <= i < |a| ==> a[i] != '\0'
    requires forall i :: 0 <= i < |b| ==> b[i] != '\0'
    ensures BcryptKey(a) == BcryptKey(b) <==> a == b
  {
    if BcryptKey(a) == BcryptKey(b) {
      var x, y := Utf8.Encode(a), Utf8.Encode(b);
      Utf8.EncodeNoZero(a);
      Utf8.EncodeNoZero(b);
      assert forall i :: 0 <= i <= |x| ==> BcryptKey(a)[i] == (x + [0])[i] by {
        forall i | 0 <= i <= |x| ensures BcryptKey(a)[i] == (x + [0])[i] {
          ModSmall(i, |x| + 1);
        }
      }
      assert forall i :: 0 <= i <= |y| ==> BcryptKey(b)[i] == (y + [0])[i] by {
        forall i | 0 <= i <= |y| ensures BcryptKey(b)[i] == (y + [0])[i] {
          ModSmall(i, |y| + 1);
        }
      }
      TerminatedPrefix(x, BcryptKey(a));
      TerminatedPrefix(y, BcryptKey(b));
      SameTerminatedPrefix(x, y, BcryptKey(a));
      Utf8.EncodeInjective(a, b);
    }
  }

  lemma TerminatedPrefix(x: seq<byte>, k: seq<byte>)
    requires |x| < |k|
    requires forall i :: 0 <= i <= |x| ==> k[i] == (x + [0])[i]
    ensures k[|x|] == 0 && forall i :: 0 <= i < |x| ==> k[i] == x[i]
  {
    assert (x + [0])[|x|] == 0;
    forall i | 0 <= i < |x| ensures k[i] == x[i] {
      assert (x + [0])[i] == x[i];
    }
  }

  /** Two zero-free byte strings that both prefix `k` up to a zero byte are equal. */
  lemma SameTerminatedPrefix(x: seq<byte>, y: seq<byte>, k: seq<byte>)
    requires |x| < |k| && |y| < |k|
    requires forall j :: 0 <= j < |x| ==> x[j] != 0
    requires forall j :: 0 <= j < |y| ==> y[j] != 0
    requires k[|x|] == 0 && forall i :: 0 <= i < |x| ==> k[i] == x[i]
    requires k[|y|] == 0 && forall i :: 0 <= i < |y| ==> k[i] == y[i]
    ensures x == y
  {
    if |x| < |y| {
      assert false;
    } else if |y| < |x| {
      assert false;
    }
  }

  /** Two different 73-character passwords that share their first 72
      characters have the same key bytes. */
  lemma LongPasswordsCollide()
    ensures var a, b := seq(72, _ => 'a') + ['b'], seq(72, _ => 'a') + ['c'];
            a != b && BcryptKey(a) == BcryptKey(b)
  {
    var a, b := seq(72, _ => 'a') + ['b'], seq(72, _ => 'a') + ['c'];
    assert a[72] != b[72];
    Utf8.EncodeAscii(a);
    Utf8.EncodeAscii(b);
    LongKeyIsPrefix(a);
    LongKeyIsPrefix(b);
    assert Utf8.Encode(a)[..KeyLength] == Utf8.Encode(b)[..KeyLength] by {
      forall i | 0 <= i < KeyLength
        ensures Utf8.Encode(a)[i] == Utf8.Encode(b)[i]
      {
        assert a[i] == 'a' && b[i] == 'a';
      }
    }
  }

  /** After saving a new plain password that password matches, and so does
      exactly every text with the same key bytes. */
  lemma SavedPasswordMatches(stored: Option<User>, u: User, salt: nat, entered: string)
    requires u.password.Plain? && PasswordModified(stored, u)
    ensures MatchPassword(PreSave(stored, u, salt), u.password.text)
    ensures MatchPassword(PreSave(stored, u, salt), entered) <==> BcryptKey(entered) == BcryptKey(u.password.text)
  {
  }

  /** Saving a record whose password was not touched keeps the stored hash, so the
      old password still matches and no other does. */
  lemma SaveKeepsHash(stored: User, u: User, salt: nat, entered: string)
    requires u.password == stored.password
    ensures PreSave(Some(stored), u, salt).password == stored.password
    ensures MatchPassword(PreSave(Some(stored), u, salt), entered) <==> MatchPassword(stored, entered)
  {
  }

  /** The `unique: true` index on `email`. */
  predicate EmailsUnique(users: map<Id, User>) {
    forall a, b :: a in users && b in users && users[a].email == users[b].email ==> a == b
  }

  /** Every stored password has been through the pre-save hook. */
  predicate AllHashed(users: map<Id, User>) {
    forall id :: id in users ==> users[id].password.Hashed?
  }
}
