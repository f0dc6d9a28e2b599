/** The user record the auth handlers read and save, the store behind
    `UserService.findUserById` / `findUserByEmail` / `user.save()`, and the
    password hashing of `UserService.createHashPassword`. */
module Users {
  import opened Wrappers
  import opened JsValues
  import UriCoding

  /** The fields of a user document the core touches; `passwordHash` is
      optional (accounts registered through Google have none). */
  datatype User = User(
    id: string, userName: string, email: string, emailVerified: bool,
    passwordHash: Option<string>, role: string, profilePicture: Option<string>)

  /** `findUserById(id)`: the user whose `_id` is the given value. A value
      that is not an id string (`undefined`, a number) finds nobody. */
  function FindById(users: seq<User>, id: Option<Json>): (r: Option<User>)
    ensures r.Some? ==> r.value in users && id == Some(JStr(r.value.id))
    ensures r.None? ==> forall u :: u in users ==> id != Some(JStr(u.id))
    decreases |users|
  {
    if users == [] then None
    else if id == Some(JStr(users[0].id)) then Some(users[0])
    else FindById(users[1..], id)
  }

  /** `findUserByEmail(email)`: the first user with exactly that email. */
  function FindByEmail(users: seq<User>, email: Option<Json>): (r: Option<User>)
    ensures r.Some? ==> r.value in users && email == Some(JStr(r.value.email))
    ensures r.None? ==> forall u :: u in users ==> email != Some(JStr(u.email))
    decreases |users|
  {
    if users == [] then None
    else if email == Some(JStr(users[0].email)) then Some(users[0])
    else FindByEmail(users[1..], email)
  }

  /** `user.save()` on a document loaded from the store: the stored record
      with that `_id` becomes `u`. */
  function Replace(users: seq<User>, u: User): (r: seq<User>)
    ensures |r| == |users|
    ensures forall i :: 0 <= i < |users| ==> r[i].id == users[i].id
    decreases |users|
  {
    if users == [] then []
    else [if users[0].id == u.id then u else users[0]] + Replace(users[1..], u)
  }

  /** After a save, looking up the saved id gives the saved record, and
      every other lookup by id gives what it gave before. */
  lemma {:induction false} FindAfterReplace(users: seq<User>, u: User, id: Option<Json>)
    ensures FindById(Replace(users, u), id) ==
      (if id == Some(JStr(u.id)) && FindById(users, id).Some? then Some(u) else FindById(users, id))
    decreases |users|
  {
    if users != [] {
      var head := if users[0].id == u.id then u else users[0];
      assert Replace(users, u)[0] == head;
      assert Replace(users, u)[1..] == Replace(users[1..], u);
      FindAfterReplace(users[1..], u, id);
    }
  }

  /** Saving the same record twice stores what saving it once stores. */
  lemma {:induction false} ReplaceIdempotent(users: seq<User>, u: User)
    ensures Replace(Replace(users, u), u) == Replace(users, u)
    decreases |users|
  {
    if users != [] {
      var once := Replace(users, u);
      assert once[1..] == Replace(users[1..], u);
      ReplaceIdempotent(users[1..], u);
      assert Replace(once, u) == [if once[0].id == u.id then u else once[0]] + Replace(once[1..], u);
    }
  }

  /** No two stored records share an `_id`. */
  predicate UniqueIds(users: seq<User>) {
    forall i, j :: 0 <= i < j < |users| ==> users[i].id != users[j].id
  }

  /** Saving the record a lookup returned, unchanged, changes nothing. */
  lemma {:induction false} ReplaceWithFound(users: seq<User>, id: Option<Json>)
    requires FindById(users, id).Some?
    requires UniqueIds(users)
    ensures Replace(users, FindById(users, id).value) == users
    decreases |users|
  {
    var u := FindById(users, id).value;
    if id == Some(JStr(users[0].id)) {
      HeadUnique(users);
      ReplaceOthers(users[1..], u);
    } else {
      TailUnique(users);
      ReplaceWithFound(users[1..], id);
      HeadNotFoundInTail(users, u);
    }
  }

  lemma HeadUnique(users: seq<User>)
    requires users != [] && UniqueIds(users)
    ensures forall i :: 0 <= i < |users[1..]| ==> users[1..][i].id != users[0].id
  {
  }

  lemma TailUnique(users: seq<User>)
    requires users != [] && UniqueIds(users)
    ensures UniqueIds(users[1..])
  {
    var tail := users[1..];
    forall i, j | 0 <= i < j < |tail| ensures tail[i].id != tail[j].id {
      assert tail[i] == users[i + 1] && tail[j] == users[j + 1];
    }
  }

  /** A record found after the first has a different id from the first,
      so the save leaves the first record as it is. */
  lemma HeadNotFoundInTail(users: seq<User>, u: User)
    requires users != [] && UniqueIds(users) && u in users[1..]
    requires Replace(users[1..], u) == users[1..]
    ensures Replace(users, u) == users
  {
    var k :| 0 <= k < |users[1..]| && users[1..][k] == u;
    assert users[k + 1] == u;
    assert Replace(users, u) == [users[0]] + users[1..];
  }

  /** A save whose id no stored record has changes nothing. */
  lemma {:induction false} ReplaceOthers(users: seq<User>, u: User)
    requires forall i :: 0 <= i < |users| ==> users[i].id != u.id
    ensures Replace(users, u) == users
    decreases |users|
  {
    if users != [] {
      ReplaceOthers(users[1..], u);
    }
  }

  /** The collection of users, updated in place by `save()`. */
  class UserStore {
    var users: seq<User>

    constructor (users: seq<User>)
      ensures this.users == users
    {
      this.users := users;
    }

    method Save(u: User)
      modifies this
      ensures users == Replace(old(users), u)
    {
      users := Replace(users, u);
    }
  }

  /** bcrypt seen from outside: `hashSync(password, salt)` and
      `compareSync(password, hash)`. */
  datatype Bcrypt = Bcrypt(hash: (string, nat) -> string, compare: (string, string) -> bool)

  /** A hash of a password always compares equal to that password. */
  ghost predicate BcryptSound(b: Bcrypt) {
    forall p, salt :: b.compare(p, b.hash(p, salt))
  }

  /** `createHashPassword(password)`: bcrypt reads at most 72 bytes, so a
      password whose UTF-8 encoding is longer is refused; `salt` stands
      for the random salt `hashSync` draws. */
  function CreateHashPassword(b: Bcrypt, password: string, salt: nat): (r: Result<string, string>)
    ensures r.Err? <==> UriCoding.Utf8Length(password) > 72
    ensures r.Err? ==> r.error == "Password is too long"
    ensures r.Ok? ==> r.value == b.hash(password, salt)
  {
    if UriCoding.Utf8Length(password) > 72 then Err("Password is too long")
    else Ok(b.hash(password, salt))
  }

  /** Every password of at most 18 characters fits, and every password of
      more than 72 characters is refused. */
  lemma HashLengthBounds(b: Bcrypt, password: string, salt: nat)
    ensures |password| <= 18 ==> CreateHashPassword(b, password, salt).Ok?
    ensures |password| > 72 ==> CreateHashPassword(b, password, salt).Err?
  {
  }

  /** The new hash accepts the password it was made from. */
  lemma NewHashAcceptsPassword(b: Bcrypt, password: string, salt: nat)
    requires BcryptSound(b)
    requires CreateHashPassword(b, password, salt).Ok?
    ensures b.compare(password, CreateHashPassword(b, password, salt).value)
  {
  }

  /** The message sent when `passwordRegex` rejects a password. */
  const PasswordRuleMessage := "Passwords must be at least 8 characters long, have 1 letter and 1 number and no whitespaces"

  /** The user as `removeSensitiveData` sends it: the record without its
      password hash. */
  function PublicUser(u: User): (j: Json)
    ensures j.JObj? && "passwordHash" !in j.fields
    ensures Prop(j, "_id") == Some(JStr(u.id)) && Prop(j, "email") == Some(JStr(u.email))
  {
    JObj(With(map[
      "_id" := JStr(u.id), "userName" := JStr(u.userName), "email" := JStr(u.email),
      "emailVerified" := JBool(u.emailVerified), "role" := JStr(u.role)],
      "profilePicture", if u.profilePicture.Some? then Some(JStr(u.profilePicture.value)) else None))
  }
}
