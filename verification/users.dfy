/** The account handlers of controllers/users.js: register, log in,
    refresh a token, log out, update the profile, reset the password and
    delete the account.  Passwords are stored only as `lib.hash` of the
    plaintext and a random salt. */
module Users {
  import opened FeedTypes
  import opened Store
  import opened HandleUserData

  /** ASCII lower-casing of one character. */
  function LowerChar(ch: char): char {
    if 'A' <= ch <= 'Z' then (ch as int + 32) as char else ch
  }

  /** ASCII lower-casing, as the user schema applies it to emails. */
  function Lower(s: string): (r: string)
    ensures |r| == |s|
    ensures forall i :: 0 <= i < |r| ==> !('A' <= r[i] <= 'Z')
    ensures forall i :: 0 <= i < |r| ==> r[i] == s[i] || ('A' <= s[i] <= 'Z' && r[i] as int == s[i] as int + 32)
  {
    if s == [] then [] else [LowerChar(s[0])] + Lower(s[1..])
  }

  /** The five stored fields of a user, as an object keyed by field name. */
  function Fields(u: User): (m: map<string, string>)
    ensures m.Keys == {"firstname", "lastname", "username", "email", "password"}
  {
    map["firstname" := u.firstname, "lastname" := u.lastname, "username" := u.username,
        "email" := u.email, "password" := u.password]
  }

  /** The user document read with its id, as the update handlers select it. */
  function Record(id: Id, u: User): (m: map<string, string>)
    ensures m.Keys == Fields(u).Keys + {"_id"} && m["_id"] == id
    ensures forall k :: k in Fields(u) ==> m[k] == Fields(u)[k]
  {
    Fields(u)["_id" := id]
  }

  /** The field copy of the profile update: each request field overwrites
      the stored one, every other stored field keeps its value. */
  method MergeFields(record: map<string, string>, body: map<string, string>)
    returns (merged: map<string, string>)
    ensures merged.Keys == record.Keys + body.Keys
    ensures forall k :: k in body ==> merged[k] == body[k]
    ensures forall k :: k in record && k !in body ==> merged[k] == record[k]
    ensures merged == record + body
  {
    merged := record;
    var todo := body.Keys;
    while todo != {}
      invariant todo <= body.Keys
      invariant merged.Keys == record.Keys + (body.Keys - todo)
      invariant forall k :: k in body && k !in todo ==> merged[k] == body[k]
      invariant forall k :: k in record && (k !in body || k in todo) ==> merged[k] == record[k]
      decreases todo
    {
      var key :| key in todo;
      merged := merged[key := body[key]];
      todo := todo - {key};
    }
  }

  /** Registration: the lookup matches a user with BOTH the lower-cased
      email and the username, so a clash always answers "Username already
      taken!"; otherwise the new user is stored with the password's hash. */
  method UserRegister(db: Database, lib: Libraries, body: User, salt: Salt, newId: Id)
    returns (r: Reply<Id>)
    requires db.Fresh(newId)
    modifies db
    ensures db.posts == old(db.posts) && db.comments == old(db.comments)
    ensures
      var email := Lower(body.email);
      if lib.userSchema(Fields(body)).Fail? then
        r == Err(lib.userSchema(Fields(body)).message) && db.users == old(db.users)
      else if exists uid :: uid in old(db.users) && old(db.users)[uid].email == email &&
                            old(db.users)[uid].username == body.username then
        r == Err(UsernameTaken) && db.users == old(db.users)
      else
        r == Ok(newId) &&
        db.users == old(db.users)[newId := body.(email := email, password := lib.hash(body.password, salt))]
    ensures old(db.Consistent()) ==> db.Consistent()
  {
    var email := Lower(body.email);
    var check := lib.userSchema(Fields(body));
    if check.Fail? {
      return Err(check.message);
    }
    if exists uid :: uid in db.users && db.users[uid].email == email && db.users[uid].username == body.username {
      var uid :| uid in db.users && db.users[uid].email == email && db.users[uid].username == body.username;
      if db.users[uid].username == body.username {
        return Err(UsernameTaken);
      }
      return Err(UserAlreadyExists);
    }
    var hashed := lib.hash(body.password, salt);
    db.users := db.users[newId := body.(email := email, password := hashed)];
    r := Ok(newId);
  }

  /** Login looks the user up by the email, lower-cased as the email path's
      setter casts the query value, and issues a token only when the
      password matches the stored hash. */
  method UserLogin(db: Database, lib: Libraries, email: string, password: string)
    returns (r: Reply<Token>)
    ensures
      var key := Lower(email);
      if lib.loginSchema(email, password).Fail? then
        r == Err(lib.loginSchema(email, password).message)
      else if forall uid :: uid in db.users ==> db.users[uid].email != key then
        r == Err(UserNotFound)
      else
        (r.Ok? || r == Err(WrongCredentials)) &&
        (r.Ok? ==> r.value.subject in db.users && db.users[r.value.subject].email == key &&
                   lib.compare(password, db.users[r.value.subject].password)) &&
        (r.Err? ==> exists uid :: uid in db.users && db.users[uid].email == key &&
                                  !lib.compare(password, db.users[uid].password))
  {
    var check := lib.loginSchema(email, password);
    if check.Fail? {
      return Err(check.message);
    }
    var key := Lower(email);
    if forall uid :: uid in db.users ==> db.users[uid].email != key {
      return Err(UserNotFound);
    }
    var uid :| uid in db.users && db.users[uid].email == key;
    if !lib.compare(password, db.users[uid].password) {
      return Err(WrongCredentials);
    }
    r := Ok(Token(uid));
  }

  /** A new token is issued for any existing user id; the route asks for no credential. */
  method ReAuthUser(db: Database, lib: Libraries, userId: Id) returns (r: Reply<Token>)
    ensures !lib.isObjectId(userId) ==> r == Fault
    ensures lib.isObjectId(userId) ==>
              r == if userId in db.users then Ok(Token(userId)) else Err(UserNotFound)
  {
    if !lib.isObjectId(userId) {
      return Fault;
    }
    if userId !in db.users {
      return Err(UserNotFound);
    }
    r := Ok(Token(userId));
  }

  /** Logout checks that the user exists and is the actor, then answers
      the logged-out message.  `destroyToken` signs with an empty secret, so
      `jwt.sign` hands its error to the callback as the first argument and
      returns the callback's value, which is that message; no token is
      revoked. */
  method UserLogout(db: Database, lib: Libraries, actor: Id, userId: Id) returns (r: Reply<string>)
    ensures !lib.isObjectId(userId) ==> r == Err(NotValidUserIdBang)
    ensures lib.isObjectId(userId) && (userId !in db.users || userId != actor) ==> r == Err(UserNotFound)
    ensures lib.isObjectId(userId) && userId in db.users && userId == actor ==> r == Ok(LoggedOut)
  {
    if !lib.isObjectId(userId) {
      return Err(NotValidUserIdBang);
    }
    if userId !in db.users || userId != actor {
      return Err(UserNotFound);
    }
    r := Ok(LoggedOut);
  }

  /** The stored user a successful profile update writes: the five fields of
      the merged object, the email lower-cased, and the password hashed when
      the request carried a non-empty one. */
  function Updated(rec: map<string, string>, rehash: bool, lib: Libraries, salt: Salt): (u: User)
    requires {"firstname", "lastname", "username", "email", "password"} <= rec.Keys
    ensures u.firstname == rec["firstname"] && u.lastname == rec["lastname"]
    ensures u.username == rec["username"] && u.email == Lower(rec["email"])
    ensures u.password == if rehash then lib.hash(rec["password"], salt) else rec["password"]
  {
    User(rec["firstname"], rec["lastname"], rec["username"], Lower(rec["email"]),
         if rehash then lib.hash(rec["password"], salt) else rec["password"])
  }

  /** Profile update: only the user themself may update; request fields
      overwrite the stored ones, the merged object is validated without its
      id, and only the five user fields are written back. */
  method UpdateUser(db: Database, lib: Libraries, actor: Id, userId: Id,
                    body: map<string, string>, salt: Salt)
    returns (r: Reply<()>)
    modifies db
    ensures db.posts == old(db.posts) && db.comments == old(db.comments)
    ensures
      if !lib.isObjectId(userId) then
        r == Err(NotValidUserIdBang) && db.users == old(db.users)
      else if userId !in old(db.users) || userId != actor then
        r == Err(UserNotFound) && db.users == old(db.users)
      else
        var rec := (Record(userId, old(db.users)[userId]) + body) - {"_id"};
        var rehash := "password" in body && body["password"] != "";
        if lib.userSchema(rec).Fail? then
          r == Err(lib.userSchema(rec).message) && db.users == old(db.users)
        else
          r == Ok(()) && db.users == old(db.users)[userId := Updated(rec, rehash, lib, salt)]
    ensures r.Ok? && "password" !in body ==> db.users[userId].password == old(db.users)[userId].password
    ensures old(db.Consistent()) ==> db.Consistent()
  {
    if !lib.isObjectId(userId) {
      return Err(NotValidUserIdBang);
    }
    if userId !in db.users || userId != actor {
      return Err(UserNotFound);
    }
    var stored := db.users[userId];
    var encryptFlag := "password" in body && body["password"] != "";
    var merged := MergeFields(Record(userId, stored), body);
    var rec := merged - {"_id"};
    var check := lib.userSchema(rec);
    if check.Fail? {
      return Err(check.message);
    }
    db.users := db.users[userId := Updated(rec, encryptFlag, lib, salt)];
    r := Ok(());
  }

  /** Password reset: the user must exist, nothing else is checked; only the
      password changes, to the hash of the new one.  A request without a
      password fails the user schema, which requires one; only a schema that
      accepted such a record would let bcrypt be handed `undefined` and throw. */
  method UpdateUserPass(db: Database, lib: Libraries, userId: Id, body: map<string, string>, salt: Salt)
    returns (r: Reply<()>)
    modifies db
    ensures db.posts == old(db.posts) && db.comments == old(db.comments)
    ensures
      if !lib.isObjectId(userId) then
        r == Err(NotValidUserIdBang) && db.users == old(db.users)
      else if userId !in old(db.users) then
        r == Err(UserNotFound) && db.users == old(db.users)
      else
        var u := old(db.users)[userId];
        var rec := if "password" in body then Fields(u)["password" := body["password"]]
                   else Fields(u) - {"password"};
        if lib.userSchema(rec).Fail? then
          r == Err(lib.userSchema(rec).message) && db.users == old(db.users)
        else if "password" !in body then
          r == Fault && db.users == old(db.users)
        else
          r == Ok(()) &&
          db.users == old(db.users)[userId := u.(password := lib.hash(body["password"], salt))]
    ensures (forall m :: "password" !in m ==> lib.userSchema(m).Fail?) ==> r != Fault
    ensures old(db.Consistent()) ==> db.Consistent()
  {
    if !lib.isObjectId(userId) {
      return Err(NotValidUserIdBang);
    }
    if userId !in db.users {
      return Err(UserNotFound);
    }
    var user := db.users[userId];
    var rec := if "password" in body then Fields(user)["password" := body["password"]]
               else Fields(user) - {"password"};
    var check := lib.userSchema(rec);
    if check.Fail? {
      return Err(check.message);
    }
    if "password" !in body {
      return Fault;
    }
    db.users := db.users[userId := user.(password := lib.hash(body["password"], salt))];
    r := Ok(());
  }

  /** Account deletion: only the user themself; the user is removed, then
      the clean-up runs for the same id. */
  method DeleteUser(db: Database, lib: Libraries, actor: Id, userId: Id) returns (r: Reply<()>)
    modifies db
    ensures
      if !lib.isObjectId(userId) then
        r == Err(NotValidUserIdBang) && unchanged(db)
      else if userId !in old(db.users) || userId != actor then
        r == Err(UserNotFound) && unchanged(db)
      else
        r == Ok(()) &&
        db.users == old(db.users) - {userId} &&
        db.posts == CascadePosts(old(db.posts), old(db.comments), userId) &&
        db.comments == CascadeComments(old(db.comments), userId)
    ensures old(db.Consistent()) ==> db.Consistent()
  {
    if !lib.isObjectId(userId) {
      return Err(NotValidUserIdBang);
    }
    if userId !in db.users || userId != actor {
      return Err(UserNotFound);
    }
    db.users := db.users - {userId};
    DeleteAllUserData(db, userId);
    r := Ok(());
  }
}
