/** Users: registration, login and logout. Password hashing and comparison,
    and token signing, are outside the model: the comparison is a parameter and
    the two tokens are given. */
module UserController {
  import opened Base
  import opened Entities
  import opened Storage
  import opened JsString

  /** The four body fields; `None` when the request does not carry one. */
  datatype Registration = Registration(fullName: Option<string>, email: Option<string>, username: Option<string>, password: Option<string>)

  /** `field?.trim() === ""`: a present field made of whitespace only. An
      absent field is not blank. */
  predicate Blank(f: Option<string>)
    ensures Blank(f) <==> f.Some? && forall i :: 0 <= i < |f.value| ==> IsWhitespace(f.value[i])
  {
    if f.None? then false
    else
      TrimEmptyIffBlank(f.value);
      Trim(f.value) == ""
  }

  predicate AnyBlank(req: Registration) {
    Blank(req.fullName) || Blank(req.email) || Blank(req.username) || Blank(req.password)
  }

  /** Every field is present. An absent username makes `toLowerCase` throw;
      the others are taken as required by the User schema, so `User.create`
      fails without them. */
  predicate Complete(req: Registration) {
    req.fullName.Some? && req.email.Some? && req.username.Some? && req.password.Some?
  }

  /** `{$or: [{email}, {username}]}` matches the user; an absent field matches
      nobody. The username is compared as given, not lower-cased. */
  predicate Clashes(u: User, email: Option<string>, username: Option<string>) {
    (email.Some? && u.email == email.value) || (username.Some? && u.username == username.value)
  }

  predicate Taken(users: map<Id, User>, email: Option<string>, username: Option<string>) {
    exists k :: k in users && Clashes(users[k], email, username)
  }

  /** The guarded read of `req.files.coverImage[0].path`, which never throws. */
  function CoverPath(files: Option<Files>): (r: Option<string>)
    ensures r.Some? <==> files.Some? && "coverImage" in files.value && files.value["coverImage"] != []
    ensures r.Some? ==> r.value == files.value["coverImage"][0]
  {
    if files.Some? && "coverImage" in files.value && files.value["coverImage"] != [] then Some(files.value["coverImage"][0])
    else None
  }

  /** A user as the handlers return it: `select("-password -refreshToken")`. */
  datatype PublicUser = PublicUser(id: Id, username: string, email: string, fullName: string, avatar: string,
                                   coverImage: string, watchHistory: seq<Id>, createdAt: int)

  function Public(id: Id, u: User): PublicUser {
    PublicUser(id, u.username, u.email, u.fullName, u.avatar, u.coverImage, u.watchHistory, u.createdAt)
  }

  /** The record `User.create` receives. */
  function NewUser(req: Registration, avatar: Uploaded, cover: Option<Uploaded>, now: int): User
    requires Complete(req)
  {
    User(ToLowerCase(req.username.value), req.email.value, req.fullName.value, avatar.url,
         if cover.Some? then cover.value.url else "", req.password.value, None, [], now)
  }

  /** registerUser. Checks, in order: a blank field (400), an existing user with
      the email or the username as given (409), reading the avatar's path (500
      when the files object has no avatar field), the avatar path (400). Then
      avatar and cover image are uploaded; no avatar gives 400, an absent field
      makes the creation throw (500); otherwise the new user, with the
      username lower-cased, is answered with 201. */
  method RegisterUser(db: Store, req: Registration, files: Option<Files>, upload: Option<string> -> Option<Uploaded>, now: int)
    returns (r: Response<PublicUser>)
    requires db.Valid()
    modifies db
    ensures db.Valid()
    ensures r.Err? ==> db.State() == old(db.State()).(log := db.log)
    ensures AnyBlank(req) ==> r == Err(BadRequest) && db.State() == old(db.State())
    ensures !AnyBlank(req) && Taken(old(db.users), req.email, req.username) ==> r == Err(Conflict) && db.State() == old(db.State())
    ensures !AnyBlank(req) && !Taken(old(db.users), req.email, req.username) ==>
      var avatarPath := LocalPath(files, "avatar");
      && (avatarPath.Err? ==> r == Err(ServerError) && db.State() == old(db.State()))
      && (avatarPath.Ok? && !Truthy(avatarPath.data) ==> r == Err(BadRequest) && db.State() == old(db.State()))
      && (avatarPath.Ok? && Truthy(avatarPath.data) ==>
            && db.log == old(db.log) + [Upload(avatarPath.data), Upload(CoverPath(files))]
            && (upload(avatarPath.data).None? ==> r == Err(BadRequest))
            && (upload(avatarPath.data).Some? && !Complete(req) ==> r == Err(ServerError))
            && (upload(avatarPath.data).Some? && Complete(req) ==>
                  var u := NewUser(req, upload(avatarPath.data).value, upload(CoverPath(files)), now);
                  && r == Ok(Created, Public(old(db.nextId), u))
                  && db.State() == old(db.State()).(users := old(db.users)[old(db.nextId) := u],
                                                    log := db.log, nextId := old(db.nextId) + 1)))
  {
    if AnyBlank(req) {
      return Err(BadRequest);
    }
    if k :| k in db.users && Clashes(db.users[k], req.email, req.username) {
      return Err(Conflict);
    }
    var avatarPath := LocalPath(files, "avatar");
    if avatarPath.Err? {
      return Err(ServerError);
    }
    var coverPath := CoverPath(files);
    if !Truthy(avatarPath.data) {
      return Err(BadRequest);
    }
    r := UploadAndCreate(db, req, avatarPath.data, coverPath, upload, now);
  }

  /** The second half of registerUser: both uploads, then the creation. */
  method UploadAndCreate(db: Store, req: Registration, avatarPath: Option<string>, coverPath: Option<string>,
                         upload: Option<string> -> Option<Uploaded>, now: int)
    returns (r: Response<PublicUser>)
    requires db.Valid()
    modifies db
    ensures db.Valid()
    ensures db.log == old(db.log) + [Upload(avatarPath), Upload(coverPath)]
    ensures r.Err? ==> db.State() == old(db.State()).(log := db.log)
    ensures upload(avatarPath).None? ==> r == Err(BadRequest)
    ensures upload(avatarPath).Some? && !Complete(req) ==> r == Err(ServerError)
    ensures upload(avatarPath).Some? && Complete(req) ==>
      var u := NewUser(req, upload(avatarPath).value, upload(coverPath), now);
      && r == Ok(Created, Public(old(db.nextId), u))
      && db.State() == old(db.State()).(users := old(db.users)[old(db.nextId) := u], log := db.log, nextId := old(db.nextId) + 1)
  {
    db.log := db.log + [Upload(avatarPath)];
    var avatar := upload(avatarPath);
    db.log := db.log + [Upload(coverPath)];
    var cover := upload(coverPath);
    if avatar.None? {
      return Err(BadRequest);
    }
    if !Complete(req) {
      return Err(ServerError);
    }
    var u := NewUser(req, avatar.value, cover, now);
    var id := db.NewId();
    db.users := db.users[id := u];
    r := Ok(Created, Public(id, u));
  }

  /** A registered username holds no upper-case ASCII letter. */
  lemma RegisteredUsernameLowerCase(req: Registration, avatar: Uploaded, cover: Option<Uploaded>, now: int)
    requires Complete(req)
    ensures var name := NewUser(req, avatar, cover, now).username;
      |name| == |req.username.value| && forall i :: 0 <= i < |name| ==> !('A' <= name[i] <= 'Z')
  {
    ToLowerCaseNormalises(req.username.value);
  }

  /** The duplicate check compares the username as given while the stored one
      is lower-cased: with "alice" registered, "Alice" and another email pass
      the check, and the record handed to `User.create` has the username
      "alice" as well. (A unique index on `username`, which this model does not
      have, would make that creation fail instead.) */
  lemma CaseVariantPassesCheck(alice: User, avatar: Uploaded, now: int)
    requires alice.username == "alice" && alice.email == "a@example.com"
    ensures var req := Registration(Some("Alice"), Some("b@example.com"), Some("Alice"), Some("secret"));
      && !AnyBlank(req)
      && !Taken(map[0 := alice], req.email, req.username)
      && NewUser(req, avatar, None, now).username == alice.username
  {
    var req := Registration(Some("Alice"), Some("b@example.com"), Some("Alice"), Some("secret"));
    Visible("Alice");
    Visible("b@example.com");
    Visible("secret");
    NotTakenByAlice(alice);
    LowerAlice();
  }

  /** Neither the email nor the username as given matches that user. */
  lemma NotTakenByAlice(alice: User)
    requires alice.username == "alice" && alice.email == "a@example.com"
    ensures !Taken(map[0 := alice], Some("b@example.com"), Some("Alice"))
  {
    assert "Alice"[0] != "alice"[0];
    assert "b@example.com"[0] != "a@example.com"[0];
    assert !Clashes(alice, Some("b@example.com"), Some("Alice"));
  }

  /** The username the record is created with. */
  lemma LowerAlice()
    ensures ToLowerCase("Alice") == "alice"
  {
    var name := ToLowerCase("Alice");
    assert name[0] == 'a' && name[1] == 'l' && name[2] == 'i' && name[3] == 'c' && name[4] == 'e';
  }

  /** A field whose first character is visible is not blank. */
  lemma Visible(s: string)
    requires s != [] && !IsWhitespace(s[0])
    ensures !Blank(Some(s))
  {
  }

  // ------------------------------------------------------------------ login

  datatype Credentials = Credentials(email: Option<string>, username: Option<string>, password: Option<string>)

  datatype LoggedIn = LoggedIn(user: PublicUser, accessToken: string, refreshToken: string)

  /** `findOne({$or: [{email}, {username}]})`: the first matching user in the
      table's order. */
  function FindUser(users: map<Id, User>, email: Option<string>, username: Option<string>): (r: Option<Id>)
    ensures r.None? <==> !Taken(users, email, username)
    ensures r.Some? ==> r.value in users && Clashes(users[r.value], email, username)
    ensures r.Some? ==> forall k :: k in users && Clashes(users[k], email, username) ==> r.value <= k
  {
    if Taken(users, email, username) then
      var matching := set k | k in users && Clashes(users[k], email, username);
      var w :| w in users && Clashes(users[w], email, username);
      assert w in matching;
      assert forall k :: k in users && Clashes(users[k], email, username) ==> k in matching;
      Some(Least(matching))
    else None
  }

  /** The users table with one user's refresh token set. */
  function WithToken(users: map<Id, User>, id: Id, token: Option<string>): (r: map<Id, User>)
    ensures r.Keys == users.Keys
    ensures id in users ==> r[id] == users[id].(refreshToken := token)
    ensures forall k :: k in users && k != id ==> r[k] == users[k]
  {
    if id in users then users[id := users[id].(refreshToken := token)] else users
  }

  /** loginUser reads its fields from `req.data`, which `None` stands for when
      the request has no such property: destructuring it throws (500). Then:
      username and email both required (400), no matching user (404), a wrong
      password (401); otherwise the refresh token is stored on the user and
      both tokens are answered with the user's public view. */
  method LoginUser(db: Store, data: Option<Credentials>, passwordMatches: (User, Option<string>) -> bool,
                   accessToken: string, refreshToken: string)
    returns (r: Response<LoggedIn>)
    requires db.Valid()
    modifies db
    ensures db.Valid()
    ensures r.Err? ==> db.State() == old(db.State())
    ensures data.None? ==> r == Err(ServerError)
    ensures data.Some? && (!Truthy(data.value.username) || !Truthy(data.value.email)) ==> r == Err(BadRequest)
    ensures data.Some? && Truthy(data.value.username) && Truthy(data.value.email) ==>
      var c := data.value;
      var found := FindUser(old(db.users), c.email, c.username);
      && (found.None? ==> r == Err(NotFound))
      && (found.Some? && !passwordMatches(old(db.users)[found.value], c.password) ==> r == Err(Unauthorized))
      && (found.Some? && passwordMatches(old(db.users)[found.value], c.password) ==>
            && db.State() == old(db.State()).(users := WithToken(old(db.users), found.value, Some(refreshToken)))
            && r == Ok(OK, LoggedIn(Public(found.value, db.users[found.value]), accessToken, refreshToken)))
  {
    if data.None? {
      return Err(ServerError);
    }
    var c := data.value;
    if !Truthy(c.username) || !Truthy(c.email) {
      return Err(BadRequest);
    }
    var found := FindUser(db.users, c.email, c.username);
    if found.None? {
      return Err(NotFound);
    }
    var id := found.value;
    if !passwordMatches(db.users[id], c.password) {
      return Err(Unauthorized);
    }
    db.users := WithToken(db.users, id, Some(refreshToken));
    r := Ok(OK, LoggedIn(Public(id, db.users[id]), accessToken, refreshToken));
  }

  /** logoutUser: the acting user's refresh token is cleared; nothing else
      changes, and an id that names no user changes nothing. The update sets
      the token to `undefined`, read here as null (Mongoose 5); Mongoose 6 and
      later drop that key and leave the token in place. */
  method LogoutUser(db: Store, actor: Id) returns (r: Response<()>)
    requires db.Valid()
    modifies db
    ensures db.Valid()
    ensures r == Ok(OK, ())
    ensures db.State() == old(db.State()).(users := WithToken(old(db.users), actor, None))
  {
    db.users := WithToken(db.users, actor, None);
    r := Ok(OK, ());
  }

  /** Logging out after logging in leaves no refresh token on the user and the
      table as a logout alone would have left it. */
  lemma LogoutUndoesLogin(users: map<Id, User>, id: Id, token: string)
    ensures WithToken(WithToken(users, id, Some(token)), id, None) == WithToken(users, id, None)
    ensures id in users ==> WithToken(WithToken(users, id, Some(token)), id, None)[id].refreshToken.None?
  {
  }

  /** The public view never carries the password or the refresh token:
      changing either leaves it as it was. */
  lemma PublicHidesSecrets(id: Id, u: User, password: string, token: Option<string>)
    ensures Public(id, u.(password := password, refreshToken := token)) == Public(id, u)
  {
  }
}
