/** The account and session store of routes/auth.js: a list of users, a map from
    session token to user id, and the handlers for register, login, logout, me and
    profile. Generated ids, tokens and timestamps are parameters. */
module Auth {
  import opened Common

  /** A registered account; the password is kept as given. */
  datatype User = User(id: string, username: string, password: string, profile: Object, createdAt: string)

  /** The bodies of the successful responses. */
  datatype RegisterBody = RegisterBody(token: string, userId: string, username: string)
  datatype LoginBody = LoginBody(token: string, userId: string, username: string, profile: Object)
  datatype UserView = UserView(userId: string, username: string, profile: Object)

  const MissingCredentials := "Username and password are required."
  const UsernameTaken := "Username already taken."
  const InvalidCredentials := "Invalid username or password."
  const LoggedOut := "Logged out."
  const NotAuthenticated := "Not authenticated."
  const UserNotFound := "User not found."
  const BearerPrefix := "Bearer "

  /** The token of an `Authorization` header: the text after a leading "Bearer ". A
      missing header reads as the empty string. */
  function ExtractToken(header: Option<string>): (r: Option<string>)
    ensures r.Some? <==> header.Some? && |header.value| >= |BearerPrefix| && header.value[..|BearerPrefix|] == BearerPrefix
    ensures r.Some? ==> header.value == BearerPrefix + r.value
  {
    var h := if header.Some? then header.value else "";
    if |h| >= |BearerPrefix| && h[..|BearerPrefix|] == BearerPrefix then
      assert h == h[..|BearerPrefix|] + h[|BearerPrefix|..];
      Some(h[|BearerPrefix|..])
    else None
  }

  /** Any token sent after "Bearer " is read back unchanged. */
  lemma ExtractTokenRoundTrip(token: string)
    ensures ExtractToken(Some(BearerPrefix + token)) == Some(token)
  {
  }

  /** `findUser`: the first user whose name equals `name` ignoring case. */
  function FindUser(users: seq<User>, name: string): (r: Option<nat>)
    ensures r.Some? ==> r.value < |users| && SameIgnoringCase(users[r.value].username, name)
    ensures r.Some? ==> forall j :: 0 <= j < r.value ==> !SameIgnoringCase(users[j].username, name)
    ensures r.None? <==> forall j :: 0 <= j < |users| ==> !SameIgnoringCase(users[j].username, name)
  {
    FirstWhere(users, (u: User) => SameIgnoringCase(u.username, name))
  }

  /** `getUserById`: the first user with this id. */
  function GetUserById(users: seq<User>, id: string): (r: Option<nat>)
    ensures r.Some? ==> r.value < |users| && users[r.value].id == id
    ensures r.None? <==> forall j :: 0 <= j < |users| ==> users[j].id != id
  {
    FirstWhere(users, (u: User) => u.id == id)
  }

  function Ids(users: seq<User>): set<string> {
    set u | u in users :: u.id
  }

  /** `getUserById` finds exactly the ids of registered users. */
  lemma {:induction false} FoundIffRegistered(users: seq<User>, id: string)
    ensures GetUserById(users, id).Some? <==> id in Ids(users)
  {
  }

  /** Appending a user adds its id to the registered ids. */
  lemma IdsAppend(users: seq<User>, u: User)
    ensures Ids(users + [u]) == Ids(users) + {u.id}
  {
  }

  /** Replacing a user by one with the same id keeps the registered ids. */
  lemma IdsUpdate(users: seq<User>, i: nat, u: User)
    requires i < |users| && u.id == users[i].id
    ensures Ids(users[i := u]) == Ids(users)
  {
    var updated := users[i := u];
    forall x ensures x in Ids(updated) <==> x in Ids(users) {
      if x in Ids(users) {
        var v :| v in users && v.id == x;
        var j :| 0 <= j < |users| && users[j] == v;
        assert updated[j].id == x;
      }
      if x in Ids(updated) {
        var v :| v in updated && v.id == x;
        var j :| 0 <= j < |updated| && updated[j] == v;
        assert users[j].id == x;
      }
    }
  }

  /** Ids are unique and non-empty, no session has the empty token, and every
      session belongs to a registered user. */
  ghost predicate Consistent(users: seq<User>, sessions: map<string, string>) {
    && (forall i, j :: 0 <= i < j < |users| ==> users[i].id != users[j].id)
    && (forall i :: 0 <= i < |users| ==> users[i].id != "")
    && "" !in sessions
    && (forall t :: t in sessions ==> sessions[t] in Ids(users))
  }

  /** Registering a user with a fresh id and opening a session for it keeps the
      store consistent. */
  lemma RegisterConsistent(users: seq<User>, sessions: map<string, string>, u: User, token: string)
    requires Consistent(users, sessions)
    requires u.id != "" && u.id !in Ids(users) && token != ""
    ensures Consistent(users + [u], sessions[token := u.id])
  {
  }

  ghost predicate DistinctNames(users: seq<User>) {
    forall i, j :: 0 <= i < j < |users| ==> !SameIgnoringCase(users[i].username, users[j].username)
  }

  /** A user whose name matches no earlier name keeps the names distinct. */
  lemma NamesAppend(users: seq<User>, u: User)
    requires DistinctNames(users)
    requires forall j :: 0 <= j < |users| ==> !SameIgnoringCase(users[j].username, u.username)
    ensures DistinctNames(users + [u])
  {
  }

  /** The names every plain JavaScript object inherits from Object.prototype: a
      lookup `sessions[key]` with one of them yields an inherited member. */
  const InheritedNames: set<string> := {
    "constructor", "__proto__", "hasOwnProperty", "isPrototypeOf", "propertyIsEnumerable",
    "toLocaleString", "toString", "valueOf", "__defineGetter__", "__defineSetter__",
    "__lookupGetter__", "__lookupSetter__"
  }

  class AuthStore {
    var users: seq<User>
    var sessions: map<string, string>

    ghost predicate Valid()
      reads this
    {
      Consistent(users, sessions)
    }

    /** No two users have names that are equal ignoring case. */
    ghost predicate NamesUnique()
      reads this
    {
      DistinctNames(users)
    }

    constructor ()
      ensures Valid() && NamesUnique()
      ensures users == [] && sessions == map[]
    {
      users := [];
      sessions := map[];
    }

    /** The guard `!token || !sessions[token]` of the protected routes, with
        `sessions` read as a map of its own keys: the token when it opens a session. */
    function SessionToken(header: Option<string>): (r: Option<string>)
      reads this
      ensures r.Some? <==>
        && ExtractToken(header).Some? && ExtractToken(header).value != ""
        && ExtractToken(header).value in sessions && sessions[ExtractToken(header).value] != ""
      ensures r.Some? ==> header == Some(BearerPrefix + r.value) && r.value in sessions
    {
      var t := ExtractToken(header);
      if t.Some? && t.value != "" && t.value in sessions && sessions[t.value] != "" then t else None
    }

    /** POST /register. */
    method Register(username: Option<string>, password: Option<string>, profile: Option<Object>,
                    id: string, token: string, now: string) returns (r: Response<RegisterBody>)
      requires Valid()
      requires id != "" && id !in Ids(users)
      requires token != "" && token !in sessions
      modifies this
      ensures Valid()
      ensures r.BadRequest? <==> !Truthy(username) || !Truthy(password)
      ensures r.BadRequest? ==>
        r.error == MissingCredentials && users == old(users) && sessions == old(sessions)
      ensures r.Conflict? <==>
        Truthy(username) && Truthy(password) &&
        exists j :: 0 <= j < |old(users)| && SameIgnoringCase(old(users)[j].username, username.value)
      ensures r.Conflict? ==> r.error == UsernameTaken && users == old(users) && sessions == old(sessions)
      ensures r.Created? ==>
        var name := Trim(username.value);
        && r.body == RegisterBody(token, id, name)
        && users == old(users) + [User(id, name, password.value, if profile.Some? then profile.value else map[], now)]
        && sessions == old(sessions)[token := id]
      ensures r.BadRequest? || r.Conflict? || r.Created?
      ensures Truthy(username) && Trim(username.value) == username.value && old(NamesUnique()) ==> NamesUnique()
    {
      if !Truthy(username) || !Truthy(password) {
        return BadRequest(MissingCredentials);
      }
      if FindUser(users, username.value).Some? {
        return Conflict(UsernameTaken);
      }
      var user := User(id, Trim(username.value), password.value, if profile.Some? then profile.value else map[], now);
      RegisterConsistent(users, sessions, user, token);
      if Trim(username.value) == username.value && NamesUnique() {
        NamesAppend(users, user);
      }
      users := users + [user];
      sessions := sessions[token := id];
      r := Created(RegisterBody(token, id, user.username));
    }

    /** POST /login: the first user whose name matches ignoring case must have
        exactly this password. */
    method Login(username: Option<string>, password: Option<string>, token: string)
      returns (r: Response<LoginBody>)
      requires Valid()
      requires token != "" && token !in sessions
      modifies this
      ensures Valid() && users == old(users)
      ensures !Truthy(username) || !Truthy(password) ==>
        r == BadRequest(MissingCredentials) && sessions == old(sessions)
      ensures Truthy(username) && Truthy(password) ==>
        match FindUser(users, username.value)
        case None => r == Unauthorized(InvalidCredentials) && sessions == old(sessions)
        case Some(i) =>
          if users[i].password == password.value then
            && r == Ok(LoginBody(token, users[i].id, users[i].username, users[i].profile))
            && sessions == old(sessions)[token := users[i].id]
          else
            r == Unauthorized(InvalidCredentials) && sessions == old(sessions)
    {
      if !Truthy(username) || !Truthy(password) {
        return BadRequest(MissingCredentials);
      }
      var found := FindUser(users, username.value);
      if found.None? || users[found.value].password != password.value {
        return Unauthorized(InvalidCredentials);
      }
      var user := users[found.value];
      assert user.id in Ids(users);
      sessions := sessions[token := user.id];
      r := Ok(LoginBody(token, user.id, user.username, user.profile));
    }

    /** POST /logout: drops the header's token, and only it, if it opens a session. */
    method Logout(header: Option<string>) returns (r: Response<string>)
      requires Valid()
      modifies this
      ensures Valid() && users == old(users)
      ensures r == Ok(LoggedOut)
      ensures ExtractToken(header).Some? ==> sessions == old(sessions) - {ExtractToken(header).value}
      ensures ExtractToken(header).None? ==> sessions == old(sessions)
      ensures SessionToken(header).None?
    {
      var t := SessionToken(header);
      if t.Some? {
        sessions := sessions - {t.value};
      }
      r := Ok(LoggedOut);
    }

    /** GET /me. Unauthenticated requests get 401; a session whose user is missing
        gets 404, which `Valid()` rules out. */
    function Me(header: Option<string>): (r: Response<UserView>)
      reads this
      ensures SessionToken(header).None? <==> r == Unauthorized(NotAuthenticated)
      ensures r.Ok? ==>
        && SessionToken(header).Some?
        && r.body.userId == sessions[SessionToken(header).value]
        && exists u :: u in users && u.id == r.body.userId && r.body == UserView(u.id, u.username, u.profile)
      ensures r.Ok? || r == Unauthorized(NotAuthenticated) || r == NotFound(UserNotFound)
      ensures Valid() ==> !r.NotFound?
    {
      var t := SessionToken(header);
      if t.None? then Unauthorized(NotAuthenticated)
      else
        var found := GetUserById(users, sessions[t.value]);
        if found.None? then
          FoundIffRegistered(users, sessions[t.value]);
          NotFound(UserNotFound)
        else
          var u := users[found.value];
          assert u in users;
          Ok(UserView(u.id, u.username, u.profile))
    }

    /** GET /me as written, where `sessions[token]` on a plain object also finds the
        members inherited from Object.prototype: such a member is truthy and is no
        user's id. */
    function MeAsWritten(header: Option<string>): (r: Response<UserView>)
      reads this
      ensures SessionToken(header).Some? ==> r == Me(header)
      ensures Valid() ==>
        (r != Me(header) <==>
          ExtractToken(header).Some? && ExtractToken(header).value in InheritedNames
          && ExtractToken(header).value !in sessions)
      ensures (ExtractToken(header).Some? && ExtractToken(header).value in InheritedNames
               && ExtractToken(header).value !in sessions) ==> r == NotFound(UserNotFound)
    {
      var t := ExtractToken(header);
      if t.None? || t.value == "" then Unauthorized(NotAuthenticated)
      else if t.value in sessions then
        (if sessions[t.value] == "" then Unauthorized(NotAuthenticated)
         else match GetUserById(users, sessions[t.value])
           case None => NotFound(UserNotFound)
           case Some(i) => Ok(UserView(users[i].id, users[i].username, users[i].profile)))
      else if t.value in InheritedNames then NotFound(UserNotFound)
      else Unauthorized(NotAuthenticated)
    }

    /** PUT /profile: shallow merge of the body over the caller's profile, body keys
        winning; no other user and no session changes. */
    method UpdateProfile(header: Option<string>, body: Object) returns (r: Response<Object>)
      requires Valid()
      modifies this
      ensures Valid() && sessions == old(sessions)
      ensures old(SessionToken(header)).None? ==> r == Unauthorized(NotAuthenticated) && users == old(users)
      ensures old(SessionToken(header)).Some? ==>
        exists i :: 0 <= i < |old(users)| && old(users)[i].id == old(sessions)[old(SessionToken(header)).value]
          && users == old(users)[i := old(users)[i].(profile := old(users)[i].profile + body)]
          && r == Ok(old(users)[i].profile + body)
      ensures r.Ok? || r == Unauthorized(NotAuthenticated)
    {
      var t := SessionToken(header);
      if t.None? {
        return Unauthorized(NotAuthenticated);
      }
      FoundIffRegistered(users, sessions[t.value]);
      // `Valid()` makes the 404 branch of the source unreachable.
      var i := GetUserById(users, sessions[t.value]).value;
      var merged := users[i].profile + body;
      IdsUpdate(users, i, users[i].(profile := merged));
      users := users[i := users[i].(profile := merged)];
      r := Ok(merged);
    }
  }

  /** The merge of PUT /profile keeps every key the body does not name and takes
      every key the body names from the body. */
  lemma ProfileMerge(profile: Object, body: Object)
    ensures (profile + body).Keys == profile.Keys + body.Keys
    ensures forall k :: k in body ==> (profile + body)[k] == body[k]
    ensures forall k :: k in profile && k !in body ==> (profile + body)[k] == profile[k]
  {
  }

  /** A session named after an Object.prototype member reaches the 404 of GET /me,
      though every session belongs to a user. */
  lemma InheritedNameReachesNotFound(s: AuthStore)
    requires s.Valid() && "constructor" !in s.sessions
    ensures s.MeAsWritten(Some("Bearer constructor")) == NotFound(UserNotFound)
    ensures s.Me(Some("Bearer constructor")) == Unauthorized(NotAuthenticated)
  {
  }

  /** A name padded with a leading space trims back to the name, yet differs from
      it ignoring case. */
  lemma PaddedName(name: string)
    requires name != "" && Trim(name) == name
    ensures Trim(" " + name) == name
    ensures !SameIgnoringCase(name, " " + name)
  {
  }

  /** A fresh store after registering `name`. */
  method RegisterFirst(name: string, pw: string) returns (s: AuthStore)
    requires name != "" && Trim(name) == name && pw != ""
    ensures fresh(s) && s.Valid()
    ensures s.users == [User("id1", name, pw, map[], "t1")]
    ensures s.sessions == map["token1" := "id1"]
  {
    s := new AuthStore();
    var r := s.Register(Some(name), Some(pw), None, "id1", "token1", "t1");
    assert r.Created?;
  }

  /** The store of RegisterFirst after registering `name` again with a leading space:
      the duplicate check compares the untrimmed name, the store keeps it trimmed,
      so the registration succeeds. */
  method RegisterPadded(name: string, pw1: string, pw2: string) returns (s: AuthStore)
    requires name != "" && Trim(name) == name
    requires pw1 != "" && pw2 != ""
    ensures fresh(s) && s.Valid()
    ensures s.users == [User("id1", name, pw1, map[], "t1"), User("id2", name, pw2, map[], "t2")]
    ensures s.sessions == map["token1" := "id1", "token2" := "id2"]
  {
    PaddedName(name);
    s := RegisterFirst(name, pw1);
    assert Ids(s.users) == {"id1"} by { assert s.users[0].id == "id1"; }
    assert !SameIgnoringCase(s.users[0].username, " " + name);
    var r := s.Register(Some(" " + name), Some(pw2), None, "id2", "token2", "t2");
    assert r.Created?;
  }

  /** After RegisterPadded the store holds two users with one name, and the second
      cannot log in with its own password: login finds the first. */
  method TrimQuirk(name: string, pw1: string, pw2: string) returns (s: AuthStore, second: Response<LoginBody>)
    requires name != "" && Trim(name) == name
    requires pw1 != "" && pw2 != "" && pw1 != pw2
    ensures |s.users| == 2 && s.users[0].username == name && s.users[1].username == name
    ensures !s.NamesUnique()
    ensures second == Unauthorized(InvalidCredentials)
  {
    s := RegisterPadded(name, pw1, pw2);
    assert FindUser(s.users, name) == Some(0);
    second := s.Login(Some(name), Some(pw2), "token3");
  }
}
