/**
 * The user look-up service (services/UserSearchService.java): the list of
 * users offered for assignment, the signed-in user added to it when it is
 * missing, and the look-up of a user by name. The answers of the Firestore
 * queries and the signed-in account are parameters.
 */
module UserSearch {
  import opened Common
  import opened Firestore
  import UserManager

  /** `UserInfo`: a user as the pickers show it. */
  datatype UserInfo = UserInfo(id: string, displayName: Option<string>, email: Option<string>)

  /** `new UserInfo(id, displayName, email)`: a null or empty display name is replaced by the e-mail. */
  function NewUserInfo(id: string, displayName: Option<string>, email: Option<string>): (u: UserInfo)
    ensures u.id == id && u.email == email
    ensures !IsEmpty(displayName) ==> u.displayName == displayName
    ensures IsEmpty(displayName) ==> u.displayName == email
  {
    UserInfo(id, if !IsEmpty(displayName) then displayName else email, email)
  }

  /**
   * `doc.getString(key)`: null for a missing or null field, the text of a
   * string field, and an exception for a field of any other type.
   */
  function GetString(d: Doc, key: string): (r: Result<Option<string>>)
    ensures r.Ok? <==> key !in d || d[key].VNull? || d[key].VStr?
    ensures r.Ok? ==> r.value == StrField(d, key)
  {
    if key !in d || d[key].VNull? then Ok(None)
    else if d[key].VStr? then Ok(Some(d[key].s))
    else Err("RuntimeException")
  }

  /** The first of the names that is neither null nor empty, the e-mail when both are. */
  function PreferredName(displayName: Option<string>, name: Option<string>, email: string): (r: string)
    ensures !IsEmpty(displayName) ==> r == displayName.value
    ensures IsEmpty(displayName) && !IsEmpty(name) ==> r == name.value
    ensures IsEmpty(displayName) && IsEmpty(name) ==> r == email
  {
    if !IsEmpty(displayName) then displayName.value
    else if !IsEmpty(name) then name.value
    else email
  }

  /**
   * What `getAllUsers` makes of one user document: nothing when reading a
   * field throws or the e-mail is null or empty; otherwise the user under
   * the document id with the preferred name.
   */
  function UserFromDoc(s: Snapshot): (r: Option<UserInfo>)
    ensures r.Some? <==> GetString(s.data, "email").Ok? && GetString(s.data, "displayName").Ok?
                         && GetString(s.data, "name").Ok? && !IsEmpty(StrField(s.data, "email"))
    ensures r.Some? ==> r.value.id == s.id && r.value.email == StrField(s.data, "email")
    ensures r.Some? ==> r.value.displayName
                        == Some(PreferredName(StrField(s.data, "displayName"), StrField(s.data, "name"), r.value.email.value))
  {
    var email := GetString(s.data, "email");
    var displayName := GetString(s.data, "displayName");
    var name := GetString(s.data, "name");
    if email.Err? || displayName.Err? || name.Err? || IsEmpty(email.value) then None
    else Some(NewUserInfo(s.id, Some(PreferredName(displayName.value, name.value, email.value.value)), email.value))
  }

  /** The users of a query answer, in its order, each document that yields one. */
  function UsersFrom(snaps: seq<Snapshot>): (r: seq<UserInfo>)
    ensures |r| <= |snaps|
    ensures forall u :: u in r ==> u.email.Some? && u.email.value != ""
  {
    if snaps == [] then []
    else
      var rest := UsersFrom(snaps[..|snaps| - 1]);
      match UserFromDoc(snaps[|snaps| - 1])
      case Some(u) => rest + [u]
      case None => rest
  }

  /** `user.id.equals(currentUserId) || user.email.equals(currentEmail)`. */
  predicate MatchesAccount(u: UserInfo, account: UserManager.AuthUser)
  {
    u.id == account.uid || (u.email.Some? && Some(u.email.value) == account.email)
  }

  /** `user.email.equals(...)` throws on a null e-mail unless the id already matched. */
  predicate SafeToScan(users: seq<UserInfo>, account: UserManager.AuthUser)
  {
    forall i :: 0 <= i < |users| ==> users[i].id == account.uid || users[i].email.Some?
  }

  /** The list after `addCurrentUserIfMissing`: the signed-in user in front, unless signed out or already listed. */
  function WithCurrentUser(users: seq<UserInfo>, auth: Option<UserManager.AuthUser>): seq<UserInfo>
  {
    if auth.None? || exists i | 0 <= i < |users| :: MatchesAccount(users[i], auth.value) then users
    else [NewUserInfo(auth.value.uid, auth.value.displayName, auth.value.email)] + users
  }

  /** `addCurrentUserIfMissing(users)`: a scan for the signed-in account, then an insert at the front. */
  method AddCurrentUserIfMissing(users: seq<UserInfo>, auth: Option<UserManager.AuthUser>) returns (r: seq<UserInfo>)
    requires auth.Some? ==> SafeToScan(users, auth.value)
    ensures r == WithCurrentUser(users, auth)
  {
    if auth.None? {
      return users;
    }
    var found := false;
    var i := 0;
    while i < |users| && !found
      invariant 0 <= i <= |users|
      invariant found <==> exists j | 0 <= j < i :: MatchesAccount(users[j], auth.value)
    {
      if users[i].id == auth.value.uid || Some(users[i].email.value) == auth.value.email {
        found := true;
      }
      i := i + 1;
    }
    if found {
      r := users;
    } else {
      r := [NewUserInfo(auth.value.uid, auth.value.displayName, auth.value.email)] + users;
    }
  }

  /**
   * Adding the signed-in user keeps every listed user, in order, adds at
   * most one entry, in front, and only when no entry matched; afterwards
   * the account is listed, and a second call changes nothing.
   */
  lemma WithCurrentUserFacts(users: seq<UserInfo>, auth: Option<UserManager.AuthUser>)
    ensures auth.None? ==> WithCurrentUser(users, auth) == users
    ensures var r := WithCurrentUser(users, auth);
            r == users || (|r| == |users| + 1 && r[1..] == users && r[0].id == auth.value.uid)
    ensures auth.Some? ==> exists i | 0 <= i < |WithCurrentUser(users, auth)| :: MatchesAccount(WithCurrentUser(users, auth)[i], auth.value)
    ensures WithCurrentUser(WithCurrentUser(users, auth), auth) == WithCurrentUser(users, auth)
  {
    if auth.Some? {
      var r := WithCurrentUser(users, auth);
      if r != users {
        assert MatchesAccount(r[0], auth.value);
      }
    }
  }

  /** A list that was safe to scan stays safe after the signed-in user is added. */
  lemma WithCurrentUserSafe(users: seq<UserInfo>, auth: Option<UserManager.AuthUser>)
    requires auth.Some? && SafeToScan(users, auth.value)
    ensures SafeToScan(WithCurrentUser(users, auth), auth.value)
  {
  }

  /**
   * `getAllUsers(listener)`: on success every document with a non-empty
   * e-mail becomes a user, in order, and the signed-in user is added when
   * missing; on failure the list holds only the signed-in user. The
   * listener always receives a list.
   */
  method GetAllUsers(fetched: Result<seq<Snapshot>>, auth: Option<UserManager.AuthUser>) returns (users: seq<UserInfo>)
    ensures fetched.Ok? ==> users == WithCurrentUser(UsersFrom(fetched.value), auth)
    ensures fetched.Err? ==> users == WithCurrentUser([], auth)
  {
    if fetched.Err? {
      users := AddCurrentUserIfMissing([], auth);
      return;
    }
    var snaps := fetched.value;
    var loaded: seq<UserInfo> := [];
    for i := 0 to |snaps|
      invariant loaded == UsersFrom(snaps[..i])
    {
      assert snaps[..i + 1][..i] == snaps[..i];
      var u := UserFromDoc(snaps[i]);
      if u.Some? {
        loaded := loaded + [u.value];
      }
    }
    assert snaps[..|snaps|] == snaps;
    users := AddCurrentUserIfMissing(loaded, auth);
  }

  /** The users `getAllUsers` delivers all have an e-mail, except possibly the signed-in one added in front. */
  lemma {:induction false} AllUsersHaveEmails(snaps: seq<Snapshot>, auth: Option<UserManager.AuthUser>, i: int)
    requires 0 <= i < |WithCurrentUser(UsersFrom(snaps), auth)|
    ensures var r := WithCurrentUser(UsersFrom(snaps), auth);
            r[i].email.Some? || (i == 0 && auth.Some? && r[0].id == auth.value.uid && r[0].email == auth.value.email)
  {
    var l := UsersFrom(snaps);
    var r := WithCurrentUser(l, auth);
    if r != l && i > 0 {
      assert r[i] == l[i - 1] && l[i - 1] in l;
    } else if r == l {
      assert r[i] in l;
    }
  }

  /** What a look-up reports: the user's id, display name and e-mail; not found; or an error. */
  datatype Lookup = Found(userId: string, userName: Option<string>, userEmail: Option<string>) | NotFound | Error(message: string)

  /** The first document of a non-empty answer, as reported to the listener. */
  function FirstFound(snaps: seq<Snapshot>): (r: Lookup)
    requires snaps != []
    ensures r.Found? && r.userId == snaps[0].id
  {
    Found(snaps[0].id, StrField(snaps[0].data, "displayName"), StrField(snaps[0].data, "email"))
  }

  /**
   * `searchUserByField(field, value)`: the first match; when none, "name"
   * goes on to "email" and "email" reports not found; a failed query on
   * "email" is also not found, on the other fields an error.
   * `query(field, value)` is the server's answer to `whereEqualTo(field, value)`.
   */
  function SearchUserByField(field: string, value: string, query: (string, string) -> Result<seq<Snapshot>>): (r: Lookup)
    requires field == "name" || field == "email"
    ensures query(field, value).Ok? && query(field, value).value != [] ==> r == FirstFound(query(field, value).value)
    ensures field == "email" && (query(field, value).Err? || query(field, value).value == []) ==> r == NotFound
    ensures field == "name" && query(field, value).Err? ==> r == Error("Lỗi khi tìm kiếm: " + query(field, value).error)
    decreases if field == "name" then 1 else 0
  {
    var answer := query(field, value);
    if answer.Err? then
      (if field == "email" then NotFound else Error("Lỗi khi tìm kiếm: " + answer.error))
    else if answer.value != [] then FirstFound(answer.value)
    else if field == "name" then SearchUserByField("email", value, query)
    else NotFound
  }

  /**
   * `findUserByName(searchName)`: a null or blank name is not found without
   * any query; otherwise the trimmed name is looked up by display name, then
   * by name, then by e-mail.
   */
  function FindUserByName(searchName: Option<string>, query: (string, string) -> Result<seq<Snapshot>>): (r: Lookup)
    ensures searchName.None? || Trim(searchName.value) == [] ==> r == NotFound
  {
    if searchName.None? || Trim(searchName.value) == [] then NotFound
    else
      var term := Trim(searchName.value);
      var answer := query("displayName", term);
      if answer.Err? then Error("Lỗi khi tìm kiếm người dùng: " + answer.error)
      else if answer.value != [] then FirstFound(answer.value)
      else SearchUserByField("name", term, query)
  }

  /**
   * The look-up order: a user found by display name wins; failing that one
   * found by name; failing that one found by e-mail; a failed e-mail query
   * is "not found", never an error. A blank name queries nothing, so the
   * answer does not depend on the server.
   */
  lemma LookupOrder(searchName: string, query: (string, string) -> Result<seq<Snapshot>>,
                    other: (string, string) -> Result<seq<Snapshot>>)
    requires Trim(searchName) != []
    ensures var t := Trim(searchName);
            var r := FindUserByName(Some(searchName), query);
            (query("displayName", t).Ok? && query("displayName", t).value != [] ==> r == FirstFound(query("displayName", t).value))
            && (query("displayName", t) == Ok([]) && query("name", t).Ok? && query("name", t).value != []
                ==> r == FirstFound(query("name", t).value))
            && (query("displayName", t) == Ok([]) && query("name", t) == Ok([]) && query("email", t).Ok? && query("email", t).value != []
                ==> r == FirstFound(query("email", t).value))
            && (query("displayName", t) == Ok([]) && query("name", t) == Ok([]) ==> !r.Error?)
    ensures FindUserByName(Some(""), query) == FindUserByName(Some(""), other) == NotFound
  {
    assert Trim("") == [];
  }

  /** The document `saveCurrentUserToFirestore` writes under the uid: it holds no "id" field. */
  function SavedUserData(account: UserManager.AuthUser, now: int): (d: Doc)
    ensures d.Keys == {"email", "displayName", "name", "createdAt", "lastLoginAt", "isActive"}
    ensures "id" !in d
    ensures StrField(d, "displayName") == (if account.displayName.Some? then account.displayName else account.email)
    ensures d["isActive"] == VBool(true)
  {
    map["email" := StrValue(account.email),
        "displayName" := StrValue(if account.displayName.Some? then account.displayName else account.email),
        "name" := StrValue(account.displayName),
        "createdAt" := VDate(now),
        "lastLoginAt" := VDate(now),
        "isActive" := VBool(true)]
  }
}
