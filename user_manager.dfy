/**
 * The current-user helper (utils/UserManager.java). It combines the signed-in
 * Firebase account, given here as a parameter, with values cached in the
 * app's shared preferences, which the class holds as a string map. Its own
 * `Role` enumeration has the same three values and stored strings as
 * `User.Role`, and the same `fromString`, so the model reuses `Users.Role`.
 */
module UserManager {
  import opened Common
  import opened Users

  const KeyUserName := "USER_NAME"
  const KeyUserEmail := "USER_EMAIL"
  const KeyUserId := "USER_ID"
  const KeyUserRole := "USER_ROLE"

  /** The name used when nothing better is known. */
  const DefaultName := "Tôi"

  /** The signed-in Firebase account. */
  datatype AuthUser = AuthUser(uid: string, email: Option<string>, displayName: Option<string>)

  /** The part of an e-mail address before its first `@`. */
  function EmailPrefix(email: string): (r: Option<string>)
    ensures r.Some? <==> '@' in email
    ensures r.Some? ==> '@' !in r.value && StartsWith(email, r.value + ['@'])
  {
    var i := IndexOf(email, '@');
    if i < 0 then None
    else
      assert email[..i + 1] == email[..i] + ['@'];
      Some(email[..i])
  }

  class UserManager {
    /** The `USER_PREF` shared preferences. */
    var prefs: map<string, string>

    constructor(prefs: map<string, string>)
      ensures this.prefs == prefs
    {
      this.prefs := prefs;
    }

    /** `preferences.getString(key, null)`. */
    function Pref(key: string): (r: Option<string>)
      reads this
      ensures r.Some? <==> key in prefs
    {
      if key in prefs then Some(prefs[key]) else None
    }

    /**
     * `getCurrentUserDisplayName()`: the account's non-empty display name,
     * else the part of its e-mail before `@`, else the saved non-empty name,
     * else "Tôi". `substring(0, indexOf('@'))` throws when the account's
     * e-mail has no `@`.
     */
    function CurrentUserDisplayName(auth: Option<AuthUser>): (r: Result<string>)
      reads this
      ensures r.Err? <==> auth.Some? && IsEmpty(auth.value.displayName)
                            && auth.value.email.Some? && '@' !in auth.value.email.value
      ensures auth.Some? && !IsEmpty(auth.value.displayName) ==> r == Ok(auth.value.displayName.value)
      ensures auth.Some? && IsEmpty(auth.value.displayName) && auth.value.email.Some? && r.Ok? ==>
                '@' !in r.value && StartsWith(auth.value.email.value, r.value + ['@'])
      ensures (auth.None? || (IsEmpty(auth.value.displayName) && auth.value.email.None?)) ==>
                r == Ok(if IsEmpty(Pref(KeyUserName)) then DefaultName else prefs[KeyUserName])
    {
      if auth.Some? && !IsEmpty(auth.value.displayName) then
        Ok(auth.value.displayName.value)
      else if auth.Some? && auth.value.email.Some? then
        match EmailPrefix(auth.value.email.value)
        case Some(name) => Ok(name)
        case None => Err("StringIndexOutOfBoundsException")
      else if !IsEmpty(Pref(KeyUserName)) then
        Ok(prefs[KeyUserName])
      else
        Ok(DefaultName)
    }

    /** `getCurrentUserEmail()`: the account's e-mail, else the saved one, else "". */
    function CurrentUserEmail(auth: Option<AuthUser>): (r: string)
      reads this
      ensures auth.Some? && auth.value.email.Some? ==> r == auth.value.email.value
      ensures !(auth.Some? && auth.value.email.Some?) ==> r == Pref(KeyUserEmail).GetOr("")
    {
      if auth.Some? && auth.value.email.Some? then auth.value.email.value
      else Pref(KeyUserEmail).GetOr("")
    }

    /** `getCurrentUserId()`: the account's uid, else the saved id, else "". */
    function CurrentUserId(auth: Option<AuthUser>): (r: string)
      reads this
      ensures auth.Some? ==> r == auth.value.uid
      ensures auth.None? ==> r == Pref(KeyUserId).GetOr("")
    {
      if auth.Some? then auth.value.uid else Pref(KeyUserId).GetOr("")
    }

    /**
     * `isCurrentUser(senderName, senderEmail)`: a message is the current
     * user's when its non-null sender name equals the current display name or
     * its non-null sender e-mail equals the current e-mail.
     */
    function IsCurrentUser(auth: Option<AuthUser>, senderName: Option<string>, senderEmail: Option<string>): (r: Result<bool>)
      reads this
      ensures r.Err? <==> CurrentUserDisplayName(auth).Err?
      ensures r.Ok? ==> (r.value <==> senderName == Some(CurrentUserDisplayName(auth).value)
                                       || senderEmail == Some(CurrentUserEmail(auth)))
    {
      match CurrentUserDisplayName(auth)
      case Err(e) => Err(e)
      case Ok(name) =>
        Ok((senderName.Some? && senderName.value == name)
           || (senderEmail.Some? && senderEmail.value == CurrentUserEmail(auth)))
    }

    /** `getCurrentUserRole()`: the cached role, MEMBER when none is cached or it is unknown. */
    function CurrentUserRole(): (r: Role)
      reads this
      ensures KeyUserRole !in prefs ==> r == Member
      ensures KeyUserRole in prefs ==> r == RoleFromString(Some(prefs[KeyUserRole]))
    {
      RoleFromString(Some(Pref(KeyUserRole).GetOr(RoleValue(Member))))
    }

    predicate CanManageUsers() reads this { CurrentUserRole() == Admin }
    predicate IsAdmin() reads this { CurrentUserRole() == Admin }
    predicate CanManageBudget() reads this { CurrentUserRole() == Manager || CurrentUserRole() == Admin }
    predicate CanAssignTasks() reads this { CurrentUserRole() == Manager || CurrentUserRole() == Admin }
    predicate IsManagerOrAdmin() reads this { CurrentUserRole() == Manager || CurrentUserRole() == Admin }

    /**
     * The role predicates: the two ADMIN-only ones always agree, the three
     * MANAGER-or-ADMIN ones always agree, and the first implies the second.
     */
    lemma RolePredicates()
      ensures CanManageUsers() == IsAdmin() && (IsAdmin() <==> CurrentUserRole() == Admin)
      ensures CanManageBudget() == CanAssignTasks() == IsManagerOrAdmin()
      ensures IsManagerOrAdmin() <==> CurrentUserRole() != Member
      ensures IsAdmin() ==> IsManagerOrAdmin()
    {
    }

    /** `saveUserRole(role)`: caches the role's stored string; the cached role is then `role`. */
    method SaveUserRole(role: Role)
      modifies this
      ensures prefs == old(prefs)[KeyUserRole := RoleValue(role)]
      ensures CurrentUserRole() == role
    {
      prefs := prefs[KeyUserRole := RoleValue(role)];
      RoleRoundTrip(role);
    }

    /** `saveUserDisplayName(name)`; putting a null string removes the key. */
    method SaveUserDisplayName(name: Option<string>)
      modifies this
      ensures name.Some? ==> prefs == old(prefs)[KeyUserName := name.value]
      ensures name.None? ==> prefs == old(prefs) - {KeyUserName}
    {
      if name.Some? {
        prefs := prefs[KeyUserName := name.value];
      } else {
        prefs := prefs - {KeyUserName};
      }
    }

    /** `clearUserData()`: forgets everything cached; the role reads as MEMBER afterwards. */
    method ClearUserData()
      modifies this
      ensures prefs == map[]
      ensures CurrentUserRole() == Member && CurrentUserId(None) == "" && CurrentUserEmail(None) == ""
    {
      prefs := map[];
    }

    /**
     * `loadUserRole`: with no current user id nothing is read and the
     * listener gets an error; otherwise the caller's user document is read.
     * Returns the document id to read.
     */
    function LoadUserRoleTarget(auth: Option<AuthUser>): (r: Result<string>)
      reads this
      ensures r.Err? <==> CurrentUserId(auth) == ""
      ensures r.Ok? ==> r.value == CurrentUserId(auth)
    {
      var id := CurrentUserId(auth);
      if id == "" then Err("User ID is null") else Ok(id)
    }

    /**
     * The success callback of `loadUserRole`: the role of an existing user
     * document (MEMBER when its `role` is missing or unknown), MEMBER for a
     * missing document; the role is cached and reported.
     */
    method OnUserDocumentLoaded(doc: Option<Doc>) returns (role: Role)
      modifies this
      ensures doc.Some? ==> role == RoleFromString(StrField(doc.value, "role"))
      ensures doc.None? ==> role == Member
      ensures prefs == old(prefs)[KeyUserRole := RoleValue(role)]
      ensures CurrentUserRole() == role
    {
      if doc.Some? {
        role := FromString(StrField(doc.value, "role"));
      } else {
        role := Member;
      }
      SaveUserRole(role);
    }
  }
}
