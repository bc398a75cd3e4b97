/**
 * The administrator's user screen (activities/UserManagementActivity.java):
 * who may open it, the users it lists, the role dialog with its guard
 * against demoting oneself, and the active toggle with its guard against
 * deactivating oneself. The screen's list is a field; the `users`
 * collection is a `Firestore.Collection`; the dialogs' confirmations are
 * the calls of the write methods.
 */
module UserManagement {
  import opened Common
  import opened Firestore
  import opened Users
  import UserManager
  import UserSearch

  /** The message shown when one tries to demote oneself. */
  const NoSelfDemotion := "Bạn không thể hạ cấp chính mình"
  /** The message shown when one tries to deactivate oneself. */
  const NoSelfDeactivation := "Bạn không thể tắt tài khoản của chính mình"

  /** The entries of the role dialog and the role each one selects. */
  const RoleLabels: seq<string> := ["Member", "Manager", "Admin"]
  const RoleChoices: seq<Role> := [Member, Manager, Admin]

  /** `onCreate`: the screen stays open only for a user whose cached role may manage users, ADMIN. */
  function MayOpen(um: UserManager.UserManager): (r: bool)
    reads um
    ensures r <==> um.CurrentUserRole() == Admin
    ensures UserManager.KeyUserRole !in um.prefs ==> !r
  {
    um.CanManageUsers()
  }

  /** The entry the role dialog preselects: MANAGER 1, ADMIN 2, anything else 0; it is the entry of that role. */
  function RoleIndex(role: Role): (i: int)
    ensures 0 <= i < |RoleChoices| && RoleChoices[i] == role
  {
    match role
    case Manager => 1
    case Admin => 2
    case Member => 0
  }

  /** Choosing an entry and preselecting its role lead back to the same entry. */
  lemma RoleIndexRoundTrip(which: int)
    requires 0 <= which < |RoleChoices|
    ensures RoleIndex(RoleChoices[which]) == which
  {
  }

  /**
   * The role dialog's click handler: `user.getId().equals(currentUserId)`
   * throws when the user has no id; choosing anything but ADMIN for one's
   * own account is refused (`None`); otherwise the chosen role goes on to
   * the confirmation.
   */
  function RoleChoice(u: User, which: int, currentUserId: string): (r: Result<Option<Role>>)
    requires 0 <= which < |RoleChoices|
    ensures r.Err? <==> u.id.None?
    ensures r == Ok(None) <==> u.id == Some(currentUserId) && RoleChoices[which] != Admin
    ensures r.Ok? && r.value.Some? ==> r.value.value == RoleChoices[which]
  {
    if u.id.None? then Err("NullPointerException")
    else if u.id.value == currentUserId && RoleChoices[which] != Admin then Ok(None)
    else Ok(Some(RoleChoices[which]))
  }

  /**
   * `toggleUserActive`: `user.getId().equals(currentUserId)` throws when
   * the user has no id; one's own account is refused (`None`); otherwise the
   * new flag is the negation of the old one.
   */
  function ActiveToggle(u: User, currentUserId: string): (r: Result<Option<bool>>)
    ensures r.Err? <==> u.id.None?
    ensures r == Ok(None) <==> u.id == Some(currentUserId)
    ensures r.Ok? && r.value.Some? ==> r.value.value == !u.isActive
  {
    if u.id.None? then Err("NullPointerException")
    else if u.id.value == currentUserId then Ok(None)
    else Ok(Some(!u.isActive))
  }

  /** `User.fromMap(document.getData())` as written: the document's data, which does not hold its id. */
  function ReadUserAsWritten(s: Snapshot): (r: Result<User>)
    ensures r.Ok? ==> r.value.id == StrField(s.data, "id")
  {
    FromMap(s.data)
  }

  /**
   * The corrected reading of Finding 2: a user read from its document with
   * the document id as its id, as the repositories do for tasks and budgets.
   */
  function ReadUser(s: Snapshot): (r: Result<User>)
    ensures r.Ok? ==> r.value.id == Some(s.id)
    ensures r.Ok? <==> ReadUserAsWritten(s).Ok?
  {
    FromMap(WithId(s))
  }

  /**
   * The users read as written from the front of an answer, up to the first
   * document that cannot be read; each one has the id its data holds, if any.
   */
  function ReadUsers(snaps: seq<Snapshot>): (r: seq<User>)
    ensures |r| <= |snaps|
    ensures forall i :: 0 <= i < |r| ==> ReadUserAsWritten(snaps[i]) == Ok(r[i])
  {
    if snaps == [] then []
    else match ReadUserAsWritten(snaps[0])
      case Err(_) => []
      case Ok(u) => [u] + ReadUsers(snaps[1..])
  }

  /** Every document of the answer can be read. */
  predicate AllReadable(snaps: seq<Snapshot>)
  {
    forall i :: 0 <= i < |snaps| ==> ReadUserAsWritten(snaps[i]).Ok?
  }

  /** All documents are read exactly when none fails. */
  lemma {:induction false} ReadUsersLength(snaps: seq<Snapshot>)
    ensures |ReadUsers(snaps)| == |snaps| <==> AllReadable(snaps)
  {
    if snaps != [] {
      ReadUsersLength(snaps[1..]);
      if ReadUserAsWritten(snaps[0]).Ok? && AllReadable(snaps[1..]) {
        forall i | 0 <= i < |snaps|
          ensures ReadUserAsWritten(snaps[i]).Ok?
        {
          if i > 0 {
            assert snaps[i] == snaps[1..][i - 1];
          }
        }
      }
      if AllReadable(snaps) {
        forall i | 0 <= i < |snaps| - 1
          ensures ReadUserAsWritten(snaps[1..][i]).Ok?
        {
          assert snaps[1..][i] == snaps[i + 1];
        }
      }
    }
  }

  /** One step of reading an answer from position `i`. */
  lemma ReadUsersStep(snaps: seq<Snapshot>, i: int)
    requires 0 <= i < |snaps|
    ensures ReadUserAsWritten(snaps[i]).Err? ==> ReadUsers(snaps[i..]) == []
    ensures ReadUserAsWritten(snaps[i]).Ok? ==> ReadUsers(snaps[i..]) == [ReadUserAsWritten(snaps[i]).value] + ReadUsers(snaps[i + 1..])
  {
    assert snaps[i..][0] == snaps[i];
    assert snaps[i..][1..] == snaps[i + 1..];
  }

  class UserManagementScreen {
    /** `userList`: the users shown. */
    var userList: seq<User>

    constructor()
      ensures userList == []
    {
      userList := [];
    }

    /**
     * The success listener of `loadUsers`: the list is cleared and each
     * document's data is read and added in order; a document whose
     * "isActive" is not a Boolean throws, leaving the users read before it.
     * The document id is not read, so a listed user's id is whatever "id"
     * field its data holds.
     */
    method OnUsersLoaded(snaps: seq<Snapshot>) returns (r: Result<seq<User>>)
      modifies this
      ensures userList == ReadUsers(snaps)
      ensures forall i :: 0 <= i < |userList| ==> userList[i].id == StrField(snaps[i].data, "id")
      ensures r.Ok? <==> AllReadable(snaps)
      ensures r.Ok? ==> r.value == userList && |userList| == |snaps|
    {
      var list: seq<User> := [];
      var i := 0;
      while i < |snaps|
        invariant 0 <= i <= |snaps|
        invariant list + ReadUsers(snaps[i..]) == ReadUsers(snaps)
        invariant |list| == i
      {
        var u := ReadUserAsWritten(snaps[i]);
        ReadUsersStep(snaps, i);
        if u.Err? {
          assert list == ReadUsers(snaps);
          ReadUsersLength(snaps);
          userList := list;
          return Err(u.error);
        }
        assert list + [u.value] + ReadUsers(snaps[i + 1..]) == ReadUsers(snaps);
        list := list + [u.value];
        i := i + 1;
      }
      assert ReadUsers(snaps[i..]) == [];
      ReadUsersLength(snaps);
      userList := list;
      r := Ok(list);
    }

    /**
     * `updateUserRole(user, newRole, position)`: the "role" field of the
     * user's document is updated; on success the listed user takes the new
     * role, and nothing else changes.
     */
    method UpdateUserRole(db: Collection, position: int, newRole: Role, failure: Option<string>) returns (s: Status)
      requires 0 <= position < |userList| && userList[position].id.Some?
      requires db.Valid()
      modifies this, db
      ensures db.Valid()
      ensures var id := old(userList[position].id.value);
              s == Success <==> failure.None? && id in old(db.docs)
      ensures s == Success ==> userList == old(userList)[position := old(userList[position]).(role := Some(newRole))]
      ensures s == Success ==> db.docs == old(db.docs)[old(userList[position].id.value) := old(db.docs[userList[position].id.value]) + map["role" := VStr(RoleValue(newRole))]]
      ensures s != Success ==> userList == old(userList) && db.docs == old(db.docs)
    {
      var id := userList[position].id.value;
      s := db.Update(id, map["role" := VStr(RoleValue(newRole))], failure);
      assert Stored(map["role" := VStr(RoleValue(newRole))]) == map["role" := VStr(RoleValue(newRole))];
      if s == Success {
        userList := userList[position := userList[position].(role := Some(newRole))];
      }
    }

    /**
     * The confirmation of `toggleUserActive`: the "isActive" field of the
     * user's document is updated; on success the listed user takes the new
     * flag, and nothing else changes.
     */
    method SetUserActive(db: Collection, position: int, newActive: bool, failure: Option<string>) returns (s: Status)
      requires 0 <= position < |userList| && userList[position].id.Some?
      requires db.Valid()
      modifies this, db
      ensures db.Valid()
      ensures var id := old(userList[position].id.value);
              s == Success <==> failure.None? && id in old(db.docs)
      ensures s == Success ==> userList == old(userList)[position := old(userList[position]).(isActive := newActive)]
      ensures s == Success ==> db.docs == old(db.docs)[old(userList[position].id.value) := old(db.docs[userList[position].id.value]) + map["isActive" := VBool(newActive)]]
      ensures s != Success ==> userList == old(userList) && db.docs == old(db.docs)
    {
      var id := userList[position].id.value;
      s := db.Update(id, map["isActive" := VBool(newActive)], failure);
      assert Stored(map["isActive" := VBool(newActive)]) == map["isActive" := VBool(newActive)];
      if s == Success {
        userList := userList[position := userList[position].(isActive := newActive)];
      }
    }
  }

  /**
   * As written, the screen cannot manage anybody who registered through the
   * app: the only user document the app writes has no "id" field, so the
   * user read back has a null id and both the role dialog and the active
   * toggle throw, for other users and for the administrator alike.
   */
  lemma RegisteredUsersBreakGuards(account: UserManager.AuthUser, now: int, currentUserId: string, which: int)
    requires 0 <= which < |RoleChoices|
    ensures var u := ReadUserAsWritten(Snapshot(account.uid, Stored(UserSearch.SavedUserData(account, now))));
            u.Ok? && u.value.id.None?
            && ActiveToggle(u.value, currentUserId).Err?
            && RoleChoice(u.value, which, currentUserId).Err?
  {
    var d := UserSearch.SavedUserData(account, now);
    StoredReadsTheSame(d, "id");
    StoredReadsTheSame(d, "isActive");
  }

  /**
   * Read with its document id, the same user can be managed: the
   * administrator is stopped from demoting or deactivating their own
   * account and nobody else is.
   */
  lemma RegisteredUsersKeepGuards(account: UserManager.AuthUser, now: int, currentUserId: string, which: int)
    requires 0 <= which < |RoleChoices|
    ensures var u := ReadUser(Snapshot(account.uid, Stored(UserSearch.SavedUserData(account, now))));
            u.Ok? && u.value.id == Some(account.uid)
            && (ActiveToggle(u.value, currentUserId) == Ok(None) <==> account.uid == currentUserId)
            && (RoleChoice(u.value, which, currentUserId) == Ok(None) <==> account.uid == currentUserId && which != 2)
            && u.value.isActive
  {
    var d := UserSearch.SavedUserData(account, now);
    StoredReadsTheSame(d, "isActive");
    assert WithId(Snapshot(account.uid, Stored(d)))["isActive"] == VBool(true);
  }
}
