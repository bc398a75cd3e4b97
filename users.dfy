/**
 * The `User` record (models/User.java): its role enumeration with the
 * string stored in Firestore, the constructor defaults, the permission
 * predicates of the record itself, and the conversion to and from a
 * Firestore document.
 */
module Users {
  import opened Common

  /** `User.Role`, in declaration order: ADMIN, MANAGER, MEMBER. */
  datatype Role = Admin | Manager | Member

  /** `Role.values()`. */
  const AllRoles: seq<Role> := [Admin, Manager, Member]

  /** `Role.getValue()`: the string stored in the `role` field. */
  function RoleValue(r: Role): string
  {
    match r
    case Admin => "admin"
    case Manager => "manager"
    case Member => "member"
  }

  /** The role whose stored string is `value`; MEMBER for any other string and for null. */
  function RoleFromString(value: Option<string>): Role
  {
    if value == Some("admin") then Admin
    else if value == Some("manager") then Manager
    else Member
  }

  lemma RoleValuesDistinct(a: Role, b: Role)
    ensures RoleValue(a) == RoleValue(b) <==> a == b
  {
  }

  /** Reading back the stored string of a role gives the role. */
  lemma RoleRoundTrip(r: Role)
    ensures RoleFromString(Some(RoleValue(r))) == r
  {
  }

  /** A string that is no role's value, and null, read as MEMBER. */
  lemma RoleDefault(value: Option<string>)
    requires forall r :: r in AllRoles ==> value != Some(RoleValue(r))
    ensures RoleFromString(value) == Member
  {
    assert value != Some(RoleValue(Admin));
    assert value != Some(RoleValue(Manager));
  }

  /**
   * `Role.fromString`: scans `Role.values()` in declaration order and
   * returns the first role whose value equals the argument, MEMBER if none.
   */
  method FromString(value: Option<string>) returns (r: Role)
    ensures r == RoleFromString(value)
    ensures value.Some? && (exists q :: q in AllRoles && RoleValue(q) == value.value) ==> RoleValue(r) == value.value
  {
    var i := 0;
    while i < |AllRoles|
      invariant 0 <= i <= |AllRoles|
      invariant forall k :: 0 <= k < i ==> value != Some(RoleValue(AllRoles[k]))
    {
      if value == Some(RoleValue(AllRoles[i])) {
        return AllRoles[i];
      }
      i := i + 1;
    }
    assert value != Some(RoleValue(AllRoles[0])) && value != Some(RoleValue(AllRoles[1]));
    return Member;
  }

  /** A user account. Dates are milliseconds since the epoch. */
  datatype User = User(
    id: Option<string>,
    email: Option<string>,
    displayName: Option<string>,
    role: Option<Role>,
    fcmToken: Option<string>,
    createdAt: Option<int>,
    lastLogin: Option<int>,
    isActive: bool)

  /** `new User()`: every reference field null and `isActive` false. */
  function EmptyUser(): (u: User)
    ensures u.role.None? && !u.isActive && u.id.None? && u.createdAt.None?
  {
    User(None, None, None, None, None, None, None, false)
  }

  /** `new User(id, email, displayName)` at instant `now`. */
  function NewUser(id: Option<string>, email: Option<string>, displayName: Option<string>, now: int): (u: User)
    ensures u.id == id && u.email == email && u.displayName == displayName
    ensures u.role == Some(Member) && u.isActive
    ensures u.createdAt == Some(now) && u.fcmToken.None? && u.lastLogin.None?
  {
    User(id, email, displayName, Some(Member), None, Some(now), None, true)
  }

  /** The record's own permission predicates (`User.canManageTasks` and the rest). */
  predicate IsAdminOrManager(u: User)
  {
    u.role == Some(Admin) || u.role == Some(Manager)
  }

  predicate CanManageTasks(u: User) { IsAdminOrManager(u) }
  predicate CanApproveBudget(u: User) { IsAdminOrManager(u) }
  predicate CanViewReports(u: User) { IsAdminOrManager(u) }
  predicate CanManageUsers(u: User) { u.role == Some(Admin) }
  predicate CanDeleteTasks(u: User) { u.role == Some(Admin) }

  /** Every permission a MANAGER holds on the record, an ADMIN holds too; a MEMBER or a null role holds none. */
  lemma UserPermissionTable(u: User)
    ensures CanManageUsers(u) <==> u.role == Some(Admin)
    ensures CanDeleteTasks(u) <==> u.role == Some(Admin)
    ensures CanManageTasks(u) <==> u.role.Some? && u.role.value != Member
    ensures CanApproveBudget(u) == CanManageTasks(u) == CanViewReports(u)
    ensures CanManageUsers(u) ==> CanManageTasks(u)
    ensures u.role.None? || u.role == Some(Member) ==>
      !CanManageTasks(u) && !CanManageUsers(u) && !CanDeleteTasks(u)
  {
  }

  /** `user.toMap()`; `role.getValue()` throws on a null role, hence the precondition. */
  function ToMap(u: User): (m: Doc)
    requires u.role.Some?
    ensures m.Keys == {"id", "email", "displayName", "role", "fcmToken", "createdAt", "lastLogin", "isActive"}
    ensures m["role"] == VStr(RoleValue(u.role.value)) && m["isActive"] == VBool(u.isActive)
  {
    map[
      "id" := StrValue(u.id),
      "email" := StrValue(u.email),
      "displayName" := StrValue(u.displayName),
      "role" := VStr(RoleValue(u.role.value)),
      "fcmToken" := StrValue(u.fcmToken),
      "createdAt" := DateValue(u.createdAt),
      "lastLogin" := DateValue(u.lastLogin),
      "isActive" := VBool(u.isActive)
    ]
  }

  /**
   * `User.fromMap(map)`. The role is always set (MEMBER when missing or
   * unknown); dates are taken from a Timestamp or a Date and otherwise left
   * null; `isActive` is true when the key is absent, and a present value that
   * is not a Boolean makes the unboxing cast throw.
   */
  function FromMap(m: Doc): (r: Result<User>)
    ensures r.Ok? <==> "isActive" !in m || m["isActive"].VBool?
    ensures r.Ok? ==> r.value.role.Some? && r.value.role.value == RoleFromString(StrField(m, "role"))
    ensures r.Ok? && "isActive" !in m ==> r.value.isActive
  {
    if "isActive" in m && !m["isActive"].VBool? then
      Err(if m["isActive"].VNull? then "NullPointerException" else "ClassCastException")
    else
      Ok(User(
        StrField(m, "id"),
        StrField(m, "email"),
        StrField(m, "displayName"),
        Some(RoleFromString(StrField(m, "role"))),
        StrField(m, "fcmToken"),
        DateField(m, "createdAt"),
        DateField(m, "lastLogin"),
        if "isActive" in m then m["isActive"].b else true))
  }

  /** Writing a user with a role and reading it back restores every field. */
  lemma {:induction false} FromMapToMap(u: User)
    requires u.role.Some?
    ensures FromMap(ToMap(u)) == Ok(u)
  {
    var m := ToMap(u);
    RoleRoundTrip(u.role.value);
    assert StrField(m, "role") == Some(RoleValue(u.role.value));
    assert StrField(m, "id") == u.id;
    assert StrField(m, "email") == u.email;
    assert StrField(m, "displayName") == u.displayName;
    assert StrField(m, "fcmToken") == u.fcmToken;
  }
}
