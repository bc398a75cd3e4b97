/**
 * The central permission table (utils/PermissionManager.java): which role
 * holds which permission, and the convenience predicates built on it.
 */
module Permissions {
  import opened Common
  import opened Users

  /** `PermissionManager.Permission`. */
  datatype Permission =
    | CreateTask | EditTask | DeleteTask | AssignTask
    | CreateBudget | ApproveBudget | EditBudget | DeleteBudget
    | SendMessage | DeleteMessage
    | ManageUsers | ViewReports | ManageSettings

  /** `hasPermission(role, permission)`. */
  predicate HasPermission(role: Role, p: Permission)
  {
    match role
    case Admin => true
    case Manager => !(p == ManageUsers || p == ManageSettings)
    case Member => p == CreateTask || p == EditTask || p == CreateBudget || p == SendMessage
  }

  predicate CanManageTasks(role: Role) { HasPermission(role, CreateTask) && HasPermission(role, EditTask) }
  predicate CanApproveBudget(role: Role) { HasPermission(role, ApproveBudget) }
  predicate CanDeleteTasks(role: Role) { HasPermission(role, DeleteTask) }
  predicate CanManageUsers(role: Role) { HasPermission(role, ManageUsers) }
  predicate CanViewReports(role: Role) { HasPermission(role, ViewReports) }

  /** The permissions a MEMBER holds: exactly these four. */
  const MemberPermissions: set<Permission> := {CreateTask, EditTask, CreateBudget, SendMessage}

  /** The permissions only an ADMIN holds. */
  const AdminOnly: set<Permission> := {ManageUsers, ManageSettings}

  /** The table row by row: ADMIN everything, MANAGER all but the admin-only two, MEMBER exactly four. */
  lemma PermissionTable(p: Permission)
    ensures HasPermission(Admin, p)
    ensures HasPermission(Manager, p) <==> p !in AdminOnly
    ensures HasPermission(Member, p) <==> p in MemberPermissions
  {
  }

  /** Permissions grow with the role: MEMBER ⊆ MANAGER ⊆ ADMIN, and both inclusions are strict. */
  lemma PermissionsMonotone(p: Permission)
    ensures HasPermission(Member, p) ==> HasPermission(Manager, p)
    ensures HasPermission(Manager, p) ==> HasPermission(Admin, p)
    ensures HasPermission(Manager, ApproveBudget) && !HasPermission(Member, ApproveBudget)
    ensures HasPermission(Admin, ManageUsers) && !HasPermission(Manager, ManageUsers)
  {
  }

  /** The convenience predicates: task management for every role, user management for ADMIN alone. */
  lemma ConveniencePredicates(role: Role)
    ensures CanManageTasks(role)
    ensures CanManageUsers(role) <==> role == Admin
    ensures CanApproveBudget(role) <==> role != Member
    ensures CanDeleteTasks(role) <==> role != Member
    ensures CanViewReports(role) <==> role != Member
  {
  }

  /**
   * The two tables of the app disagree: the record's own predicates let only
   * an ADMIN delete tasks and refuse task management to a MEMBER, while the
   * central table lets a MANAGER delete and every role manage tasks.
   */
  lemma TablesDisagree(u: User)
    requires u.role == Some(Manager)
    ensures CanDeleteTasks(u.role.value) && !Users.CanDeleteTasks(u)
    ensures forall v: User :: v.role == Some(Member) ==> CanManageTasks(v.role.value) && !Users.CanManageTasks(v)
  {
  }

  /** Where the record has a role, the two tables agree on the other three predicates. */
  lemma TablesAgree(u: User)
    requires u.role.Some?
    ensures CanManageUsers(u.role.value) == Users.CanManageUsers(u)
    ensures CanApproveBudget(u.role.value) == Users.CanApproveBudget(u)
    ensures CanViewReports(u.role.value) == Users.CanViewReports(u)
  {
  }
}
