/**
 * The backend's role hierarchy and the access predicates built on it, plus
 * the outcome of the two route decorators that guard handlers by role.
 */
module Permissions {
  import opened Common
  import opened UserModel

  /** ROLE_HIERARCHY: ADMIN 5, DEAN 4, DIRECTOR 3, TEACHER 2, STUDENT 1. */
  function Level(r: Role): nat {
    match r
    case Admin => 5
    case Dean => 4
    case Director => 3
    case Teacher => 2
    case Student => 1
  }

  /** `has_role`: the user's role is one of `required`. */
  predicate HasRole(u: User, required: seq<Role>) {
    u.role in required
  }

  /** `has_minimum_role`. */
  predicate HasMinimumRole(u: User, minimum: Role) {
    Level(u.role) >= Level(minimum)
  }

  /** The roles at or above `minimum`, in hierarchy order. */
  function RolesAtLeast(minimum: Role): (rs: seq<Role>)
    ensures forall r: Role :: r in rs <==> Level(r) >= Level(minimum)
  {
    match minimum
    case Student => [Student, Teacher, Director, Dean, Admin]
    case Teacher => [Teacher, Director, Dean, Admin]
    case Director => [Director, Dean, Admin]
    case Dean => [Dean, Admin]
    case Admin => [Admin]
  }

  /**
   * The laws of the hierarchy: the levels order the roles strictly (so a
   * level determines its role), an empty role list admits nobody, the
   * minimum-role check is membership in the roles at or above the minimum,
   * and it is reflexive, monotone in the minimum and always met by an
   * administrator.
   */
  lemma HierarchyLaws(u: User, lo: Role, hi: Role)
    ensures Level(Student) < Level(Teacher) < Level(Director) < Level(Dean) < Level(Admin)
    ensures forall a: Role, b: Role :: Level(a) == Level(b) ==> a == b
    ensures forall r: Role :: 1 <= Level(r) <= Level(Admin)
    ensures !HasRole(u, [])
    ensures HasMinimumRole(u, lo) <==> HasRole(u, RolesAtLeast(lo))
    ensures HasMinimumRole(u, u.role)
    ensures Level(lo) <= Level(hi) && HasMinimumRole(u, hi) ==> HasMinimumRole(u, lo)
    ensures u.role == Admin ==> HasMinimumRole(u, lo)
  {
  }

  /** The text of the 403 raised by `require_minimum_role`. */
  function MinimumRoleDetail(minimum: Role): string {
    "需要" + minimum.Value() + "或更高权限"
  }

  /**
   * `require_roles(roles)` around `handler`: 401 without a current user,
   * 403 when the role is not listed, otherwise the handler's own outcome.
   */
  function RequireRoles<T>(current: Option<User>, roles: seq<Role>, handler: User -> Result<T>): (r: Result<T>)
    ensures current.None? ==> r == Err(Unauthorized("未认证"))
    ensures current.Some? && current.value.role !in roles ==> r == Err(Forbidden("权限不足"))
    ensures current.Some? && current.value.role in roles ==> r == handler(current.value)
  {
    match current
    case None => Err(Unauthorized("未认证"))
    case Some(u) => if !HasRole(u, roles) then Err(Forbidden("权限不足")) else handler(u)
  }

  /**
   * `require_minimum_role(minimum)` around `handler`: 401 without a current
   * user, 403 below the minimum level, otherwise the handler's own outcome.
   */
  function RequireMinimumRole<T>(current: Option<User>, minimum: Role, handler: User -> Result<T>): (r: Result<T>)
    ensures current.None? ==> r == Err(Unauthorized("未认证"))
    ensures current.Some? && Level(current.value.role) < Level(minimum) ==>
              r == Err(Forbidden(MinimumRoleDetail(minimum)))
    ensures current.Some? && Level(current.value.role) >= Level(minimum) ==> r == handler(current.value)
  {
    match current
    case None => Err(Unauthorized("未认证"))
    case Some(u) => if !HasMinimumRole(u, minimum) then Err(Forbidden(MinimumRoleDetail(minimum))) else handler(u)
  }

  /** The two decorators agree on who reaches the handler when the list is the roles at or above the minimum. */
  lemma DecoratorsAgree<T>(current: Option<User>, minimum: Role, handler: User -> Result<T>)
    ensures RequireRoles(current, RolesAtLeast(minimum), handler).Ok?
        <==> RequireMinimumRole(current, minimum, handler).Ok?
  {
  }

  /** `can_modify_user`: oneself always; anyone else at or below one's own level. */
  predicate CanModifyUser(current: User, target: User) {
    current.id == target.id || Level(current.role) >= Level(target.role)
  }

  /** `can_access_paper`: teachers and above see every paper; a student only their own. */
  predicate CanAccessPaper(current: User, paperAuthorId: nat) {
    HasMinimumRole(current, Teacher) || current.id == paperAuthorId
  }

  /**
   * Who may modify and who may read: for another user, modifying is the
   * minimum-role check against the target's role, so peers may modify peers
   * and an administrator anyone; a student reaches exactly their own papers
   * and every other role reaches all.
   */
  lemma AccessLaws(current: User, target: User, paperAuthorId: nat)
    ensures current.id != target.id ==> (CanModifyUser(current, target) <==> HasMinimumRole(current, target.role))
    ensures current.role == target.role ==> CanModifyUser(current, target)
    ensures current.role == Admin ==> CanModifyUser(current, target)
    ensures current.id == target.id ==> CanModifyUser(current, target)
    ensures current.role == Student ==> (CanAccessPaper(current, paperAuthorId) <==> current.id == paperAuthorId)
    ensures current.role != Student ==> CanAccessPaper(current, paperAuthorId)
  {
  }
}
