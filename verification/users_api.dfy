/**
 * The user-administration routes: the filtered and paginated listing for
 * teachers and above, reading one user, and the administrator-only update
 * and delete.
 */
module UsersApi {
  import opened Common
  import opened UserModel
  import opened Permissions
  import opened CommonSchemas
  import opened UserSchemas

  const NoSelfDelete: HttpError := Forbidden("不能删除自己")
  const AdminOnly: HttpError := Forbidden("需要管理员权限")
  const UserMissing: HttpError := NotFound("用户不存在")

  /** The `where` clauses of `get_users`: the role when given, the department when truthy. */
  predicate Selected(u: User, role: Option<Role>, department: Option<string>) {
    (role.None? || u.role == role.value) && (!PyTruthy(department) || u.department == department)
  }

  /** The selected rows, in row order. */
  function SelectUsers(db: UserStore, role: Option<Role>, department: Option<string>): (r: UserStore)
    ensures forall u :: u in r <==> u in db && Selected(u, role, department)
    ensures |r| <= |db|
    decreases |db|
  {
    if |db| == 0 then []
    else
      var rest := SelectUsers(db[1..], role, department);
      assert db == [db[0]] + db[1..];
      if Selected(db[0], role, department) then [db[0]] + rest else rest
  }

  /** The two filters combine conjunctively: applying one after the other is applying both at once. */
  lemma {:induction false} FiltersCompose(db: UserStore, role: Option<Role>, department: Option<string>)
    ensures SelectUsers(SelectUsers(db, role, None), None, department) == SelectUsers(db, role, department)
    decreases |db|
  {
    if |db| > 0 {
      FiltersCompose(db[1..], role, department);
      var rest := SelectUsers(db[1..], role, None);
      if Selected(db[0], role, None) {
        assert SelectUsers(db, role, None) == [db[0]] + rest;
        assert ([db[0]] + rest)[1..] == rest;
      }
    }
  }

  /** `get_users`: query validation, then TEACHER or above, then one page of the selected rows. */
  function GetUsers(db: UserStore, user: User, page: int, pageSize: int,
                    role: Option<string>, department: Option<string>): (r: Result<PaginatedResponse<User>>)
    ensures ValidatePagination(page, pageSize).Err? || (role.Some? && ParseRole(role.value).None?) ==>
              r.Err? && r.error.Unprocessable?
    ensures (ValidatePagination(page, pageSize).Ok? && (role.None? || ParseRole(role.value).Some?)
             && !HasMinimumRole(user, Teacher)) ==> r == Err(Forbidden("需要教师及以上权限"))
    ensures r.Ok? ==>
              var sel := SelectUsers(db, if role.None? then None else ParseRole(role.value), department);
              page >= 1 && pageSize >= 1 && HasMinimumRole(user, Teacher)
              && r.value.total == |sel| && r.value.totalPages == PageCount(|sel|, pageSize)
              && r.value.items == PageItems(sel, page, pageSize)
    ensures r.Ok? <==> ValidatePagination(page, pageSize).Ok? && (role.None? || ParseRole(role.value).Some?)
                       && HasMinimumRole(user, Teacher)
  {
    var p :- ValidatePagination(page, pageSize);
    var rf: Option<Role> :- match role
                            case None => Ok(None)
                            case Some(s) => if ParseRole(s).None? then Err(Unprocessable("role")) else Ok(ParseRole(s));
    if !HasMinimumRole(user, Teacher) then Err(Forbidden("需要教师及以上权限"))
    else Ok(Paginate(SelectUsers(db, rf, department), p))
  }

  /** `get_user`: oneself, or anyone for TEACHER and above; the permission is checked before existence. */
  function GetUser(db: UserStore, id: nat, user: User): (r: Result<User>)
    ensures user.id != id && !HasMinimumRole(user, Teacher) ==> r == Err(Forbidden("无权查看该用户信息"))
    ensures (user.id == id || HasMinimumRole(user, Teacher)) ==>
              (r.Ok? <==> FindUser(db, id).Some?) && (r.Err? ==> r.error == UserMissing)
    ensures r.Ok? ==> r.value in db && r.value.id == id
  {
    if user.id != id && !HasMinimumRole(user, Teacher) then Err(Forbidden("无权查看该用户信息"))
    else
      match FindUser(db, id)
      case None => Err(UserMissing)
      case Some(u) => Ok(u)
  }

  /** Overwrite role, department, major and nickname, each only when the body's value is truthy. */
  function ApplyUserUpdate(u: User, upd: UserUpdate): (v: User)
    ensures v.id == u.id && v.username == u.username && v.email == u.email && v.phone == u.phone
    ensures v.password == u.password
    ensures v.role == (if upd.role.Some? then upd.role.value else u.role)
    ensures v.department == (if PyTruthy(upd.department) then upd.department else u.department)
    ensures v.major == (if PyTruthy(upd.major) then upd.major else u.major)
    ensures v.nickname == (if PyTruthy(upd.nickname) then upd.nickname else u.nickname)
  {
    u.(role := if upd.role.Some? then upd.role.value else u.role,
       department := PyOr(upd.department, u.department),
       major := PyOr(upd.major, u.major),
       nickname := PyOr(upd.nickname, u.nickname))
  }

  /** The table with the row carrying `v.id` replaced by `v`. */
  function ReplaceUser(db: UserStore, v: User): (r: UserStore)
    ensures |r| == |db|
    ensures forall i :: 0 <= i < |db| ==> r[i] == (if db[i].id == v.id then v else db[i])
  {
    seq(|db|, i requires 0 <= i < |db| => if db[i].id == v.id then v else db[i])
  }

  /** `update_user_role`: body validation, then ADMIN, then existence, then the truthy overwrites. */
  function UpdateUserRole(db: UserStore, id: nat, body: UserUpdateBody, user: User): (r: Result<(UserStore, User)>)
    ensures ParseUserUpdate(body).Err? ==> r == Err(ParseUserUpdate(body).error)
    ensures ParseUserUpdate(body).Ok? && user.role != Admin ==> r == Err(AdminOnly)
    ensures r.Ok? <==> ParseUserUpdate(body).Ok? && user.role == Admin && FindUser(db, id).Some?
    ensures r.Ok? ==>
              var v := ApplyUserUpdate(FindUser(db, id).value, ParseUserUpdate(body).value);
              r.value == (ReplaceUser(db, v), v)
  {
    var upd :- ParseUserUpdate(body);
    if !HasMinimumRole(user, Admin) then Err(AdminOnly)
    else
      match FindUser(db, id)
      case None => Err(UserMissing)
      case Some(u) =>
        var v := ApplyUserUpdate(u, upd);
        Ok((ReplaceUser(db, v), v))
  }

  /**
   * A body with no role and only empty or missing texts changes nothing; and
   * the update touches no unique column, so the table stays consistent.
   */
  lemma UpdateLaws(db: UserStore, id: nat, body: UserUpdateBody, user: User, u: User, upd: UserUpdate)
    ensures upd.role.None? && !PyTruthy(upd.department) && !PyTruthy(upd.major) && !PyTruthy(upd.nickname) ==>
              ApplyUserUpdate(u, upd) == u
    ensures Unique(db) && UpdateUserRole(db, id, body, user).Ok? ==> Unique(UpdateUserRole(db, id, body, user).value.0)
  {
    if Unique(db) && UpdateUserRole(db, id, body, user).Ok? {
      var r := UpdateUserRole(db, id, body, user).value.0;
      var w := FindUser(db, id).value;
      var k :| 0 <= k < |db| && db[k] == w;
      forall i, j | 0 <= i < j < |r|
        ensures r[i].id != r[j].id && r[i].username != r[j].username && r[i].email != r[j].email
                && (r[i].phone.Some? && r[j].phone.Some? ==> r[i].phone != r[j].phone)
      {
        assert db[i].id == id ==> i == k;
        assert db[j].id == id ==> j == k;
      }
    }
  }

  /** The table without the rows carrying `id`. */
  function WithoutUser(db: UserStore, id: nat): (r: UserStore)
    ensures forall u :: u in r <==> u in db && u.id != id
    ensures |r| <= |db|
    decreases |db|
  {
    if |db| == 0 then []
    else if db[0].id == id then WithoutUser(db[1..], id)
    else [db[0]] + WithoutUser(db[1..], id)
  }

  /** `delete_user`: ADMIN, then no self-deletion, both before the existence check. */
  function DeleteUser(db: UserStore, id: nat, user: User): (r: Result<(UserStore, Message)>)
    ensures user.role != Admin ==> r == Err(AdminOnly)
    ensures user.role == Admin && user.id == id ==> r == Err(NoSelfDelete)
    ensures r.Ok? <==> user.role == Admin && user.id != id && FindUser(db, id).Some?
    ensures r.Ok? ==> r.value == (WithoutUser(db, id), Msg("用户删除成功"))
  {
    if !HasMinimumRole(user, Admin) then Err(AdminOnly)
    else if user.id == id then Err(NoSelfDelete)
    else if FindUser(db, id).None? then Err(UserMissing)
    else Ok((WithoutUser(db, id), Msg("用户删除成功")))
  }

  /** A deleted user can no longer be read, and the deleting administrator remains. */
  lemma DeleteThenGone(db: UserStore, id: nat, admin: User, reader: User)
    requires DeleteUser(db, id, admin).Ok?
    requires reader.id == id || HasMinimumRole(reader, Teacher)
    ensures GetUser(DeleteUser(db, id, admin).value.0, id, reader) == Err(UserMissing)
    ensures admin in db ==> admin in DeleteUser(db, id, admin).value.0
  {
    var r := WithoutUser(db, id);
    assert forall i :: 0 <= i < |r| ==> r[i] in r;
  }
}
