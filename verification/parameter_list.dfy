/**
 * The parameter-list page: who may edit a row, who sees the lock switch,
 * the request each button sends, and what the server then does with the
 * row. Four places where the page as written does not do what it
 * evidently intends are modelled both ways: the dean check, the unlock
 * request, the name of the lock field and the reading of the list.
 */
module ParameterListPage {
  import opened Common
  import opened Text
  import opened Js
  import opened UserModel
  import opened Permissions
  import opened ClientAuth
  import opened CommonSchemas
  import opened ParameterSchemas
  import opened ParametersApi

  const LockedWarning: string := "该参数已锁定，仅院长可修改"

  /** A row as the page holds it: its id and whatever its `is_locked` field holds. */
  datatype ParamRow = ParamRow(id: nat, isLocked: JsVal)

  /** The members `usePermission()` returns, by name. */
  datatype HookMember = CheckPermission | CheckMinRole | RoleMember

  function PermissionHookMember(name: string): (m: Option<HookMember>)
    ensures m.Some? ==> name in {"checkPermission", "checkMinRole", "role"}
  {
    if name == "checkPermission" then Some(CheckPermission)
    else if name == "checkMinRole" then Some(CheckMinRole)
    else if name == "role" then Some(RoleMember)
    else None
  }

  /**
   * As written: the page takes the member named `hasPermission` and calls
   * it with the dean role. `None` is the call throwing, because the member
   * is missing or is not a function.
   */
  function AsWrittenIsDean(role: Option<string>): (r: Option<bool>)
    ensures r.None? <==> PermissionHookMember("hasPermission").None? || PermissionHookMember("hasPermission") == Some(RoleMember)
  {
    match PermissionHookMember("hasPermission")
    case None => None
    case Some(CheckPermission) => Some(HasPermission(role, One(Some(Dean.Value()))))
    case Some(CheckMinRole) => Some(HasMinRole(role, Some(Dean.Value())))
    case Some(RoleMember) => None
  }

  /** The hook has no `hasPermission`, so the page throws while rendering, for every visitor. */
  lemma PageThrowsForEveryRole(role: Option<string>)
    ensures AsWrittenIsDean(role).None?
  {
  }

  /** Of all role texts, exactly the dean's and the administrator's pass the single-role check against dean. */
  lemma DeanCheckByRole(role: Option<string>)
    ensures HasPermission(role, One(Some(Dean.Value()))) <==> role == Some(Dean.Value()) || role == Some(Admin.Value())
  {
    if PyTruthy(role) && role.value != "admin" {
      match ParseRole(role.value)
      case None =>
      case Some(r) => assert LevelOf(role) == Level(r);
    }
  }

  /** As intended: `checkPermission(USER_ROLES.DEAN)`, which a dean or an administrator passes. */
  function IsDean(role: Option<string>): (b: bool)
    ensures b <==> role == Some(Dean.Value()) || role == Some(Admin.Value())
  {
    DeanCheckByRole(role);
    HasPermission(role, One(Some(Dean.Value())))
  }

  /** Over real users the intended check is the server's dean check. */
  lemma IsDeanMatchesServer(u: User)
    ensures IsDean(Some(u.role.Value())) <==> HasMinimumRole(u, Dean)
  {
    CheckLaws(None, None, u, Dean, []);
  }

  /** Editing is refused when the row is locked and the visitor is not a dean. */
  predicate EditBlocked(row: ParamRow, isDean: bool) {
    row.isLocked.Truthy() && !isDean
  }

  /** What pressing edit does: a warning, or the form opened on the row. */
  datatype EditOutcome = Warned(message: string) | Opened(row: ParamRow)

  /** `handleEdit(record)`. */
  function HandleEdit(row: ParamRow, isDean: bool): (r: EditOutcome)
    ensures r.Warned? <==> EditBlocked(row, isDean)
    ensures r.Warned? ==> r.message == LockedWarning
    ensures r.Opened? ==> r.row == row
  {
    if row.isLocked.Truthy() && !isDean then Warned(LockedWarning) else Opened(row)
  }

  /** The lock switch of a row: shown only to a dean, labelled by the row's state, and asking for the opposite state. */
  datatype LockSwitch = LockSwitch(caption: string, lock: bool)

  function LockSwitchOf(row: ParamRow, isDean: bool): (r: Option<LockSwitch>)
    ensures r.Some? <==> isDean
    ensures r.Some? ==> r.value.lock == !row.isLocked.Truthy()
    ensures r.Some? ==> (r.value.caption == "解锁" <==> row.isLocked.Truthy())
  {
    if !isDean then None
    else Some(LockSwitch(if row.isLocked.Truthy() then "解锁" else "锁定", !row.isLocked.Truthy()))
  }

  /** The edit button is disabled exactly when pressing it would be refused, and a dean is never refused. */
  lemma EditButtonMatchesHandler(row: ParamRow, isDean: bool)
    ensures HandleEdit(row, isDean).Warned? <==> EditBlocked(row, isDean)
    ensures isDean ==> HandleEdit(row, isDean) == Opened(row)
  {
  }

  /** The calls the page makes to the parameter routes. */
  datatype ApiCall = LockCall(id: nat) | UnlockCall(id: nat) | CreateCall(values: seq<(string, JsVal)>)
                   | UpdateCall(id: nat, values: seq<(string, JsVal)>)

  /** As written: `lockParameter(id, { lock })` ignores its second argument and always posts to the lock route. */
  function AsWrittenLockCall(id: nat, lock: bool): (c: ApiCall)
    ensures c == LockCall(id)
  {
    LockCall(id)
  }

  /** As intended: the lock route to lock, the unlock route to unlock. */
  function LockCallFor(id: nat, lock: bool): (c: ApiCall)
    ensures c.LockCall? <==> lock
    ensures c.UnlockCall? <==> !lock
    ensures c.LockCall? || c.UnlockCall?
    ensures c.id == id
  {
    if lock then LockCall(id) else UnlockCall(id)
  }

  /** How the server answers a lock or unlock call. */
  function Serve(table: ParamTable, c: ApiCall, user: User, now: nat): Result<(ParamTable, Message)>
    requires c.LockCall? || c.UnlockCall?
  {
    if c.LockCall? then Lock(table, c.id, user, now) else Unlock(table, c.id, user)
  }

  /** As written, a dean pressing "unlock" on a locked row leaves it locked, now in the dean's name. */
  lemma AsWrittenUnlockKeepsLock(table: ParamTable, id: nat, dean: User, now: nat)
    requires HasMinimumRole(dean, Dean) && FindParam(table, id).Some? && FindParam(table, id).value.locked
    ensures var r := Serve(table, AsWrittenLockCall(id, false), dean, now);
            r.Ok? && FindParam(r.value.0, id).Some? && FindParam(r.value.0, id).value.locked
  {
    var p := FindParam(table, id).value;
    FindAfterReplace(table, p.(locked := true, lockedBy := Some(dean.id), lockedAt := Some(now)));
  }

  /** As intended, the same press unlocks the row. */
  lemma UnlockCallUnlocks(table: ParamTable, id: nat, dean: User, now: nat)
    requires HasMinimumRole(dean, Dean) && FindParam(table, id).Some?
    ensures var r := Serve(table, LockCallFor(id, false), dean, now);
            r.Ok? && FindParam(r.value.0, id).Some? && !FindParam(r.value.0, id).value.locked
  {
    var p := FindParam(table, id).value;
    FindAfterReplace(table, p.(locked := false, lockedBy := None, lockedAt := None));
  }

  /** As written, the page reads `is_locked`, a field the server's response does not have (it is named `lock_status`). */
  function AsWrittenRow(p: Parameter): (row: ParamRow)
    ensures row.id == p.id && row.isLocked.Undefined?
  {
    ParamRow(p.id, Undefined)
  }

  /** Every row then looks unlocked: anyone may open the editor and a dean is always offered "lock". */
  lemma AsWrittenRowsLookUnlocked(p: Parameter, isDean: bool)
    requires p.locked
    ensures HandleEdit(AsWrittenRow(p), isDean) == Opened(AsWrittenRow(p))
    ensures isDean ==> LockSwitchOf(AsWrittenRow(p), isDean) == Some(LockSwitch("锁定", true))
  {
  }

  /** As intended: the row's lock state is the server's `lock_status`. */
  function RowOf(p: Parameter): (row: ParamRow)
    ensures row.id == p.id && row.isLocked.Truthy() == p.locked
  {
    ParamRow(p.id, Bool(p.locked))
  }

  /** With the intended reading, a locked row blocks a non-dean, and the page's refusal agrees with the server's. */
  lemma LockedRowBlocksNonDean(table: ParamTable, id: nat, editor: User, u: ParameterUpdate)
    requires FindParam(table, id).Some? && FindParam(table, id).value.locked
    requires !HasMinimumRole(editor, Dean)
    ensures HandleEdit(RowOf(FindParam(table, id).value), IsDean(Some(editor.role.Value()))).Warned?
    ensures Update(table, id, u, editor).Err?
  {
    IsDeanMatchesServer(editor);
  }

  /** `handleSubmit`: an update of the row being edited, or a creation. */
  function SubmitCall(editing: Option<ParamRow>, values: seq<(string, JsVal)>): (c: ApiCall)
    ensures editing.Some? <==> c.UpdateCall?
    ensures editing.None? <==> c.CreateCall?
    ensures c.UpdateCall? ==> c.id == editing.value.id && c.values == values
    ensures c.CreateCall? ==> c.values == values
  {
    if editing.Some? then UpdateCall(editing.value.id, values) else CreateCall(values)
  }

  /** The editor opened by a permitted edit submits an update of that very row. */
  lemma EditThenSubmitUpdates(row: ParamRow, isDean: bool, values: seq<(string, JsVal)>)
    requires !EditBlocked(row, isDean)
    ensures SubmitCall(Some(HandleEdit(row, isDean).row), values) == UpdateCall(row.id, values)
  {
  }

  /**
   * What `getParameterList` resolves to. The response interceptor hands the
   * page the response body itself; `get_parameters` answers with a bare list,
   * while the page expects an object whose `data` member holds the list.
   */
  datatype ListBody = BareList(items: ParamTable) | DataObject(data: ParamTable)

  /** The body `GET /parameters` sends: the bare list of stored parameters. */
  function ServerBody(table: ParamTable): ListBody {
    BareList(table)
  }

  /** `loadData` as written, `res.data || []`: a bare list has no `data` member, so the fallback is taken. */
  function AsWrittenDataSource(body: ListBody): (rows: ParamTable)
    ensures body.DataObject? ==> rows == body.data
    ensures body.BareList? ==> rows == []
  {
    match body
    case BareList(_) => []
    case DataObject(data) => data
  }

  /** As written, the page's table stays empty whatever the server holds. */
  lemma AsWrittenTableEmpty(table: ParamTable)
    ensures AsWrittenDataSource(ServerBody(table)) == []
    ensures |table| > 0 ==> AsWrittenDataSource(ServerBody(table)) != table
  {
  }

  /** As intended: the rows are the list the request resolves to, in either shape. */
  function DataSource(body: ListBody): (rows: ParamTable)
    ensures body.BareList? ==> rows == body.items
    ensures body.DataObject? ==> rows == body.data
  {
    match body
    case BareList(items) => items
    case DataObject(data) => data
  }

  /** With the intended reading every stored parameter gets a row, in the server's order, carrying its lock state. */
  lemma DataSourceShowsTable(table: ParamTable)
    ensures DataSource(ServerBody(table)) == table
    ensures forall i :: 0 <= i < |table| ==> RowOf(DataSource(ServerBody(table))[i]).isLocked.Truthy() == table[i].locked
  {
  }
}
