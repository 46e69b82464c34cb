/**
 * The grading-parameter routes: creation and partial update by a director
 * or above, and the lock and unlock switch held by a dean or above. A
 * locked record refuses updates until it is unlocked.
 *
 * The clock that stamps `locked_at` is a parameter.
 */
module ParametersApi {
  import opened Common
  import opened UserModel
  import opened Permissions
  import opened CommonSchemas
  import opened ParameterSchemas

  /** A row of `paper_parameters`. */
  datatype Parameter = Parameter(
    id: nat,
    name: string,
    duplicateRate: real,
    thresholds: Thresholds,
    scope: string,
    scopeId: Option<string>,
    locked: bool,
    lockedBy: Option<nat>,
    lockedAt: Option<nat>,
    createdBy: nat)

  type ParamTable = seq<Parameter>

  const DirectorOnly: HttpError := Forbidden("需要主任及以上权限")
  const DeanOnly: HttpError := Forbidden("需要院长权限")
  const Missing: HttpError := NotFound("参数设置不存在")
  const LockedError: HttpError := Forbidden("参数已被锁定，无法修改")

  /** The row with id `id`, if any. */
  function FindParam(table: ParamTable, id: nat): (r: Option<Parameter>)
    ensures r.Some? ==> r.value in table && r.value.id == id
    ensures r.None? <==> forall i :: 0 <= i < |table| ==> table[i].id != id
    decreases |table|
  {
    if |table| == 0 then None
    else if table[0].id == id then Some(table[0])
    else FindParam(table[1..], id)
  }

  /** Distinct ids, as the primary key guarantees. */
  predicate IdsUnique(table: ParamTable) {
    forall i, j :: 0 <= i < j < |table| ==> table[i].id != table[j].id
  }

  /** The table with the row carrying `p.id` replaced by `p`; every other row is kept in place. */
  function Replace(table: ParamTable, p: Parameter): (r: ParamTable)
    ensures |r| == |table|
    ensures forall i :: 0 <= i < |table| ==> r[i] == (if table[i].id == p.id then p else table[i])
  {
    seq(|table|, i requires 0 <= i < |table| => if table[i].id == p.id then p else table[i])
  }

  /** After a replacement the lookup finds the new row, provided the id was present. */
  lemma FindAfterReplace(table: ParamTable, p: Parameter)
    requires FindParam(table, p.id).Some?
    ensures FindParam(Replace(table, p), p.id) == Some(p)
    ensures IdsUnique(table) ==> IdsUnique(Replace(table, p))
  {
    var r := Replace(table, p);
    var i :| 0 <= i < |table| && table[i] == FindParam(table, p.id).value;
    assert r[i] == p;
    FindFirst(r, i);
  }

  /** A row carrying `id` at index `i` means the lookup succeeds with some row carrying `id`. */
  lemma {:induction false} FindFirst(table: ParamTable, i: nat)
    requires i < |table|
    ensures FindParam(table, table[i].id).Some?
    ensures (forall j :: 0 <= j < |table| && table[j].id == table[i].id ==> table[j] == table[i])
            ==> FindParam(table, table[i].id) == Some(table[i])
    decreases i
  {
    if i > 0 && table[0].id != table[i].id {
      FindFirst(table[1..], i - 1);
    }
  }

  function NextParamId(table: ParamTable): (n: nat)
    ensures forall i :: 0 <= i < |table| ==> table[i].id < n
    decreases |table|
  {
    if |table| == 0 then 1 else Max(table[0].id + 1, NextParamId(table[1..]))
  }

  /**
   * `create_parameter`: the body is validated before the handler runs; then
   * a director or above adds an unlocked row recording its creator.
   */
  function Create(table: ParamTable, data: ParameterCreate, user: User): (r: Result<(ParamTable, Parameter)>)
    ensures ValidateParameterCreate(data).Err? ==> r == Err(ValidateParameterCreate(data).error)
    ensures ValidateParameterCreate(data).Ok? && !HasMinimumRole(user, Director) ==> r == Err(DirectorOnly)
    ensures r.Ok? <==> ValidateParameterCreate(data).Ok? && HasMinimumRole(user, Director)
    ensures r.Ok? ==>
              var (t, p) := r.value;
              t == table + [p] && !p.locked && p.lockedBy.None? && p.lockedAt.None? && p.createdBy == user.id
              && p.name == data.name && p.duplicateRate == data.duplicateRate && p.thresholds == data.thresholds
              && p.scope == data.scope && p.scopeId == data.scopeId
              && forall i :: 0 <= i < |table| ==> table[i].id != p.id
  {
    var d :- ValidateParameterCreate(data);
    if !HasMinimumRole(user, Director) then Err(DirectorOnly)
    else
      var p := Parameter(NextParamId(table), d.name, d.duplicateRate, d.thresholds, d.scope, d.scopeId,
                         false, None, None, user.id);
      Ok((table + [p], p))
  }

  /** `setattr` for every field present in the body; absent fields and the lock columns keep their values. */
  function ApplyUpdate(p: Parameter, u: ParameterUpdate): (q: Parameter)
    ensures q.id == p.id && q.createdBy == p.createdBy
    ensures q.locked == p.locked && q.lockedBy == p.lockedBy && q.lockedAt == p.lockedAt
    ensures q.name == u.name.GetOr(p.name) && q.duplicateRate == u.duplicateRate.GetOr(p.duplicateRate)
    ensures q.scope == u.scope.GetOr(p.scope) && q.scopeId == u.scopeId.GetOr(p.scopeId)
    ensures q.thresholds.formatExcellent == u.formatExcellent.GetOr(p.thresholds.formatExcellent)
    ensures q.thresholds.formatGood == u.formatGood.GetOr(p.thresholds.formatGood)
    ensures q.thresholds.formatPassing == u.formatPassing.GetOr(p.thresholds.formatPassing)
    ensures q.thresholds.formatFailure == u.formatFailure.GetOr(p.thresholds.formatFailure)
    ensures q.thresholds.titleExcellent == u.titleExcellent.GetOr(p.thresholds.titleExcellent)
    ensures q.thresholds.titleGood == u.titleGood.GetOr(p.thresholds.titleGood)
    ensures q.thresholds.titlePassing == u.titlePassing.GetOr(p.thresholds.titlePassing)
    ensures q.thresholds.titleFailure == u.titleFailure.GetOr(p.thresholds.titleFailure)
  {
    var t := p.thresholds;
    p.(name := u.name.GetOr(p.name),
       duplicateRate := u.duplicateRate.GetOr(p.duplicateRate),
       thresholds := Thresholds(
         u.formatExcellent.GetOr(t.formatExcellent), u.formatGood.GetOr(t.formatGood),
         u.formatPassing.GetOr(t.formatPassing), u.formatFailure.GetOr(t.formatFailure),
         u.titleExcellent.GetOr(t.titleExcellent), u.titleGood.GetOr(t.titleGood),
         u.titlePassing.GetOr(t.titlePassing), u.titleFailure.GetOr(t.titleFailure)),
       scope := u.scope.GetOr(p.scope),
       scopeId := u.scopeId.GetOr(p.scopeId))
  }

  /**
   * Writes keep the table sound: a new row keeps the ids distinct; an empty
   * body changes nothing; and applying the same body twice is applying it once.
   */
  lemma WriteLaws(table: ParamTable, data: ParameterCreate, user: User, p: Parameter, u: ParameterUpdate)
    ensures IdsUnique(table) && Create(table, data, user).Ok? ==> IdsUnique(Create(table, data, user).value.0)
    ensures ApplyUpdate(p, EmptyUpdate) == p
    ensures ApplyUpdate(ApplyUpdate(p, u), u) == ApplyUpdate(p, u)
  {
  }

  /**
   * `update_parameter`: body validation, then the role check, then the
   * lookup, then the lock; only an existing unlocked row is changed.
   */
  function Update(table: ParamTable, id: nat, u: ParameterUpdate, user: User): (r: Result<ParamTable>)
    ensures ValidateParameterUpdate(u).Err? ==> r == Err(ValidateParameterUpdate(u).error)
    ensures ValidateParameterUpdate(u).Ok? && !HasMinimumRole(user, Director) ==> r == Err(DirectorOnly)
    ensures ValidateParameterUpdate(u).Ok? && HasMinimumRole(user, Director) && FindParam(table, id).None? ==>
              r == Err(Missing)
    ensures (ValidateParameterUpdate(u).Ok? && HasMinimumRole(user, Director) && FindParam(table, id).Some?
             && FindParam(table, id).value.locked) ==> r == Err(LockedError)
    ensures r.Ok? <==> ValidateParameterUpdate(u).Ok? && HasMinimumRole(user, Director)
                       && FindParam(table, id).Some? && !FindParam(table, id).value.locked
    ensures r.Ok? ==> r.value == Replace(table, ApplyUpdate(FindParam(table, id).value, u))
  {
    var _ :- ValidateParameterUpdate(u);
    if !HasMinimumRole(user, Director) then Err(DirectorOnly)
    else
      match FindParam(table, id)
      case None => Err(Missing)
      case Some(p) => if p.locked then Err(LockedError) else Ok(Replace(table, ApplyUpdate(p, u)))
  }

  /** `lock_parameter`: a dean or above locks an existing row, whatever its state, and becomes its locker. */
  function Lock(table: ParamTable, id: nat, user: User, now: nat): (r: Result<(ParamTable, Message)>)
    ensures !HasMinimumRole(user, Dean) ==> r == Err(DeanOnly)
    ensures HasMinimumRole(user, Dean) && FindParam(table, id).None? ==> r == Err(Missing)
    ensures r.Ok? <==> HasMinimumRole(user, Dean) && FindParam(table, id).Some?
    ensures r.Ok? ==>
              var p := FindParam(table, id).value;
              r.value.0 == Replace(table, p.(locked := true, lockedBy := Some(user.id), lockedAt := Some(now)))
              && r.value.1 == Msg("参数已锁定")
  {
    if !HasMinimumRole(user, Dean) then Err(DeanOnly)
    else
      match FindParam(table, id)
      case None => Err(Missing)
      case Some(p) => Ok((Replace(table, p.(locked := true, lockedBy := Some(user.id), lockedAt := Some(now))),
                          Msg("参数已锁定")))
  }

  /** `unlock_parameter`: a dean or above unlocks an existing row, whatever its state, clearing the locker and time. */
  function Unlock(table: ParamTable, id: nat, user: User): (r: Result<(ParamTable, Message)>)
    ensures !HasMinimumRole(user, Dean) ==> r == Err(DeanOnly)
    ensures HasMinimumRole(user, Dean) && FindParam(table, id).None? ==> r == Err(Missing)
    ensures r.Ok? <==> HasMinimumRole(user, Dean) && FindParam(table, id).Some?
    ensures r.Ok? ==>
              var p := FindParam(table, id).value;
              r.value.0 == Replace(table, p.(locked := false, lockedBy := None, lockedAt := None))
              && r.value.1 == Msg("参数已解锁")
  {
    if !HasMinimumRole(user, Dean) then Err(DeanOnly)
    else
      match FindParam(table, id)
      case None => Err(Missing)
      case Some(p) => Ok((Replace(table, p.(locked := false, lockedBy := None, lockedAt := None)), Msg("参数已解锁")))
  }

  /**
   * The lock as the handlers see it: once locked, a row refuses every valid
   * update by every director, until unlocked; after an unlock, a valid update
   * by a director goes through; and re-locking overwrites the locker, so the
   * last dean to lock is recorded.
   */
  lemma LockLaws(table: ParamTable, id: nat, dean: User, other: User, now: nat, later: nat,
                 u: ParameterUpdate, editor: User)
    ensures Lock(table, id, dean, now).Ok? && ValidateParameterUpdate(u).Ok? && HasMinimumRole(editor, Director) ==>
              Update(Lock(table, id, dean, now).value.0, id, u, editor) == Err(LockedError)
    ensures Unlock(table, id, dean).Ok? && ValidateParameterUpdate(u).Ok? && HasMinimumRole(editor, Director) ==>
              Update(Unlock(table, id, dean).value.0, id, u, editor).Ok?
    ensures Lock(table, id, dean, now).Ok? && HasMinimumRole(other, Dean) ==>
              var t := Lock(table, id, dean, now).value.0;
              Lock(t, id, other, later).Ok?
              && FindParam(Lock(t, id, other, later).value.0, id).value.lockedBy == Some(other.id)
  {
    if Lock(table, id, dean, now).Ok? {
      var p := FindParam(table, id).value;
      var p1 := p.(locked := true, lockedBy := Some(dean.id), lockedAt := Some(now));
      FindAfterReplace(table, p1);
      var t := Replace(table, p1);
      if HasMinimumRole(other, Dean) {
        FindAfterReplace(t, p1.(locked := true, lockedBy := Some(other.id), lockedAt := Some(later)));
      }
    }
    if Unlock(table, id, dean).Ok? {
      var p := FindParam(table, id).value;
      FindAfterReplace(table, p.(locked := false, lockedBy := None, lockedAt := None));
    }
  }
}
