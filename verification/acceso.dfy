/**
 * The request gates in front of the controllers: the exact-role gate
 * (`requireRole`), the employee-or-owner gate (`allowEmployeeOrOwner`)
 * and the CI pre-check on borrower registration (`validateCedula`). Each
 * answers `Next` (the request goes on) or a refusal with its status.
 */
module Acceso {
  import opened Wrappers
  import opened Js
  import opened Http
  import opened Entities
  import Prestatarios

  const AuthRequerida: string := "Autenticación requerida"
  const NoAutorizado: string := "No autorizado"
  const CiRequerido: string := "ci requerido"
  const CedulaDuplicada: string := "Cédula duplicada"

  /**
   * `requireRole(role)`: an unauthenticated request is refused with 401,
   * a caller of any other role with 403; the roles are compared as plain
   * strings.
   */
  function RequireRole(user: Option<User>, role: string): (g: Gate)
    ensures user.None? ==> g == Deny(401, AuthRequerida)
    ensures user.Some? && user.value.role != role ==> g == Deny(403, NoAutorizado)
    ensures g.Next? <==> IsRole(user, role)
  {
    if user.None? then Deny(401, AuthRequerida)
    else if user.value.role != role then Deny(403, NoAutorizado)
    else Next
  }

  /** There is no role hierarchy: an administrator does not pass a gate for employees. */
  lemma NoRoleHierarchy(u: User)
    requires u.role == "ADMIN"
    ensures RequireRole(Some(u), "EMPLEADO") == Deny(403, NoAutorizado)
  {
  }

  /** A caller passes the gate of one role only. */
  lemma OneRolePasses(user: Option<User>, a: string, b: string)
    requires RequireRole(user, a).Next? && RequireRole(user, b).Next?
    ensures a == b
  {
  }

  /** The roles that pass the employee-or-owner gate without an ownership check. */
  predicate EsPersonal(u: User) {
    u.role == "EMPLEADO" || u.role == "ADMIN"
  }

  /**
   * `allowEmployeeOrOwner(getOwnerId)`: `owner` is what the owner lookup
   * answers for the request (the owning borrower's id, none, or a thrown
   * error with its message). Employees and administrators pass without it;
   * for anyone else the lookup runs first, then the caller's borrower link
   * is checked, then the two ids are compared.
   */
  function AllowEmployeeOrOwner(user: Option<User>, owner: Result<Option<int>, string>): (g: Gate)
    ensures user.None? ==> g == Deny(401, AuthRequerida)
    ensures user.Some? && EsPersonal(user.value) ==> g == Next
    ensures user.Some? && !EsPersonal(user.value) && owner.Err? ==> g == Deny(500, owner.error)
    ensures user.Some? && !EsPersonal(user.value) && owner.Ok? && !TruthyInt(user.value.idPrestatario) ==> g == Deny(403, NoVinculada)
    ensures g.Next? <==>
              && user.Some?
              && (|| EsPersonal(user.value)
                  || (owner.Ok? && TruthyInt(user.value.idPrestatario) && owner.value == user.value.idPrestatario))
    ensures g.Deny? && g.status == 403 && g.message == NoAutorizado ==>
              user.Some? && owner.Ok? && TruthyInt(user.value.idPrestatario) && owner.value != user.value.idPrestatario
  {
    if user.None? then Deny(401, AuthRequerida)
    else if EsPersonal(user.value) then Next
    else match owner
      case Err(e) => Deny(500, e)
      case Ok(ownerId) =>
        if !TruthyInt(user.value.idPrestatario) then Deny(403, NoVinculada)
        else if ownerId == user.value.idPrestatario then Next
        else Deny(403, NoAutorizado)
  }

  /** For staff the gate's decision does not depend on the owner lookup at all. */
  lemma StaffIgnoresOwner(u: User, o1: Result<Option<int>, string>, o2: Result<Option<int>, string>)
    requires EsPersonal(u)
    ensures AllowEmployeeOrOwner(Some(u), o1) == AllowEmployeeOrOwner(Some(u), o2)
  {
  }

  /** A failing owner lookup refuses even a caller whose account has no borrower link: the lookup runs first. */
  lemma LookupBeforeLink(u: User, e: string)
    requires !EsPersonal(u) && !TruthyInt(u.idPrestatario)
    ensures AllowEmployeeOrOwner(Some(u), Err(e)) == Deny(500, e)
    ensures AllowEmployeeOrOwner(Some(u), Ok(Some(0))).Deny?
  {
  }

  /**
   * The CI `validateCedula` checks, `Number(req.body?.ci || req.params?.ci)`:
   * the body's value when it is a non-empty string, otherwise the path
   * parameter's; with neither the result is `Number(undefined)`, NaN.
   */
  function CiDe(bodyCi: Option<string>, paramCi: Option<string>, num: string -> Num): (ci: Num)
    ensures TruthyStr(bodyCi) ==> ci == num(bodyCi.value)
    ensures !TruthyStr(bodyCi) && paramCi.Some? ==> ci == num(paramCi.value)
    ensures !TruthyStr(bodyCi) && paramCi.None? ==> ci == NaN
  {
    if TruthyStr(bodyCi) then num(bodyCi.value)
    else match paramCi
      case Some(p) => num(p)
      case None => NaN
  }

  /**
   * `validateCedula`: a CI that is missing, zero or NaN is refused with 400
   * before any lookup; otherwise `cedulaTomada` (the duplicate lookup, or
   * the message it failed with) decides between 409, 500 and going on.
   */
  function ValidateCedula(ci: Num, cedulaTomada: Num -> Result<bool, string>): (g: Gate)
    ensures !Truthy(ci) ==> g == Deny(400, CiRequerido)
    ensures Truthy(ci) && cedulaTomada(ci) == Ok(true) ==> g == Deny(409, CedulaDuplicada)
    ensures Truthy(ci) && cedulaTomada(ci).Err? ==> g == Deny(500, cedulaTomada(ci).error)
    ensures g.Next? <==> Truthy(ci) && cedulaTomada(ci) == Ok(false)
  {
    if !Truthy(ci) then Deny(400, CiRequerido)
    else match cedulaTomada(ci)
      case Err(e) => Deny(500, e)
      case Ok(duplicada) => if duplicada then Deny(409, CedulaDuplicada) else Next
  }

  /** A missing CI is refused the same way whatever the lookup would say. */
  lemma MissingCiSkipsLookup(ci: Num, l1: Num -> Result<bool, string>, l2: Num -> Result<bool, string>)
    requires !Truthy(ci)
    ensures ValidateCedula(ci, l1) == ValidateCedula(ci, l2) == Deny(400, CiRequerido)
  {
  }

  /**
   * With the borrower table's own duplicate check as the lookup, a CI that
   * passes the gate is not registered, so inserting a complete borrower
   * with that CI under a fresh key is not refused as a duplicate: it
   * succeeds whenever the CI is an integer.
   */
  lemma GatePassedMeansInsertable(st: Store, data: Prestatarios.Datos, id: int, now: int, num: string -> Num, rechazoBd: string)
    requires ValidateCedula(num(Prestatarios.CiTexto(data)), c => Ok(Prestatarios.CheckCedula(st, c))).Next?
    requires Prestatarios.Completo(data)
    requires id !in st.prestatarios
    ensures Prestatarios.InsertPrestatario(st, data, id, now, num, rechazoBd).1 != Err(Prestatarios.DupCi)
    ensures AsId(num(Prestatarios.CiTexto(data))).Some? ==> Prestatarios.InsertPrestatario(st, data, id, now, num, rechazoBd).1.Ok?
  {
    assert !Prestatarios.CheckCedula(st, num(Prestatarios.CiTexto(data)));
  }
}
