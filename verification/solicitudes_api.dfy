/**
 * The loan-request controller: input validation and the borrower-id
 * override of `crear`, the caller check of `misSolicitudes`, the shaping of
 * the listing filters and of the approval and rejection arguments, and the
 * status codes of the replies.
 */
module SolicitudesApi {
  import opened Wrappers
  import opened Js
  import opened Http
  import opened Entities
  import opened Text
  import opened Ordering
  import opened Solicitudes

  const MontoInvalido: string := "Monto inválido: debe ser un número positivo"
  const CuotasInvalidas: string := "Número de cuotas inválido: debe ser un entero positivo"
  const IdRequerido: string := "id_prestatario es requerido cuando crea solicitud un EMPLEADO"

  /** The body of `POST /solicitudes`, its numbers already through `Number(...)`. */
  datatype CrearBody = CrearBody(idPrestatario: Option<Num>, monto: Num, nroCuotas: Num, idEmpleado: Field<int>)

  /** The borrower id the request is for: a borrower caller's own, from the token, whatever the body says. */
  function IdEfectivo(user: Option<User>, body: CrearBody): (r: Option<Num>)
    ensures IsRole(user, "PRESTATARIO") && TruthyInt(user.value.idPrestatario) ==> r == Some(OfInt(user.value.idPrestatario.value))
    ensures IsRole(user, "PRESTATARIO") && !TruthyInt(user.value.idPrestatario) ==> r.None?
    ensures !IsRole(user, "PRESTATARIO") ==> r == body.idPrestatario
  {
    if IsRole(user, "PRESTATARIO") then
      (if TruthyInt(user.value.idPrestatario) then Some(OfInt(user.value.idPrestatario.value)) else None)
    else body.idPrestatario
  }

  /** `Number(payload.id_prestatario)`: an absent id is `Number(undefined)`, NaN. */
  function IdNumero(user: Option<User>, body: CrearBody): (r: Num)
    ensures IdEfectivo(user, body).None? ==> r == NaN
    ensures IdEfectivo(user, body).Some? ==> r == IdEfectivo(user, body).value
  {
    match IdEfectivo(user, body)
    case Some(n) => n
    case None => NaN
  }

  predicate MontoValido(monto: Num) {
    IsFinite(monto) && monto.x > 0.0
  }

  predicate CuotasValidas(n: Num) {
    IsInteger(n) && n.x > 0.0
  }

  /** The checks of `crear`, in order: amount, count, then an employee caller's borrower id. */
  function Validar(user: Option<User>, body: CrearBody): (r: Result<(real, int), string>)
    ensures !MontoValido(body.monto) ==> r == Err(MontoInvalido)
    ensures MontoValido(body.monto) && !CuotasValidas(body.nroCuotas) ==> r == Err(CuotasInvalidas)
    ensures MontoValido(body.monto) && CuotasValidas(body.nroCuotas) && IsRole(user, "EMPLEADO") && !TruthyNum(IdEfectivo(user, body)) ==>
              r == Err(IdRequerido)
    ensures r.Ok? <==> MontoValido(body.monto) && CuotasValidas(body.nroCuotas)
                       && !(IsRole(user, "EMPLEADO") && !TruthyNum(IdEfectivo(user, body)))
    ensures r.Err? ==> r.error in {MontoInvalido, CuotasInvalidas, IdRequerido}
    ensures r.Ok? ==> r.value.0 == body.monto.x && r.value.1 as real == body.nroCuotas.x && r.value.1 > 0
  {
    if !MontoValido(body.monto) then Err(MontoInvalido)
    else if !CuotasValidas(body.nroCuotas) then Err(CuotasInvalidas)
    else if IsRole(user, "EMPLEADO") && !TruthyNum(IdEfectivo(user, body)) then Err(IdRequerido)
    else Ok((body.monto.x, body.nroCuotas.x.Floor))
  }

  /**
   * `crear`. A borrower id that is not an integer (absent, NaN, fractional)
   * reaches an INSERT the database refuses; `rechazoBd` is that refusal's
   * message, reported unless a configured sequence failed first. Every
   * error answers 400; a created request answers 201.
   */
  function Crear(
    st: Store, user: Option<User>, body: CrearBody, now: int,
    seqName: Option<string>, nextval: string -> Result<int, string>, triggerId: int, rechazoBd: string
  ): (r: (Store, Reply<Creada>))
    ensures r.1.status == 201 || r.1.status == 400
    ensures r.1.status == 201 <==> r.1.body.Ok?
    ensures Validar(user, body).Err? ==> r == (st, Fail(400, Validar(user, body).error))
    ensures Validar(user, body).Ok? ==>
              var c := CrearSolicitud(st, NuevaSolicitud(IdNumero(user, body), Validar(user, body).value.0,
                                                         Validar(user, body).value.1, body.idEmpleado),
                                      now, seqName, nextval, triggerId, rechazoBd);
              && (c.1.Ok? ==> r == (c.0, Reply(201, c.1)))
              && (c.1.Err? ==> r == (st, Fail(400, c.1.error)))
    ensures Validar(user, body).Ok? && TruthyStr(seqName) && nextval(seqName.value) == Ok(0) ==>
              r == (st, Fail(400, SinNextval(seqName.value)))
    ensures Validar(user, body).Ok? && AsId(IdNumero(user, body)).None? && (!TruthyStr(seqName) || Usable(nextval(seqName.value))) ==>
              r == (st, Fail(400, rechazoBd))
    ensures r.1.body.Err? ==> r.0 == st
    ensures r.1.body.Ok? ==>
              var k := r.1.body.value.id;
              && k !in st.solicitudes
              && r.0.solicitudes.Keys == st.solicitudes.Keys + {k}
              && r.0.solicitudes[k].estado == SolicitudEstado.Pendiente
              && Some(OfInt(r.0.solicitudes[k].idPrestatario)) == IdEfectivo(user, body)
              && r.0.solicitudes[k].monto == body.monto.x
              && r.0.solicitudes[k].nroCuotas as real == body.nroCuotas.x
              && r.0.solicitudes[k].idEmpleado == OrNullField(body.idEmpleado)
  {
    match Validar(user, body)
    case Err(e) => (st, Fail(400, e))
    case Ok(v) =>
      var c := CrearSolicitud(st, NuevaSolicitud(IdNumero(user, body), v.0, v.1, body.idEmpleado), now, seqName, nextval, triggerId, rechazoBd);
      match c.1
      case Ok(out) => (c.0, Reply(201, Ok(out)))
      case Err(e) => (st, Fail(400, e))
  }

  /** A borrower caller cannot create a request for anybody else: the body's borrower id is ignored. */
  lemma CrearIgnoresBodyIdForBorrower(
    st: Store, user: Option<User>, body: CrearBody, other: Option<Num>, now: int,
    seqName: Option<string>, nextval: string -> Result<int, string>, triggerId: int, rechazoBd: string)
    requires IsRole(user, "PRESTATARIO")
    ensures Crear(st, user, body, now, seqName, nextval, triggerId, rechazoBd)
         == Crear(st, user, body.(idPrestatario := other), now, seqName, nextval, triggerId, rechazoBd)
  {
    assert IdEfectivo(user, body) == IdEfectivo(user, body.(idPrestatario := other));
    assert Validar(user, body) == Validar(user, body.(idPrestatario := other));
  }

  /** `misSolicitudes`: the caller's own requests; 403 for a caller linked to no borrower. */
  method MisSolicitudes(st: Store, user: Option<User>) returns (r: Reply<seq<(int, Solicitud)>>)
    ensures r.status == 403 <==> !(user.Some? && TruthyInt(user.value.idPrestatario))
    ensures r.status == 403 ==> r == Fail(403, NoVinculada)
    ensures r.status != 403 ==> r.status == 200 && r.body.Ok?
    ensures r.body.Ok? ==>
              var b := user.value.idPrestatario.value;
              && ListingOf(r.body.value, st.solicitudes, set k | k in st.solicitudes && st.solicitudes[k].idPrestatario == b)
              && Descending(Column(r.body.value))
  {
    if !(user.Some? && TruthyInt(user.value.idPrestatario)) {
      return Fail(403, NoVinculada);
    }
    var b := user.value.idPrestatario.value;
    var rows := ListarPorPrestatario(st, OfInt(b));
    assert (set k | k in st.solicitudes && OfInt(st.solicitudes[k].idPrestatario) == OfInt(b))
        == (set k | k in st.solicitudes && st.solicitudes[k].idPrestatario == b);
    return Reply(200, Ok(rows.value));
  }

  /** The filters `listar` builds from the query string: the state upper-cased, the borrower id as given. */
  function FiltrosDe(estado: Option<string>, idPrestatario: Option<Num>): (f: Filtros)
    ensures TruthyStr(estado) ==> f.estado == Some(ToUpper(estado.value))
    ensures !TruthyStr(estado) ==> !TruthyStr(f.estado)
    ensures f.idPrestatario == idPrestatario
  {
    Filtros(if TruthyStr(estado) then Some(ToUpper(estado.value)) else None, idPrestatario)
  }

  /** The state filter is case-insensitive: a query and its upper-cased form select the same rows. */
  lemma FiltrosCaseInsensitive(estado: string, idPrestatario: Option<Num>)
    ensures FiltrosDe(Some(estado), idPrestatario) == FiltrosDe(Some(ToUpper(estado)), idPrestatario)
  {
    ToUpperIdempotent(estado);
  }

  /** `listar`: always 200 with the requests passing the query's filters, newest first. */
  method Listar(st: Store, estado: Option<string>, idPrestatario: Option<Num>) returns (r: Reply<seq<(int, Solicitud)>>)
    ensures r.status == 200 && r.body.Ok?
    ensures ListingOf(r.body.value, st.solicitudes, set k | k in st.solicitudes && PasaFiltros(st.solicitudes[k], FiltrosDe(estado, idPrestatario)))
    ensures Descending(Column(r.body.value))
  {
    var rows := Solicitudes.Listar(st, FiltrosDe(estado, idPrestatario));
    return Reply(200, Ok(rows));
  }

  /** `aprobar`: 200 with the service's result, or 400 with its message; the path id goes through `Number`. */
  function Aprobar(st: Store, id: Num, now: int, create: Collaborators.LoanCreator, gen: Collaborators.CuotaGenerator)
    : (r: (Store, Reply<Aprobacion>))
    ensures r.0 == Solicitudes.Aprobar(st, id, now, create, gen).0
    ensures r.1.status == (if r.1.body.Ok? then 200 else 400)
    ensures r.1.body.Ok? <==> Solicitudes.Aprobar(st, id, now, create, gen).1.Ok?
  {
    var a := Solicitudes.Aprobar(st, id, now, create, gen);
    (a.0, match a.1 case Ok(v) => Reply(200, Ok(v)) case Err(e) => Fail(400, e))
  }

  /** `rechazar`: an empty or absent reason is passed as null. */
  function Rechazar(st: Store, id: Num, motivo: Option<string>, now: int): (r: (Store, Reply<Rechazo>))
    ensures r.0 == Solicitudes.Rechazar(st, id, OrNull(motivo), now).0
    ensures r.1.status == (if r.1.body.Ok? then 200 else 400)
    ensures r.1.body.Ok? <==> Solicitudes.Rechazar(st, id, OrNull(motivo), now).1.Ok?
    ensures r.1.body.Ok? ==> r.1.body == Solicitudes.Rechazar(st, id, OrNull(motivo), now).1 && r.1.body.value.motivo == OrNull(motivo)
    ensures r.1.body.Err? ==> r.1.body.error == Solicitudes.Rechazar(st, id, OrNull(motivo), now).1.error
  {
    var a := Solicitudes.Rechazar(st, id, OrNull(motivo), now);
    (a.0, match a.1 case Ok(v) => Reply(200, Ok(v)) case Err(e) => Fail(400, e))
  }
}
