/**
 * The refinancing controller: the token and body checks, ownership and
 * state checks of `crear`, the id checks of `aprobar` and `rechazar`, and
 * their best-effort notification, whose outcome never reaches the reply.
 */
module RefinanciacionesApi {
  import opened Wrappers
  import opened Js
  import opened Http
  import opened Entities
  import opened Collaborators
  import opened Ordering
  import opened Prestamos
  import opened Refinanciaciones

  const TokenInvalido: string := "id_prestatario inválido en el token de autenticación"
  const PrestamoNoEncontradoApi: string := "Préstamo no encontrado"
  const NoTePertenece: string := "No puedes solicitar refinanciación sobre un préstamo que no te pertenece"
  const SoloActivosApi: string := "Solo se pueden solicitar refinanciaciones sobre préstamos activos"
  const ErrorInterno: string := "Error interno al registrar la solicitud de refinanciación. Intenta nuevamente más tarde."
  const IdSolicitudInvalidoApi: string := "id de solicitud inválido"
  const ErrorAprobarApi: string := "Error al aprobar la solicitud de refinanciación"
  const ErrorRechazarApi: string := "Error al rechazar la solicitud de refinanciación"

  /** The caller's borrower id from the token, when it is usable. */
  predicate TokenOk(user: Option<User>) {
    user.Some? && TruthyInt(user.value.idPrestatario)
  }

  /** The controller's own checks of `crear` pass: a usable token, a valid loan id and count, the caller's ACTIVO loan. */
  predicate ControlesCrear(st: Store, user: Option<User>, idPrestamo: Num, nuevoNroCuotas: Num) {
    && TokenOk(user) && PositiveFinite(idPrestamo) && PositiveInteger(nuevoNroCuotas)
    && FindById(st, idPrestamo).Some?
    && FindById(st, idPrestamo).value.idPrestatario == user.value.idPrestatario.value
    && FindById(st, idPrestamo).value.estado == PrestamoEstado.Activo
  }

  /**
   * `crear`: token, loan id, count, loan existence (404), ownership (403),
   * loan state (400), in that order; then the model creates the request
   * (201), and any failure of it answers 500.
   */
  function Crear(
    st: Store, user: Option<User>, idPrestamo: Num, nuevoNroCuotas: Num,
    now: int, nextval: Result<int, string>, triggerId: int, rechazoBd: string
  ): (r: (Store, Reply<CreadaRefi>))
    ensures !TokenOk(user) ==> r == (st, Fail(400, TokenInvalido))
    ensures TokenOk(user) && !PositiveFinite(idPrestamo) ==> r == (st, Fail(400, IdPrestamoInvalido))
    ensures TokenOk(user) && PositiveFinite(idPrestamo) && !PositiveInteger(nuevoNroCuotas) ==> r == (st, Fail(400, CuotasInvalidas))
    ensures TokenOk(user) && PositiveFinite(idPrestamo) && PositiveInteger(nuevoNroCuotas) ==>
              && (FindById(st, idPrestamo).None? ==> r == (st, Fail(404, PrestamoNoEncontradoApi)))
              && (FindById(st, idPrestamo).Some? && FindById(st, idPrestamo).value.idPrestatario != user.value.idPrestatario.value ==>
                    r == (st, Fail(403, NoTePertenece)))
              && (FindById(st, idPrestamo).Some? && FindById(st, idPrestamo).value.idPrestatario == user.value.idPrestatario.value
                  && FindById(st, idPrestamo).value.estado != PrestamoEstado.Activo ==>
                    r == (st, Fail(400, SoloActivosApi)))
    ensures r.1.status == 201 <==> r.1.body.Ok?
    ensures ControlesCrear(st, user, idPrestamo, nuevoNroCuotas) ==>
              var c := CrearSolicitudRefinanciacion(st, NuevaRefi(idPrestamo, OfInt(user.value.idPrestatario.value), nuevoNroCuotas),
                                                    now, nextval, triggerId, rechazoBd);
              && (c.1.Ok? ==> r == (c.0, Reply(201, c.1)))
              && (c.1.Err? ==> r == (st, Fail(500, ErrorInterno)))
    ensures r.1.body.Err? ==> r.0 == st
    ensures r.1.body.Ok? ==>
              && FindById(st, idPrestamo).Some?
              && FindById(st, idPrestamo).value.idPrestatario == user.value.idPrestatario.value
              && FindById(st, idPrestamo).value.estado == PrestamoEstado.Activo
              && r.1.body.value.estado == RefiEstado.Pendiente
              && r.1.body.value.id in r.0.refinanciaciones
              && r.0.refinanciaciones[r.1.body.value.id].idPrestatario == user.value.idPrestatario.value
              && r.0.prestamos == st.prestamos && r.0.cuotas == st.cuotas
  {
    if !TokenOk(user) then (st, Fail(400, TokenInvalido))
    else if !PositiveFinite(idPrestamo) then (st, Fail(400, IdPrestamoInvalido))
    else if !PositiveInteger(nuevoNroCuotas) then (st, Fail(400, CuotasInvalidas))
    else
      var idp := user.value.idPrestatario.value;
      match FindById(st, idPrestamo)
      case None => (st, Fail(404, PrestamoNoEncontradoApi))
      case Some(loan) =>
        if loan.idPrestatario != idp then (st, Fail(403, NoTePertenece))
        else if loan.estado != PrestamoEstado.Activo then (st, Fail(400, SoloActivosApi))
        else
          var c := CrearSolicitudRefinanciacion(st, NuevaRefi(idPrestamo, OfInt(idp), nuevoNroCuotas), now, nextval, triggerId, rechazoBd);
          match c.1
          case Ok(out) => (c.0, Reply(201, Ok(out)))
          case Err(_) => (st, Fail(500, ErrorInterno))
  }

  /** The ownership check comes before the state check: another borrower's loan is 403 whatever its state. */
  lemma OwnershipBeforeState(
    st: Store, user: Option<User>, idPrestamo: Num, nuevoNroCuotas: Num,
    now: int, nextval: Result<int, string>, triggerId: int, rechazoBd: string, k: int)
    requires TokenOk(user) && PositiveFinite(idPrestamo) && PositiveInteger(nuevoNroCuotas)
    requires k in st.prestamos && OfInt(k) == idPrestamo && st.prestamos[k].idPrestatario != user.value.idPrestatario.value
    ensures Crear(st, user, idPrestamo, nuevoNroCuotas, now, nextval, triggerId, rechazoBd).1.status == 403
  {
    assert FindLoan(st, idPrestamo) == Some(k);
  }

  /** `misSolicitudes`: the caller's own refinancing requests; 400 without a usable token id. */
  method MisSolicitudes(st: Store, user: Option<User>) returns (r: Reply<seq<(int, Refinanciacion)>>)
    ensures !TokenOk(user) <==> r == Fail(400, TokenInvalido)
    ensures TokenOk(user) ==> r.status == 200 && r.body.Ok?
    ensures r.body.Ok? ==>
              ListingOf(r.body.value, st.refinanciaciones,
                        set k | k in st.refinanciaciones && st.refinanciaciones[k].idPrestatario == user.value.idPrestatario.value)
  {
    if !TokenOk(user) {
      return Fail(400, TokenInvalido);
    }
    var idp := user.value.idPrestatario.value;
    var rows := ListarPorPrestatario(st, OfInt(idp));
    assert (set k | k in st.refinanciaciones && OfInt(st.refinanciaciones[k].idPrestatario) == OfInt(idp))
        == (set k | k in st.refinanciaciones && st.refinanciaciones[k].idPrestatario == idp);
    return Reply(200, Ok(rows.value));
  }

  /** `listar`: the query's state and borrower id become the model's filters. */
  method Listar(st: Store, estado: Option<string>, idPrestatario: Option<Num>) returns (r: Reply<seq<(int, Refinanciacion)>>)
    ensures r.status == 200 && r.body.Ok?
    ensures ListingOf(r.body.value, st.refinanciaciones,
                      set k | k in st.refinanciaciones && Pasa(st.refinanciaciones[k], FiltrosRefi(OrNull(estado), idPrestatario)))
    ensures Descending(Column(r.body.value))
  {
    var rows := ListarSolicitudes(st, FiltrosRefi(OrNull(estado), idPrestatario));
    return Reply(200, Ok(rows));
  }

  /**
   * `aprobar`: a non-finite or non-positive id is refused before the model
   * runs. After a successful approval the borrower is notified; `aviso` is
   * the outcome of that notification, which is logged and otherwise ignored.
   */
  function Aprobar(st: Store, id: Num, gen: CuotaGenerator, aviso: Result<(), string>): (r: (Store, Reply<Aprobacion>))
    ensures !PositiveFinite(id) ==> r == (st, Fail(400, IdSolicitudInvalidoApi))
    ensures PositiveFinite(id) ==> r.0 == AprobarSolicitud(st, id, gen).0
    ensures PositiveFinite(id) && AprobarSolicitud(st, id, gen).1.Ok? ==> r.1 == Reply(200, AprobarSolicitud(st, id, gen).1)
    ensures PositiveFinite(id) && AprobarSolicitud(st, id, gen).1.Err? ==>
              r.1 == Fail(400, MessageOr(AprobarSolicitud(st, id, gen).1.error, ErrorAprobarApi))
  {
    if !PositiveFinite(id) then (st, Fail(400, IdSolicitudInvalidoApi))
    else
      var a := AprobarSolicitud(st, id, gen);
      match a.1
      case Ok(v) => (a.0, Reply(200, Ok(v)))
      case Err(e) => (a.0, Fail(400, MessageOr(e, ErrorAprobarApi)))
  }

  /** `rechazar`: the same id check, and the same best-effort notification. */
  function Rechazar(st: Store, id: Num, aviso: Result<(), string>): (r: (Store, Reply<RefiOut>))
    ensures !PositiveFinite(id) ==> r == (st, Fail(400, IdSolicitudInvalidoApi))
    ensures PositiveFinite(id) ==> r.0 == RechazarSolicitud(st, id).0
    ensures PositiveFinite(id) && RechazarSolicitud(st, id).1.Ok? ==> r.1 == Reply(200, RechazarSolicitud(st, id).1)
    ensures PositiveFinite(id) && RechazarSolicitud(st, id).1.Err? ==>
              r.1 == Fail(400, MessageOr(RechazarSolicitud(st, id).1.error, ErrorRechazarApi))
    ensures r.0.prestamos == st.prestamos && r.0.cuotas == st.cuotas
  {
    if !PositiveFinite(id) then (st, Fail(400, IdSolicitudInvalidoApi))
    else
      var a := RechazarSolicitud(st, id);
      match a.1
      case Ok(v) => (a.0, Reply(200, Ok(v)))
      case Err(e) => (a.0, Fail(400, MessageOr(e, ErrorRechazarApi)))
  }

  /** A failed notification changes neither the reply nor the store. */
  lemma NotificationIsBestEffort(st: Store, id: Num, gen: CuotaGenerator, a1: Result<(), string>, a2: Result<(), string>)
    ensures Aprobar(st, id, gen, a1) == Aprobar(st, id, gen, a2)
    ensures Rechazar(st, id, a1) == Rechazar(st, id, a2)
  {
  }
}
