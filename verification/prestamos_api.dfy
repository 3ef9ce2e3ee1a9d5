/**
 * The loan controller: the interest tier inferred from the installment
 * count, the payload a borrower caller may send to loan creation, the state
 * whitelist of the update, and the choice of the CI a projection is for.
 */
module PrestamosApi {
  import opened Wrappers
  import opened Js
  import opened Http
  import opened Entities
  import opened Text
  import opened Prestamos

  const EstadoInvalido: string := "Estado inválido. Valores permitidos: PENDIENTE, ACTIVO, CANCELADO, COMPLETADO"
  const CedulaInvalida: string := "Cédula inválida"
  const TokenInvalido: string := "id_prestatario inválido en el token de autenticación"

  /** The order of the tiers. */
  function TierRank(t: Tier): nat {
    match t
    case Baja => 0
    case Media => 1
    case Alta => 2
  }

  /** `inferTipoInteresFromCuotas`: up to 12 installments BAJA, up to 24 MEDIA, more ALTA; none for a non-finite count. */
  function InferTipoInteres(n: Num): (r: Option<Tier>)
    ensures r.None? <==> !IsFinite(n)
    ensures r == Some(Tier.Baja) <==> IsFinite(n) && n.x <= 12.0
    ensures r == Some(Tier.Media) <==> IsFinite(n) && 12.0 < n.x <= 24.0
    ensures r == Some(Tier.Alta) <==> IsFinite(n) && 24.0 < n.x
  {
    if !IsFinite(n) then None
    else if n.x <= 12.0 then Some(Tier.Baja)
    else if n.x <= 24.0 then Some(Tier.Media)
    else Some(Tier.Alta)
  }

  /** More installments never give a lower tier. */
  lemma InferMonotone(n: real, m: real)
    requires n <= m
    ensures TierRank(InferTipoInteres(Finite(n)).value) <= TierRank(InferTipoInteres(Finite(m)).value)
  {
  }

  /** The body of a loan creation, as far as the controller touches it. */
  datatype LoanBody = LoanBody(idPrestatario: Option<int>, nroCuotas: Num, tipoInteres: Option<string>, monto: Option<Num>, idEmpleado: Field<int>)

  /**
   * `crear`'s payload: a borrower caller's loan is always their own (the
   * token's borrower id, else its user id) and its tier is inferred from the
   * count, whatever the body says; any other caller's body is forwarded as is.
   */
  function CrearPayload(user: Option<User>, body: LoanBody): (r: LoanBody)
    ensures !(user.Some? && user.value.role == "PRESTATARIO") ==> r == body
    ensures user.Some? && user.value.role == "PRESTATARIO" ==>
              && r.idPrestatario == (if TruthyInt(user.value.idPrestatario) then user.value.idPrestatario else user.value.id)
              && (r.tipoInteres.Some? <==> IsFinite(body.nroCuotas))
              && (r.tipoInteres.Some? ==> r.tipoInteres.value == InferTipoInteres(body.nroCuotas).value.Name())
              && r.(idPrestatario := body.idPrestatario, tipoInteres := body.tipoInteres) == body
  {
    if user.Some? && user.value.role == "PRESTATARIO" then
      var t := InferTipoInteres(body.nroCuotas);
      body.(idPrestatario := if TruthyInt(user.value.idPrestatario) then user.value.idPrestatario else user.value.id,
            tipoInteres := if t.Some? then Some(t.value.Name()) else None)
    else body
  }

  /** A borrower caller's body values for the borrower and the tier do not matter. */
  lemma CrearPayloadIgnoresBorrowerFields(user: Option<User>, body: LoanBody, id: Option<int>, tier: Option<string>)
    requires user.Some? && user.value.role == "PRESTATARIO"
    ensures CrearPayload(user, body) == CrearPayload(user, body.(idPrestatario := id, tipoInteres := tier))
  {
  }

  /** The whitelist of `actualizar`: the name of a loan state, in upper case. */
  function ParseEstado(s: string): (r: Option<PrestamoEstado>)
    ensures r.Some? ==> r.value.Name() == s
  {
    if s == "PENDIENTE" then Some(PrestamoEstado.Pendiente)
    else if s == "ACTIVO" then Some(PrestamoEstado.Activo)
    else if s == "CANCELADO" then Some(PrestamoEstado.Cancelado)
    else if s == "COMPLETADO" then Some(PrestamoEstado.Completado)
    else None
  }

  /** Every loan state passes the whitelist as its own name. */
  lemma ParseEstadoName(e: PrestamoEstado)
    ensures ParseEstado(e.Name()) == Some(e)
  {
  }

  /**
   * `actualizar`: a given (non-null) state is upper-cased and must be on the
   * whitelist, or the request is refused with 400 before the model runs.
   */
  function Actualizar(st: Store, id: Num, estado: Field<string>): (r: (Store, Reply<Option<Prestamo>>))
    ensures estado.Value? && ParseEstado(ToUpper(estado.v)).None? ==> r == (st, Fail(400, EstadoInvalido))
    ensures estado.Value? && ParseEstado(ToUpper(estado.v)).Some? ==>
              var e := ParseEstado(ToUpper(estado.v)).value;
              && e.Name() == ToUpper(estado.v)
              && r.0 == UpdatePrestamo(st, id, Some(e)).0
              && r.1 == Reply(200, Ok(UpdatePrestamo(st, id, Some(e)).1))
    ensures !estado.Value? ==> r == (st, Reply(200, Ok(FindById(st, id))))
    ensures OnlyEstadoChanged(st, r.0, id)
  {
    match estado
    case Value(s) =>
      (match ParseEstado(ToUpper(s))
       case None => (st, Fail(400, EstadoInvalido))
       case Some(e) =>
         var u := UpdatePrestamo(st, id, Some(e));
         (u.0, Reply(200, Ok(u.1))))
    case _ =>
      var u := UpdatePrestamo(st, id, None);
      (u.0, Reply(200, Ok(u.1)))
  }

  /** The state a caller writes does not depend on how they capitalised it. */
  lemma ActualizarCaseInsensitive(st: Store, id: Num, s: string)
    ensures Actualizar(st, id, Value(s)) == Actualizar(st, id, Value(ToUpper(s)))
  {
    ToUpperIdempotent(s);
  }

  /** Whose projection `obtenerPorPrestatario` answers with. */
  datatype Consulta = PorCi(ci: Num) | PorId(idPrestatario: int) | CiInvalida

  /**
   * A borrower caller's CI comes from the token when it has one, else their
   * borrower id is used; anybody else's comes from the path. A zero or NaN
   * CI is refused.
   */
  function ElegirConsulta(user: Option<User>, pathCi: Num): (r: Consulta)
    ensures r.PorId? ==> user.Some? && user.value.role == "PRESTATARIO" && !TruthyInt(user.value.ci)
                         && TruthyInt(user.value.idPrestatario) && r.idPrestatario == user.value.idPrestatario.value
    ensures r.PorCi? ==> Truthy(r.ci)
    ensures user.Some? && user.value.role == "PRESTATARIO" && TruthyInt(user.value.ci) ==> r == PorCi(OfInt(user.value.ci.value))
    ensures !(user.Some? && user.value.role == "PRESTATARIO") ==> r == (if Truthy(pathCi) then PorCi(pathCi) else CiInvalida)
  {
    if user.Some? && user.value.role == "PRESTATARIO" && TruthyInt(user.value.ci) then PorCi(OfInt(user.value.ci.value))
    else if user.Some? && user.value.role == "PRESTATARIO" && TruthyInt(user.value.idPrestatario) then PorId(user.value.idPrestatario.value)
    else if Truthy(pathCi) then PorCi(pathCi)
    else CiInvalida
  }

  /** A borrower with a CI in the token only ever sees their own CI's projection, whatever the path says. */
  lemma BorrowerCiIgnoresPath(user: Option<User>, p1: Num, p2: Num)
    requires user.Some? && user.value.role == "PRESTATARIO" && TruthyInt(user.value.ci)
    ensures ElegirConsulta(user, p1) == ElegirConsulta(user, p2)
  {
  }

  /** `obtenerPorPrestatario`. */
  method ObtenerPorPrestatario(st: Store, user: Option<User>, pathCi: Num) returns (r: Reply<Proyeccion>)
    ensures ElegirConsulta(user, pathCi).CiInvalida? <==> r == Fail(400, CedulaInvalida)
    ensures r.body.Ok? ==> r.status == 200
    ensures !ElegirConsulta(user, pathCi).CiInvalida? ==> r.status == 200 && r.body.Ok?
    ensures ElegirConsulta(user, pathCi).PorCi? && r.body.Ok? ==>
              var ci := ElegirConsulta(user, pathCi).ci;
              var p := r.body.value;
              && (p.prestatario.None? <==> forall k :: k in st.prestatarios ==> OfInt(st.prestatarios[k].ci) != ci)
              && (p.prestatario.None? ==> p == Vacia)
              && (p.prestatario.Some? ==>
                    var idp := p.prestatario.value.0;
                    && idp in st.prestatarios && OfInt(st.prestatarios[idp].ci) == ci
                    && OfInt(p.prestatario.value.1) == ci
                    && ProjectionOf(st, idp, p))
    ensures ElegirConsulta(user, pathCi).PorId? && r.body.Ok? ==>
              var idp := ElegirConsulta(user, pathCi).idPrestatario;
              var p := r.body.value;
              && (p.prestatario.None? <==> idp !in st.prestatarios)
              && (p.prestatario.None? ==> p == Vacia)
              && (p.prestatario.Some? ==> p.prestatario.value == (idp, st.prestatarios[idp].ci) && ProjectionOf(st, idp, p))
  {
    match ElegirConsulta(user, pathCi)
    case CiInvalida =>
      return Fail(400, CedulaInvalida);
    case PorCi(ci) =>
      var p := FindByPrestatario(st, ci);
      return Reply(200, Ok(p));
    case PorId(idp) =>
      var p := FindByPrestatarioId(st, idp);
      return Reply(200, Ok(p));
  }

  /** `misPrestamos`: the caller's own projection, 400 without a borrower id in the token. */
  method MisPrestamos(st: Store, user: Option<User>) returns (r: Reply<Proyeccion>)
    ensures r.status == 400 <==> !(user.Some? && TruthyInt(user.value.idPrestatario))
    ensures r.status == 400 ==> r == Fail(400, TokenInvalido)
    ensures r.status != 400 ==> r.status == 200 && r.body.Ok?
    ensures r.body.Ok? ==> (r.body.value.prestatario.None? <==> user.value.idPrestatario.value !in st.prestatarios)
    ensures r.body.Ok? && r.body.value.prestatario.None? ==> r.body.value == Vacia
    ensures r.body.Ok? && r.body.value.prestatario.Some? ==>
              r.body.value.prestatario.value == (user.value.idPrestatario.value, st.prestatarios[user.value.idPrestatario.value].ci)
              && ProjectionOf(st, user.value.idPrestatario.value, r.body.value)
  {
    if !(user.Some? && TruthyInt(user.value.idPrestatario)) {
      return Fail(400, TokenInvalido);
    }
    var p := FindByPrestatarioId(st, user.value.idPrestatario.value);
    return Reply(200, Ok(p));
  }
}
