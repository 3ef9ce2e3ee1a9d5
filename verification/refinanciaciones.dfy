/**
 * Refinancing requests (SOLICITUDES_REFINANCIACION): creation against an
 * ACTIVO loan, the filtered listings, and the transitions out of PENDIENTE.
 * Approval replaces all installments of the loan by freshly generated ones
 * and rewrites only the loan's installment count, in one transaction.
 */
module Refinanciaciones {
  import opened Wrappers
  import opened Js
  import opened Entities
  import opened Collaborators
  import opened Ordering
  import opened Text
  import opened Prestamos

  const IdPrestamoInvalido: string := "id_prestamo inválido"
  const IdPrestatarioInvalido: string := "id_prestatario inválido"
  const CuotasInvalidas: string := "nuevo_nro_cuotas inválido: debe ser un entero positivo"
  const PrestamoNoEncontrado: string := "Préstamo no encontrado para refinanciación"
  const SoloActivos: string := "Solo se pueden refinanciar préstamos en estado ACTIVO"
  const ErrorCreando: string := "Error creando solicitud de refinanciación"
  const IdSolicitudInvalido: string := "id_solicitud inválido"
  const NoEncontrada: string := "Solicitud de refinanciación no encontrada"
  const SoloPendienteAprobar: string := "Solo se pueden aprobar solicitudes en estado PENDIENTE"
  const SoloPendienteRechazar: string := "Solo se pueden rechazar solicitudes en estado PENDIENTE"
  const PrestamoAsociadoNoEncontrado: string := "Préstamo asociado a la solicitud no encontrado"
  const TotalInvalido: string := "total_prestado inválido en el préstamo asociado"
  const ErrorAprobando: string := "Error aprobando solicitud de refinanciación"
  const ErrorRechazando: string := "Error rechazando solicitud de refinanciación"

  predicate PositiveFinite(n: Num) {
    IsFinite(n) && n.x > 0.0
  }

  predicate PositiveInteger(n: Num) {
    IsInteger(n) && n.x > 0.0
  }

  // ---------------------------------------------------------------------
  // Creation

  /** The arguments of `crearSolicitudRefinanciacion`, through `Number(...)`. */
  datatype NuevaRefi = NuevaRefi(idPrestamo: Num, idPrestatario: Num, nuevoNroCuotas: Num)

  datatype CreadaRefi = CreadaRefi(id: int, estado: RefiEstado)

  /**
   * `crearSolicitudRefinanciacion`: the ids must be finite and positive and
   * the count a positive integer, checked in that order; the loan must exist
   * and be ACTIVO. The request is inserted PENDIENTE under the key from
   * SOLICITUDES_REFINANCIACION_SEQ (`nextval`), or, when that query fails,
   * answers zero or its INSERT fails, under the trigger's key. A borrower id
   * that is not an integer fits no row: both INSERTs are refused, with the
   * database's message `rechazoBd`.
   */
  function CrearSolicitudRefinanciacion(
    st: Store, d: NuevaRefi, now: int, nextval: Result<int, string>, triggerId: int, rechazoBd: string
  ): (r: (Store, Result<CreadaRefi, string>))
    ensures !PositiveFinite(d.idPrestamo) ==> r == (st, Err(IdPrestamoInvalido))
    ensures PositiveFinite(d.idPrestamo) && !PositiveFinite(d.idPrestatario) ==> r == (st, Err(IdPrestatarioInvalido))
    ensures PositiveFinite(d.idPrestamo) && PositiveFinite(d.idPrestatario) && !PositiveInteger(d.nuevoNroCuotas) ==>
              r == (st, Err(CuotasInvalidas))
    ensures r.1.Err? ==> r.0 == st
    ensures r.1.Ok? <==>
              && PositiveFinite(d.idPrestamo) && PositiveFinite(d.idPrestatario) && PositiveInteger(d.nuevoNroCuotas)
              && FindLoan(st, d.idPrestamo).Some?
              && st.prestamos[FindLoan(st, d.idPrestamo).value].estado == PrestamoEstado.Activo
              && AsId(d.idPrestatario).Some?
              && ((Usable(nextval) && nextval.value !in st.refinanciaciones) || triggerId !in st.refinanciaciones)
    ensures r.1.Ok? ==>
              && PositiveFinite(d.idPrestamo) && PositiveFinite(d.idPrestatario) && PositiveInteger(d.nuevoNroCuotas)
              && FindLoan(st, d.idPrestamo).Some?
              && st.prestamos[FindLoan(st, d.idPrestamo).value].estado == PrestamoEstado.Activo
              && AsId(d.idPrestatario).Some? && AsId(d.nuevoNroCuotas).Some?
              && r.1.value.estado == RefiEstado.Pendiente
              && r.1.value.id !in st.refinanciaciones
              && r.1.value.id == (if Usable(nextval) && nextval.value !in st.refinanciaciones then nextval.value else triggerId)
              && r.0 == st.(refinanciaciones := st.refinanciaciones[r.1.value.id :=
                   Refinanciacion(AsId(d.idPrestatario).value, FindLoan(st, d.idPrestamo).value,
                                  AsId(d.nuevoNroCuotas).value, now, RefiEstado.Pendiente)])
    ensures PositiveFinite(d.idPrestamo) && PositiveFinite(d.idPrestatario) && PositiveInteger(d.nuevoNroCuotas) ==>
              && (FindLoan(st, d.idPrestamo).None? ==> r.1 == Err(PrestamoNoEncontrado))
              && (FindLoan(st, d.idPrestamo).Some? && st.prestamos[FindLoan(st, d.idPrestamo).value].estado != PrestamoEstado.Activo ==>
                    r.1 == Err(SoloActivos))
  {
    if !PositiveFinite(d.idPrestamo) then (st, Err(IdPrestamoInvalido))
    else if !PositiveFinite(d.idPrestatario) then (st, Err(IdPrestatarioInvalido))
    else if !PositiveInteger(d.nuevoNroCuotas) then (st, Err(CuotasInvalidas))
    else
      match FindLoan(st, d.idPrestamo)
      case None => (st, Err(PrestamoNoEncontrado))
      case Some(lid) =>
        if st.prestamos[lid].estado != PrestamoEstado.Activo then (st, Err(SoloActivos))
        else if AsId(d.idPrestatario).None? then (st, Err(MessageOr(rechazoBd, ErrorCreando)))
        else
          var row := Refinanciacion(AsId(d.idPrestatario).value, lid, AsId(d.nuevoNroCuotas).value, now, RefiEstado.Pendiente);
          var key := if Usable(nextval) && nextval.value !in st.refinanciaciones then nextval.value else triggerId;
          if key in st.refinanciaciones then (st, Err(UniqueViolation))
          else (st.(refinanciaciones := st.refinanciaciones[key := row]), Ok(CreadaRefi(key, RefiEstado.Pendiente)))
  }

  /** `if (!nextId)`: a NEXTVAL query that answered with a non-zero value. */
  predicate Usable(n: Result<int, string>) {
    n.Ok? && n.value != 0
  }

  /** Creating a refinancing request never touches a loan or an installment. */
  lemma CrearLeavesLoans(st: Store, d: NuevaRefi, now: int, nextval: Result<int, string>, triggerId: int, rechazoBd: string)
    ensures var r := CrearSolicitudRefinanciacion(st, d, now, nextval, triggerId, rechazoBd);
            r.0.prestamos == st.prestamos && r.0.cuotas == st.cuotas
  {
  }

  // ---------------------------------------------------------------------
  // Listings and lookup

  /** The filters of `listarSolicitudes`. */
  datatype FiltrosRefi = FiltrosRefi(estado: Option<string>, idPrestatario: Option<Num>)

  /**
   * A truthy state filter is compared upper-cased; a borrower filter applies
   * only when it is truthy and finite, so 0 and NaN select every borrower.
   */
  predicate Pasa(s: Refinanciacion, f: FiltrosRefi) {
    && (TruthyStr(f.estado) ==> s.estado.Name() == ToUpper(f.estado.value))
    && (TruthyNum(f.idPrestatario) && IsFinite(f.idPrestatario.value) ==> OfInt(s.idPrestatario) == f.idPrestatario.value)
  }

  /** `listarSolicitudes`: the requests passing the filters, newest id first. */
  method ListarSolicitudes(st: Store, f: FiltrosRefi) returns (rows: seq<(int, Refinanciacion)>)
    ensures ListingOf(rows, st.refinanciaciones, set k | k in st.refinanciaciones && Pasa(st.refinanciaciones[k], f))
    ensures Descending(Column(rows))
  {
    rows := SelectDescending(st.refinanciaciones, set k | k in st.refinanciaciones && Pasa(st.refinanciaciones[k], f));
  }

  /**
   * `listarPorPrestatario`: a non-finite id is refused; a non-zero one lists
   * that borrower's requests. Id 0 is falsy, so the filter is dropped and
   * every request is listed.
   */
  method ListarPorPrestatario(st: Store, id: Num) returns (r: Result<seq<(int, Refinanciacion)>, string>)
    ensures r.Err? <==> !IsFinite(id)
    ensures r.Err? ==> r.error == IdPrestatarioInvalido
    ensures r.Ok? && Truthy(id) ==>
              ListingOf(r.value, st.refinanciaciones, set k | k in st.refinanciaciones && OfInt(st.refinanciaciones[k].idPrestatario) == id)
    ensures r.Ok? && !Truthy(id) ==> ListingOf(r.value, st.refinanciaciones, st.refinanciaciones.Keys)
    ensures r.Ok? ==> Descending(Column(r.value))
  {
    if !IsFinite(id) {
      return Err(IdPrestatarioInvalido);
    }
    var rows := ListarSolicitudes(st, FiltrosRefi(None, Some(id)));
    assert (set k | k in st.refinanciaciones && Pasa(st.refinanciaciones[k], FiltrosRefi(None, Some(id))))
        == (set k | k in st.refinanciaciones && (Truthy(id) ==> OfInt(st.refinanciaciones[k].idPrestatario) == id));
    return Ok(rows);
  }

  /** The row key a bound request id matches, if a row has it. */
  function FindRefi(st: Store, id: Num): (r: Option<int>)
    ensures r.Some? ==> r.value in st.refinanciaciones && OfInt(r.value) == id
    ensures r.None? ==> forall k :: k in st.refinanciaciones ==> OfInt(k) != id
  {
    var k := AsId(id);
    if k.Some? && k.value in st.refinanciaciones then k else None
  }

  /** `obtenerPorId`: a non-finite id is refused; an unknown one answers null. */
  function ObtenerPorId(st: Store, id: Num): (r: Result<Option<Refinanciacion>, string>)
    ensures r.Err? <==> !IsFinite(id)
    ensures r.Err? ==> r.error == IdSolicitudInvalido
    ensures r.Ok? ==> (r.value.None? <==> forall k :: k in st.refinanciaciones ==> OfInt(k) != id)
    ensures r.Ok? && r.value.Some? ==> exists k :: k in st.refinanciaciones && OfInt(k) == id && st.refinanciaciones[k] == r.value.value
  {
    if !IsFinite(id) then Err(IdSolicitudInvalido)
    else match FindRefi(st, id)
      case Some(k) => Ok(Some(st.refinanciaciones[k]))
      case None => Ok(None)
  }

  // ---------------------------------------------------------------------
  // Approval

  datatype RefiOut = RefiOut(idSolicitud: Num, idPrestamo: int, idPrestatario: int, nroCuotas: int, estado: RefiEstado)

  /** The loan as approval reports it: as it was read, with the new count. */
  datatype LoanOut = LoanOut(
    idPrestamo: int, idPrestatario: int, totalPrestado: Option<real>, nroCuotas: int,
    interes: Option<real>, fechaEmision: int, fechaVencimiento: int, estado: PrestamoEstado)

  datatype Aprobacion = Aprobacion(solicitud: RefiOut, prestamo: LoanOut)

  /** The amount the guard on `total_prestado` lets through, if any. */
  type TotalGuard = Option<real> -> Result<real, string>

  /**
   * The guard as written: `Number(total ?? null)` turns a NULL total into 0,
   * which is finite, so no total is ever refused.
   */
  function TotalAsWritten(t: Option<real>): (r: Result<real, string>)
    ensures r.Ok?
    ensures t.None? ==> r.value == 0.0
    ensures t.Some? ==> r.value == t.value
  {
    if t.Some? then Ok(t.value) else Ok(0.0)
  }

  /** The guard as intended: a loan without a total cannot be refinanced. */
  function TotalChecked(t: Option<real>): (r: Result<real, string>)
    ensures r.Ok? <==> t.Some?
    ensures r.Ok? ==> r.value == t.value
    ensures r.Err? ==> r.error == TotalInvalido
  {
    if t.Some? then Ok(t.value) else Err(TotalInvalido)
  }

  /**
   * The state after approving request `k` for loan `lid` with total `t`: the
   * request is APROBADA; the loan only has the new count; every installment
   * of the loan was replaced by those the generator made from `t` and the
   * new count; no other table changed.
   */
  ghost predicate Refinanced(st: Store, st': Store, k: int, gen: CuotaGenerator, t: real) {
    && k in st.refinanciaciones
    && var sol := st.refinanciaciones[k];
       var lid := sol.idPrestamo;
       && lid in st.prestamos
       && st'.refinanciaciones == st.refinanciaciones[k := sol.(estado := RefiEstado.Aprobada)]
       && st'.prestamos == st.prestamos[lid := st.prestamos[lid].(nroCuotas := sol.nroCuotas)]
       && CuotasAdded(DeleteCuotas(st.cuotas, lid), st'.cuotas, gen, GenArgs(lid, sol.idPrestatario, t, sol.nroCuotas))
       && st'.solicitudes == st.solicitudes
       && st'.prestatarios == st.prestatarios
       && st'.empleados == st.empleados
  }

  /**
   * Every step of an approval can succeed: the request exists and is
   * PENDIENTE, its loan exists and is ACTIVO, the guard accepts the loan's
   * total, and the regenerated installments can be inserted.
   */
  predicate AprobacionPosible(st: Store, id: Num, gen: CuotaGenerator, total: TotalGuard) {
    && IsFinite(id)
    && FindRefi(st, id).Some?
    && var sol := st.refinanciaciones[FindRefi(st, id).value];
       && sol.estado == RefiEstado.Pendiente
       && sol.idPrestamo in st.prestamos
       && st.prestamos[sol.idPrestamo].estado == PrestamoEstado.Activo
       && total(st.prestamos[sol.idPrestamo].totalPrestado).Ok?
       && Generate(DeleteCuotas(st.cuotas, sol.idPrestamo), gen,
                   GenArgs(sol.idPrestamo, sol.idPrestatario, total(st.prestamos[sol.idPrestamo].totalPrestado).value, sol.nroCuotas)).Ok?
  }

  /** `aprobarSolicitud`, with the guard on the loan's total as a parameter. */
  function AprobarCon(st: Store, id: Num, gen: CuotaGenerator, total: TotalGuard): (r: (Store, Result<Aprobacion, string>))
    ensures r.1.Ok? <==> AprobacionPosible(st, id, gen, total)
    ensures !IsFinite(id) ==> r == (st, Err(IdSolicitudInvalido))
    ensures IsFinite(id) && FindRefi(st, id).None? ==> r == (st, Err(NoEncontrada))
    ensures FindRefi(st, id).Some? && st.refinanciaciones[FindRefi(st, id).value].estado != RefiEstado.Pendiente ==>
              r == (st, Err(SoloPendienteAprobar))
    ensures FindRefi(st, id).Some? && st.refinanciaciones[FindRefi(st, id).value].estado == RefiEstado.Pendiente ==>
              var lid := st.refinanciaciones[FindRefi(st, id).value].idPrestamo;
              && (lid !in st.prestamos ==> r == (st, Err(PrestamoAsociadoNoEncontrado)))
              && (lid in st.prestamos && st.prestamos[lid].estado != PrestamoEstado.Activo ==> r == (st, Err(SoloActivos)))
              && (lid in st.prestamos && st.prestamos[lid].estado == PrestamoEstado.Activo && total(st.prestamos[lid].totalPrestado).Err? ==>
                    r == (st, Err(total(st.prestamos[lid].totalPrestado).error)))
    ensures r.1.Err? ==> r.0 == st
    ensures r.1.Ok? ==> FindRefi(st, id).Some? && st.refinanciaciones[FindRefi(st, id).value].idPrestamo in st.prestamos
    ensures r.1.Ok? ==>
              var k := FindRefi(st, id).value;
              var sol := st.refinanciaciones[k];
              var loan := st.prestamos[sol.idPrestamo];
              && sol.estado == RefiEstado.Pendiente
              && loan.estado == PrestamoEstado.Activo
              && total(loan.totalPrestado).Ok?
              && Refinanced(st, r.0, k, gen, total(loan.totalPrestado).value)
              && r.1.value.solicitud == RefiOut(id, sol.idPrestamo, sol.idPrestatario, sol.nroCuotas, RefiEstado.Aprobada)
              && r.1.value.prestamo.estado == loan.estado
              && r.1.value.prestamo.nroCuotas == sol.nroCuotas
              && r.1.value.prestamo.totalPrestado == loan.totalPrestado
  {
    if !IsFinite(id) then (st, Err(IdSolicitudInvalido))
    else match FindRefi(st, id)
      case None => (st, Err(NoEncontrada))
      case Some(k) =>
        var sol := st.refinanciaciones[k];
        if sol.estado != RefiEstado.Pendiente then (st, Err(SoloPendienteAprobar))
        else if sol.idPrestamo !in st.prestamos then (st, Err(PrestamoAsociadoNoEncontrado))
        else
          var lid := sol.idPrestamo;
          var loan := st.prestamos[lid];
          if loan.estado != PrestamoEstado.Activo then (st, Err(SoloActivos))
          else match total(loan.totalPrestado)
            case Err(e) => (st, Err(e))
            case Ok(t) =>
              match Generate(DeleteCuotas(st.cuotas, lid), gen, GenArgs(lid, sol.idPrestatario, t, sol.nroCuotas))
              case Err(e) => (st, Err(MessageOr(e, ErrorAprobando)))
              case Ok(cuotas) =>
                var st' := st.(
                  refinanciaciones := st.refinanciaciones[k := sol.(estado := RefiEstado.Aprobada)],
                  prestamos := st.prestamos[lid := loan.(nroCuotas := sol.nroCuotas)],
                  cuotas := cuotas);
                (st', Ok(Aprobacion(
                  RefiOut(id, lid, sol.idPrestatario, sol.nroCuotas, RefiEstado.Aprobada),
                  LoanOut(lid, loan.idPrestatario, loan.totalPrestado, sol.nroCuotas, loan.interes,
                          loan.fechaEmision, loan.fechaVencimiento, loan.estado))))
  }

  /**
   * `aprobarSolicitud` as written: a loan whose total is NULL passes the
   * guard and its installments are regenerated from a total of 0.
   */
  function AprobarSolicitudAsWritten(st: Store, id: Num, gen: CuotaGenerator): (r: (Store, Result<Aprobacion, string>))
    ensures r.1.Ok? <==> AprobacionPosible(st, id, gen, TotalAsWritten)
    ensures r.1.Err? ==> r.0 == st
    ensures r.1.Ok? ==> FindRefi(st, id).Some? && st.refinanciaciones[FindRefi(st, id).value].idPrestamo in st.prestamos
    ensures r.1.Ok? ==>
              var sol := st.refinanciaciones[FindRefi(st, id).value];
              var loan := st.prestamos[sol.idPrestamo];
              && (loan.totalPrestado.None? ==> Refinanced(st, r.0, FindRefi(st, id).value, gen, 0.0))
              && (loan.totalPrestado.Some? ==> Refinanced(st, r.0, FindRefi(st, id).value, gen, loan.totalPrestado.value))
  {
    AprobarCon(st, id, gen, TotalAsWritten)
  }

  /** `aprobarSolicitud` with the evidently intended guard: a NULL total is refused. */
  function AprobarSolicitud(st: Store, id: Num, gen: CuotaGenerator): (r: (Store, Result<Aprobacion, string>))
    ensures r.1.Ok? <==> AprobacionPosible(st, id, gen, TotalChecked)
    ensures r.1.Err? ==> r.0 == st
    ensures r.1.Ok? ==> FindRefi(st, id).Some? && st.refinanciaciones[FindRefi(st, id).value].idPrestamo in st.prestamos
    ensures r.1.Ok? ==>
              var k := FindRefi(st, id).value;
              var loan := st.prestamos[st.refinanciaciones[k].idPrestamo];
              loan.totalPrestado.Some? && Refinanced(st, r.0, k, gen, loan.totalPrestado.value)
    ensures FindRefi(st, id).Some? && st.refinanciaciones[FindRefi(st, id).value].estado == RefiEstado.Pendiente ==>
              var lid := st.refinanciaciones[FindRefi(st, id).value].idPrestamo;
              lid in st.prestamos && st.prestamos[lid].estado == PrestamoEstado.Activo && st.prestamos[lid].totalPrestado.None? ==>
                r == (st, Err(TotalInvalido))
  {
    AprobarCon(st, id, gen, TotalChecked)
  }

  /**
   * The discrepancy: for a pending request on an ACTIVO loan whose total is
   * NULL, the code as written regenerates the installments from a total of
   * 0, while the intended guard refuses the approval.
   */
  lemma NullTotalRefinancedAsZero()
    ensures exists st: Store, gen: CuotaGenerator ::
              && AprobarSolicitudAsWritten(st, OfInt(1), gen).1.Ok?
              && Refinanced(st, AprobarSolicitudAsWritten(st, OfInt(1), gen).0, 1, gen, 0.0)
              && AprobarSolicitud(st, OfInt(1), gen) == (st, Err(TotalInvalido))
  {
    var loan := Prestamo(None, 7, None, 12, None, 0, 1, PrestamoEstado.Activo);
    var st := Store(map[], map[1 := Refinanciacion(7, 5, 24, 0, RefiEstado.Pendiente)], map[5 := loan], map[], map[], map[]);
    var gen: CuotaGenerator := a => Ok(map[]);
    assert FindRefi(st, OfInt(1)) == Some(1);
    assert DeleteCuotas(st.cuotas, 5) == map[];
    var args := GenArgs(5, 7, 0.0, 24);
    assert Generate(map[], gen, args) == Ok(map[]);
    var r := AprobarSolicitudAsWritten(st, OfInt(1), gen);
    assert r.1.Ok?;
    assert Refinanced(st, r.0, 1, gen, 0.0);
    assert AprobarSolicitud(st, OfInt(1), gen) == (st, Err(TotalInvalido));
  }

  /**
   * The two guards differ only on a NULL total: whenever the request is not
   * a PENDIENTE one on an ACTIVO loan without a total, the code as written
   * and the intended code approve alike.
   */
  lemma AsWrittenAgreesOnTotals(st: Store, id: Num, gen: CuotaGenerator)
    requires !(&& FindRefi(st, id).Some?
               && st.refinanciaciones[FindRefi(st, id).value].estado == RefiEstado.Pendiente
               && st.refinanciaciones[FindRefi(st, id).value].idPrestamo in st.prestamos
               && st.prestamos[st.refinanciaciones[FindRefi(st, id).value].idPrestamo].estado == PrestamoEstado.Activo
               && st.prestamos[st.refinanciaciones[FindRefi(st, id).value].idPrestamo].totalPrestado.None?)
    ensures AprobarSolicitudAsWritten(st, id, gen) == AprobarSolicitud(st, id, gen)
  {
  }

  /** After an approval the loan's installments are exactly the regenerated ones. */
  lemma RegeneratedExactly(st: Store, st': Store, k: int, gen: CuotaGenerator, t: real)
    requires Refinanced(st, st', k, gen, t)
    ensures var sol := st.refinanciaciones[k];
            CuotasDe(st'.cuotas, sol.idPrestamo) == gen(GenArgs(sol.idPrestamo, sol.idPrestatario, t, sol.nroCuotas)).value.Keys
  {
    var sol := st.refinanciaciones[k];
    var lid := sol.idPrestamo;
    var kept := DeleteCuotas(st.cuotas, lid);
    var made := gen(GenArgs(lid, sol.idPrestatario, t, sol.nroCuotas)).value;
    assert CuotasAdded(kept, st'.cuotas, gen, GenArgs(lid, sol.idPrestatario, t, sol.nroCuotas));
    forall j | j in made
      ensures j in CuotasDe(st'.cuotas, lid)
    {
      assert st'.cuotas[j].idPrestamo == lid;
    }
    assert CuotasDe(kept, lid) == {};
    forall j | j in CuotasDe(st'.cuotas, lid)
      ensures j in made
    {
    }
  }

  /** Approval leaves every loan's state, so no borrower's ACTIVO loans change. */
  lemma AprobarKeepsActiveLoans(st: Store, id: Num, gen: CuotaGenerator, b: int)
    ensures ActiveLoans(AprobarSolicitud(st, id, gen).0, b) == ActiveLoans(st, b)
  {
  }

  /** An approved refinancing cannot be approved again. */
  lemma AprobarOnce(st: Store, id: Num, gen: CuotaGenerator, gen2: CuotaGenerator)
    requires AprobarSolicitud(st, id, gen).1.Ok?
    ensures var st' := AprobarSolicitud(st, id, gen).0;
            AprobarSolicitud(st', id, gen2) == (st', Err(SoloPendienteAprobar))
  {
    var st' := AprobarSolicitud(st, id, gen).0;
    assert FindRefi(st', id) == FindRefi(st, id);
  }

  // ---------------------------------------------------------------------
  // Rejection

  /**
   * `rechazarSolicitud`: only a PENDIENTE request can be rejected; only its
   * state changes, never the loan nor its installments.
   */
  function RechazarSolicitud(st: Store, id: Num): (r: (Store, Result<RefiOut, string>))
    ensures !IsFinite(id) ==> r == (st, Err(IdSolicitudInvalido))
    ensures IsFinite(id) && FindRefi(st, id).None? ==> r == (st, Err(NoEncontrada))
    ensures r.1.Ok? <==> FindRefi(st, id).Some? && st.refinanciaciones[FindRefi(st, id).value].estado == RefiEstado.Pendiente
    ensures r.1.Err? ==> r.0 == st
    ensures r.1.Ok? ==>
              var k := FindRefi(st, id).value;
              var sol := st.refinanciaciones[k];
              && r.0 == st.(refinanciaciones := st.refinanciaciones[k := sol.(estado := RefiEstado.Rechazada)])
              && r.1.value == RefiOut(id, sol.idPrestamo, sol.idPrestatario, sol.nroCuotas, RefiEstado.Rechazada)
  {
    if !IsFinite(id) then (st, Err(IdSolicitudInvalido))
    else match FindRefi(st, id)
      case None => (st, Err(NoEncontrada))
      case Some(k) =>
        var sol := st.refinanciaciones[k];
        if sol.estado != RefiEstado.Pendiente then (st, Err(SoloPendienteRechazar))
        else
          (st.(refinanciaciones := st.refinanciaciones[k := sol.(estado := RefiEstado.Rechazada)]),
           Ok(RefiOut(id, sol.idPrestamo, sol.idPrestatario, sol.nroCuotas, RefiEstado.Rechazada)))
  }

  /** Approval and rejection exclude each other: after one, the other fails. */
  lemma DecisionsAreFinal(st: Store, id: Num, gen: CuotaGenerator)
    ensures var a := AprobarSolicitud(st, id, gen);
            a.1.Ok? ==> RechazarSolicitud(a.0, id) == (a.0, Err(SoloPendienteRechazar))
    ensures var j := RechazarSolicitud(st, id);
            j.1.Ok? ==> AprobarSolicitud(j.0, id, gen) == (j.0, Err(SoloPendienteAprobar))
  {
    var a := AprobarSolicitud(st, id, gen);
    if a.1.Ok? {
      assert FindRefi(a.0, id) == FindRefi(st, id);
    }
    var j := RechazarSolicitud(st, id);
    if j.1.Ok? {
      assert FindRefi(j.0, id) == FindRefi(st, id);
    }
  }
}
