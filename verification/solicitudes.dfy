/**
 * Loan requests (SOLICITUDES_PRESTAMOS): creation with its fallback chain of
 * id sources, the listings, and the transitions out of PENDIENTE. Approval
 * accepts the request, creates its loan through the loan creator and the
 * loan's installments through the generator, all in one transaction.
 */
module Solicitudes {
  import opened Wrappers
  import opened Js
  import opened Entities
  import opened Collaborators
  import opened Ordering

  const NoEncontrada: string := "Solicitud no encontrada"
  const SoloPendienteAprobar: string := "Solo se puede aprobar solicitudes en estado PENDIENTE"
  const SoloPendienteRechazar: string := "Solo se puede rechazar solicitudes en estado PENDIENTE"
  const MaximoActivos: string := "El prestatario ya tiene el máximo de 2 préstamos ACTIVO"
  const ErrorAprobando: string := "Error aprobando solicitud"
  const ErrorCreando: string := "Error creando solicitud"
  const IdPrestatarioInvalido: string := "id_prestatario inválido"

  /** The sequences tried when none is configured, in order. */
  const DefaultSeq: string := "SOLICITUDES_PRESTAMOS_SEQ"
  const AltSeq: string := "SEQ_SOLICITUDES_PRESTAMOS"

  function SinNextval(seqName: string): string {
    "No se pudo obtener NEXTVAL de la secuencia " + seqName
  }

  /** The row key a bound request id matches, if a row has it. */
  function Find(st: Store, id: Num): (r: Option<int>)
    ensures r.Some? ==> r.value in st.solicitudes && OfInt(r.value) == id
    ensures r.None? ==> forall k :: k in st.solicitudes ==> OfInt(k) != id
  {
    var k := AsId(id);
    if k.Some? && k.value in st.solicitudes then k else None
  }

  /** `obtenerPorId`: the request with that id, or null. */
  function ObtenerPorId(st: Store, id: Num): (r: Option<Solicitud>)
    ensures r.None? <==> forall k :: k in st.solicitudes ==> OfInt(k) != id
    ensures r.Some? ==> exists k :: k in st.solicitudes && OfInt(k) == id && st.solicitudes[k] == r.value
  {
    match Find(st, id)
    case Some(k) => Some(st.solicitudes[k])
    case None => None
  }

  // ---------------------------------------------------------------------
  // Creation

  /**
   * What the controller hands to `crearSolicitud`: the amount and count
   * already coerced, the borrower id as `Number(id_prestatario)` gives it.
   */
  datatype NuevaSolicitud = NuevaSolicitud(idPrestatario: Num, monto: real, nroCuotas: int, idEmpleado: Field<int>)

  /** What `crearSolicitud` reports. */
  datatype Creada = Creada(id: int, estado: SolicitudEstado)

  /** The row every INSERT branch writes for borrower `idp`: sent now, unanswered, PENDIENTE. */
  function Fila(data: NuevaSolicitud, idp: int, now: int): Solicitud {
    Solicitud(idp, OrNullField(data.idEmpleado), data.nroCuotas, data.monto, now, None, SolicitudEstado.Pendiente)
  }

  /** `if (nextId)`: a NEXTVAL query that answered with a non-zero value. */
  predicate Usable(n: Result<int, string>) {
    n.Ok? && n.value != 0
  }

  /**
   * One INSERT with an explicit key. A borrower id that is not an integer
   * (NaN, an infinity, a fraction) is refused with `rechazoBd` before the
   * row is written; a taken key is a unique violation.
   */
  function InsertAt(st: Store, id: int, data: NuevaSolicitud, now: int, rechazoBd: string): (Store, Result<Creada, string>) {
    match AsId(data.idPrestatario)
    case None => (st, Err(rechazoBd))
    case Some(idp) =>
      if id in st.solicitudes then (st, Err(UniqueViolation))
      else (st.(solicitudes := st.solicitudes[id := Fila(data, idp, now)]), Ok(Creada(id, SolicitudEstado.Pendiente)))
  }

  /**
   * `crearSolicitud`. With a configured sequence name only that sequence is
   * used and any failure is final. Otherwise the default sequence, then the
   * alternative one, and last the trigger-assigned key (`triggerId`) are
   * tried, each failure of a sequence branch (query error, empty answer or
   * failed INSERT) falling through to the next. `nextval` gives the outcome
   * of `SELECT <name>.NEXTVAL FROM DUAL`. A borrower id that is not an
   * integer makes every INSERT fail: with a configured sequence only after
   * its NEXTVAL step, whose own failure is reported first; without one the
   * trigger branch's refusal is the error that escapes.
   */
  function CrearSolicitud(
    st: Store, data: NuevaSolicitud, now: int,
    seqName: Option<string>, nextval: string -> Result<int, string>, triggerId: int, rechazoBd: string
  ): (r: (Store, Result<Creada, string>))
    ensures r.1.Ok? <==> AsId(data.idPrestatario).Some? && FirstFree(Candidatos(seqName, nextval, triggerId), st.solicitudes).Some?
    ensures r.1.Ok? ==> r.1.value == Creada(FirstFree(Candidatos(seqName, nextval, triggerId), st.solicitudes).value, SolicitudEstado.Pendiente)
    ensures r.1.Ok? ==> r.1.value.id !in st.solicitudes
                        && r.0 == st.(solicitudes := st.solicitudes[r.1.value.id := Fila(data, AsId(data.idPrestatario).value, now)])
    ensures r.1.Err? ==> r.0 == st
    ensures TruthyStr(seqName) && nextval(seqName.value).Ok? && nextval(seqName.value).value == 0 ==>
              r.1 == Err(SinNextval(seqName.value))
    ensures TruthyStr(seqName) && nextval(seqName.value).Err? ==> r.1 == Err(MessageOr(nextval(seqName.value).error, ErrorCreando))
    ensures AsId(data.idPrestatario).None? && (!TruthyStr(seqName) || Usable(nextval(seqName.value))) ==> r.1 == Err(rechazoBd)
  {
    if TruthyStr(seqName) then
      match nextval(seqName.value)
      case Err(e) => (st, Err(MessageOr(e, ErrorCreando)))
      case Ok(n) =>
        if n == 0 then (st, Err(SinNextval(seqName.value)))
        else InsertAt(st, n, data, now, rechazoBd)
    else
      FirstFreeDefaultChain(st.solicitudes, seqName, nextval, triggerId);
      var d := nextval(DefaultSeq);
      if AsId(data.idPrestatario).None? then InsertAt(st, triggerId, data, now, rechazoBd)
      else if Usable(d) && d.value !in st.solicitudes then InsertAt(st, d.value, data, now, rechazoBd)
      else
        var a := nextval(AltSeq);
        if Usable(a) && a.value !in st.solicitudes then InsertAt(st, a.value, data, now, rechazoBd)
        else InsertAt(st, triggerId, data, now, rechazoBd)
  }

  /**
   * The keys creation tries, in the order it tries them: the configured
   * sequence's value alone, or the usable values of the default and the
   * alternative sequence followed by the trigger's key.
   */
  function Candidatos(seqName: Option<string>, nextval: string -> Result<int, string>, triggerId: int): seq<int> {
    if TruthyStr(seqName) then
      (if Usable(nextval(seqName.value)) then [nextval(seqName.value).value] else [])
    else
      var d := nextval(DefaultSeq);
      var a := nextval(AltSeq);
      (if Usable(d) then [d.value] else []) + (if Usable(a) then [a.value] else []) + [triggerId]
  }

  /** The first candidate key that no row has taken. */
  function FirstFree(cands: seq<int>, m: map<int, Solicitud>): (r: Option<int>)
    ensures r.Some? <==> exists i :: 0 <= i < |cands| && cands[i] !in m
    ensures r.Some? ==> r.value in cands && r.value !in m
  {
    if |cands| == 0 then None
    else if cands[0] !in m then Some(cands[0])
    else
      var r := FirstFree(cands[1..], m);
      assert forall i :: 1 <= i < |cands| ==> cands[i] == cands[1..][i - 1];
      r
  }

  /** A taken or absent candidate is skipped. */
  lemma FirstFreeSkips(x: seq<int>, rest: seq<int>, m: map<int, Solicitud>)
    requires |x| <= 1
    ensures FirstFree(x + rest, m) == if |x| == 1 && x[0] !in m then Some(x[0]) else FirstFree(rest, m)
  {
    if |x| == 1 {
      assert (x + rest)[1..] == rest;
    } else {
      assert x + rest == rest;
    }
  }

  /** Without a configured sequence: the default sequence, else the alternative one, else the trigger. */
  lemma FirstFreeDefaultChain(m: map<int, Solicitud>, seqName: Option<string>, nextval: string -> Result<int, string>, triggerId: int)
    requires !TruthyStr(seqName)
    ensures var d := nextval(DefaultSeq);
            var a := nextval(AltSeq);
            FirstFree(Candidatos(seqName, nextval, triggerId), m) ==
              if Usable(d) && d.value !in m then Some(d.value)
              else if Usable(a) && a.value !in m then Some(a.value)
              else if triggerId !in m then Some(triggerId)
              else None
  {
    var d := nextval(DefaultSeq);
    var a := nextval(AltSeq);
    var ds := if Usable(d) then [d.value] else [];
    var alts := if Usable(a) then [a.value] else [];
    assert Candidatos(seqName, nextval, triggerId) == ds + (alts + [triggerId]);
    FirstFreeSkips(ds, alts + [triggerId], m);
    FirstFreeSkips(alts, [triggerId], m);
    FirstFreeSkips([triggerId], [], m);
    assert [triggerId] + [] == [triggerId];
  }

  /** Without a configured sequence, creation can fail only on a refused borrower id or a taken trigger key. */
  lemma CrearSinSecuenciaFallaSoloPorTrigger(
    st: Store, data: NuevaSolicitud, now: int,
    seqName: Option<string>, nextval: string -> Result<int, string>, triggerId: int, rechazoBd: string)
    requires !TruthyStr(seqName)
    ensures CrearSolicitud(st, data, now, seqName, nextval, triggerId, rechazoBd).1.Err? ==>
              AsId(data.idPrestatario).None? || triggerId in st.solicitudes
  {
  }

  // ---------------------------------------------------------------------
  // Listings

  /** The filters of `listar`; each applies only when truthy. */
  datatype Filtros = Filtros(estado: Option<string>, idPrestatario: Option<Num>)

  predicate PasaFiltros(s: Solicitud, f: Filtros) {
    && (TruthyStr(f.estado) ==> s.estado.Name() == f.estado.value)
    && (TruthyNum(f.idPrestatario) ==> OfInt(s.idPrestatario) == f.idPrestatario.value)
  }

  /** `listarPorPrestatario`: a borrower's requests, newest id first. */
  method ListarPorPrestatario(st: Store, id: Num) returns (r: Result<seq<(int, Solicitud)>, string>)
    ensures r.Err? <==> !IsFinite(id)
    ensures r.Err? ==> r.error == IdPrestatarioInvalido
    ensures r.Ok? ==> ListingOf(r.value, st.solicitudes, set k | k in st.solicitudes && OfInt(st.solicitudes[k].idPrestatario) == id)
    ensures r.Ok? ==> Descending(Column(r.value))
  {
    if !IsFinite(id) {
      return Err(IdPrestatarioInvalido);
    }
    var rows := SelectDescending(st.solicitudes, set k | k in st.solicitudes && OfInt(st.solicitudes[k].idPrestatario) == id);
    return Ok(rows);
  }

  /** `listar`: the requests that pass every given filter, newest id first. */
  method Listar(st: Store, f: Filtros) returns (rows: seq<(int, Solicitud)>)
    ensures ListingOf(rows, st.solicitudes, set k | k in st.solicitudes && PasaFiltros(st.solicitudes[k], f))
    ensures Descending(Column(rows))
    ensures !TruthyStr(f.estado) && !TruthyNum(f.idPrestatario) ==> forall k :: k in Column(rows) <==> k in st.solicitudes
  {
    rows := SelectDescending(st.solicitudes, set k | k in st.solicitudes && PasaFiltros(st.solicitudes[k], f));
  }

  // ---------------------------------------------------------------------
  // Approval

  /** What a successful approval reports. */
  datatype Aprobacion = Aprobacion(idSolicitud: Num, estado: SolicitudEstado, idPrestamo: int)

  /**
   * What the approval hands to the loan creator. The request row read by
   * `obtenerPorId` has no interest tier, so the tier is always MEDIA.
   */
  function Payload(k: int, s: Solicitud): LoanPayload {
    LoanPayload(k, s.idPrestatario, s.monto, s.nroCuotas, Tier.Media)
  }

  /** The PRESTAMOS row the creator inserted for request `k`. */
  function LoanRow(k: int, s: Solicitud, d: LoanDraft): Prestamo {
    Prestamo(Some(k), s.idPrestatario, Some(d.totalPrestado), s.nroCuotas, d.interes, d.fechaEmision, d.fechaVencimiento, d.estado)
  }

  /**
   * `aprobar`: the request must exist and be PENDIENTE, and its borrower must
   * hold fewer than two ACTIVO loans. The request is then accepted, the loan
   * created and its installments generated; any failure rolls all of it back.
   */
  function Aprobar(st: Store, id: Num, now: int, create: LoanCreator, gen: CuotaGenerator): (r: (Store, Result<Aprobacion, string>))
    ensures Find(st, id).None? ==> r == (st, Err(NoEncontrada))
    ensures Find(st, id).Some? && st.solicitudes[Find(st, id).value].estado != SolicitudEstado.Pendiente ==>
              r == (st, Err(SoloPendienteAprobar))
    ensures Find(st, id).Some? && st.solicitudes[Find(st, id).value].estado == SolicitudEstado.Pendiente
            && |ActiveLoans(st, st.solicitudes[Find(st, id).value].idPrestatario)| >= 2 ==>
              r == (st, Err(MaximoActivos))
    ensures r.1.Err? ==> r.0 == st
    ensures r.1.Ok? <==> ApprovalPossible(st, id, create, gen)
    ensures r.1.Ok? ==> Approved(st, r.0, id, now, create, gen, r.1.value) && r.1.value.idSolicitud == id
  {
    match Find(st, id)
    case None => (st, Err(NoEncontrada))
    case Some(k) =>
      var s := st.solicitudes[k];
      if s.estado != SolicitudEstado.Pendiente then (st, Err(SoloPendienteAprobar))
      else if |ActiveLoans(st, s.idPrestatario)| >= 2 then (st, Err(MaximoActivos))
      else
        match create(Payload(k, s))
        case Err(e) => (st, Err(MessageOr(e, ErrorAprobando)))
        case Ok(d) =>
          if d.idPrestamo in st.prestamos then (st, Err(UniqueViolation))
          else
            match Generate(st.cuotas, gen, GenArgs(d.idPrestamo, s.idPrestatario, d.totalPrestado, s.nroCuotas))
            case Err(e) => (st, Err(MessageOr(e, ErrorAprobando)))
            case Ok(cuotas) =>
              var st' := st.(
                solicitudes := st.solicitudes[k := s.(estado := SolicitudEstado.Aceptada, fechaRespuesta := Some(now))],
                prestamos := st.prestamos[d.idPrestamo := LoanRow(k, s, d)],
                cuotas := cuotas);
              (st', Ok(Aprobacion(id, SolicitudEstado.Aceptada, d.idPrestamo)))
  }

  /** Every step of an approval can succeed: guards, loan insert and installment insert. */
  ghost predicate ApprovalPossible(st: Store, id: Num, create: LoanCreator, gen: CuotaGenerator) {
    exists k :: k in st.solicitudes && OfInt(k) == id
      && st.solicitudes[k].estado == SolicitudEstado.Pendiente
      && |ActiveLoans(st, st.solicitudes[k].idPrestatario)| < 2
      && create(Payload(k, st.solicitudes[k])).Ok?
      && create(Payload(k, st.solicitudes[k])).value.idPrestamo !in st.prestamos
      && var d := create(Payload(k, st.solicitudes[k])).value;
         Generate(st.cuotas, gen, GenArgs(d.idPrestamo, st.solicitudes[k].idPrestatario, d.totalPrestado, st.solicitudes[k].nroCuotas)).Ok?
  }

  /**
   * The state after a successful approval of request `id`: the request is
   * ACEPTADA and answered now; exactly one loan was added, linked to the
   * request and its borrower, created from the request's amount and count
   * at tier MEDIA; the installments are the old ones plus those generated
   * for that loan from its total; nothing else changed.
   */
  ghost predicate Approved(st: Store, st': Store, id: Num, now: int, create: LoanCreator, gen: CuotaGenerator, out: Aprobacion) {
    exists k :: k in st.solicitudes && OfInt(k) == id && ApprovedAt(st, st', k, now, create, gen, out)
  }

  ghost predicate ApprovedAt(st: Store, st': Store, k: int, now: int, create: LoanCreator, gen: CuotaGenerator, out: Aprobacion)
    requires k in st.solicitudes
  {
    var s := st.solicitudes[k];
    var c := create(LoanPayload(k, s.idPrestatario, s.monto, s.nroCuotas, Tier.Media));
    && out.estado == SolicitudEstado.Aceptada
    && st'.solicitudes == st.solicitudes[k := s.(estado := SolicitudEstado.Aceptada, fechaRespuesta := Some(now))]
    && c.Ok?
    && out.idPrestamo == c.value.idPrestamo
    && LoanAdded(st.prestamos, st'.prestamos, out.idPrestamo, k, s.idPrestatario, s.nroCuotas, c.value.totalPrestado)
    && CuotasAdded(st.cuotas, st'.cuotas, gen, GenArgs(out.idPrestamo, s.idPrestatario, c.value.totalPrestado, s.nroCuotas))
    && st'.refinanciaciones == st.refinanciaciones
    && st'.prestatarios == st.prestatarios
    && st'.empleados == st.empleados
  }

  /** Exactly one loan, `lid`, was added, for request `k`, its borrower and its count; the others are kept. */
  ghost predicate LoanAdded(before: map<int, Prestamo>, after: map<int, Prestamo>, lid: int, k: int, idPrestatario: int, nroCuotas: int, total: real) {
    && lid !in before
    && after.Keys == before.Keys + {lid}
    && (forall j :: j in before ==> after[j] == before[j])
    && after[lid].idSolicitud == Some(k)
    && after[lid].idPrestatario == idPrestatario
    && after[lid].nroCuotas == nroCuotas
    && after[lid].totalPrestado == Some(total)
  }

  /** `|A| <= |B|` for `A <= B`. */
  lemma {:induction false} SubsetCard(a: set<int>, b: set<int>)
    requires a <= b
    ensures |a| <= |b|
    decreases |b|
  {
    if x :| x in a {
      assert x in b;
      SubsetCard(a - {x}, b - {x});
    } else {
      assert forall x :: x !in a;
      assert a == {};
    }
  }

  /** Adding one loan adds at most that loan to its borrower's ACTIVO loans, and nothing to anyone else's. */
  lemma ActiveAfterAdd(st: Store, st': Store, lid: int, row: Prestamo, b: int)
    requires lid !in st.prestamos && st'.prestamos == st.prestamos[lid := row]
    ensures ActiveLoans(st', b) <= ActiveLoans(st, b) + {lid}
    ensures b != row.idPrestatario ==> ActiveLoans(st', b) == ActiveLoans(st, b)
  {
  }

  /** Approval keeps every borrower at two ACTIVO loans or fewer. */
  lemma AprobarKeepsAtMostTwo(st: Store, id: Num, now: int, create: LoanCreator, gen: CuotaGenerator)
    requires AtMostTwoActive(st)
    ensures AtMostTwoActive(Aprobar(st, id, now, create, gen).0)
  {
    var r := Aprobar(st, id, now, create, gen);
    if r.1.Ok? {
      var k := Find(st, id).value;
      var s := st.solicitudes[k];
      var d := create(Payload(k, s)).value;
      assert r.0.prestamos == st.prestamos[d.idPrestamo := LoanRow(k, s, d)];
      forall b
        ensures |ActiveLoans(r.0, b)| <= 2
      {
        ActiveAfterAdd(st, r.0, d.idPrestamo, LoanRow(k, s, d), b);
        if b == s.idPrestatario {
          assert |ActiveLoans(st, b)| < 2;
          SubsetCard(ActiveLoans(r.0, b), ActiveLoans(st, b) + {d.idPrestamo});
        }
      }
    }
  }

  /** An approved request cannot be approved again. */
  lemma AprobarOnce(st: Store, id: Num, now: int, now2: int, create: LoanCreator, gen: CuotaGenerator)
    requires Aprobar(st, id, now, create, gen).1.Ok?
    ensures var st' := Aprobar(st, id, now, create, gen).0;
            Aprobar(st', id, now2, create, gen) == (st', Err(SoloPendienteAprobar))
  {
    var st' := Aprobar(st, id, now, create, gen).0;
    var k := Find(st, id).value;
    assert Find(st', id) == Some(k);
  }

  // ---------------------------------------------------------------------
  // Rejection and the direct state update

  /** What a successful rejection reports. */
  datatype Rechazo = Rechazo(idSolicitud: Num, estado: SolicitudEstado, motivo: Option<string>)

  /**
   * `rechazar`: only a PENDIENTE request can be rejected. The UPDATE writes
   * the state and the answer date; the reason is echoed, not stored.
   */
  function Rechazar(st: Store, id: Num, motivo: Option<string>, now: int): (r: (Store, Result<Rechazo, string>))
    ensures Find(st, id).None? ==> r == (st, Err(NoEncontrada))
    ensures r.1.Ok? <==> Find(st, id).Some? && st.solicitudes[Find(st, id).value].estado == SolicitudEstado.Pendiente
    ensures r.1.Err? ==> r.0 == st
    ensures r.1.Ok? ==>
              var k := Find(st, id).value;
              && r.0 == st.(solicitudes := st.solicitudes[k := st.solicitudes[k].(estado := SolicitudEstado.Rechazada, fechaRespuesta := Some(now))])
              && r.1.value == Rechazo(id, SolicitudEstado.Rechazada, OrNull(motivo))
  {
    match Find(st, id)
    case None => (st, Err(NoEncontrada))
    case Some(k) =>
      var s := st.solicitudes[k];
      if s.estado != SolicitudEstado.Pendiente then (st, Err(SoloPendienteRechazar))
      else
        (st.(solicitudes := st.solicitudes[k := s.(estado := SolicitudEstado.Rechazada, fechaRespuesta := Some(now))]),
         Ok(Rechazo(id, SolicitudEstado.Rechazada, OrNull(motivo))))
  }

  /** The reason given for a rejection never reaches the store. */
  lemma RechazarIgnoresMotivo(st: Store, id: Num, m1: Option<string>, m2: Option<string>, now: int)
    ensures Rechazar(st, id, m1, now).0 == Rechazar(st, id, m2, now).0
    ensures Rechazar(st, id, m1, now).1.Ok? == Rechazar(st, id, m2, now).1.Ok?
  {
  }

  /** An accepted request can no longer be rejected, nor a rejected one accepted. */
  lemma DecisionsAreFinal(st: Store, id: Num, now: int, now2: int, motivo: Option<string>, create: LoanCreator, gen: CuotaGenerator)
    ensures var a := Aprobar(st, id, now, create, gen);
            a.1.Ok? ==> Rechazar(a.0, id, motivo, now2) == (a.0, Err(SoloPendienteRechazar))
    ensures var j := Rechazar(st, id, motivo, now);
            j.1.Ok? ==> Aprobar(j.0, id, now2, create, gen) == (j.0, Err(SoloPendienteAprobar))
  {
    var a := Aprobar(st, id, now, create, gen);
    if a.1.Ok? {
      assert Find(a.0, id) == Find(st, id);
    }
    var j := Rechazar(st, id, motivo, now);
    if j.1.Ok? {
      assert Find(j.0, id) == Find(st, id);
    }
  }

  /**
   * `actualizarEstado` without its stray `motivo` bind: overwrites the
   * state, the answer date and the deciding employee of any existing
   * request, whatever its state; the reason is written to no column.
   */
  function ActualizarEstado(st: Store, id: Num, estado: SolicitudEstado, motivo: Option<string>, idEmpleado: Field<int>, now: int)
    : (r: (Store, Result<(Num, SolicitudEstado), string>))
    ensures r.1.Ok? <==> Find(st, id).Some?
    ensures r.1.Err? ==> r == (st, Err(NoEncontrada))
    ensures r.1.Ok? ==>
              var k := Find(st, id).value;
              && r.1.value == (id, estado)
              && r.0.solicitudes.Keys == st.solicitudes.Keys
              && r.0.solicitudes[k].estado == estado
              && r.0.solicitudes[k].idEmpleado == OrNullField(idEmpleado)
              && r.0.solicitudes[k].fechaRespuesta == Some(now)
              && r.0.solicitudes[k].(estado := st.solicitudes[k].estado, idEmpleado := st.solicitudes[k].idEmpleado,
                                     fechaRespuesta := st.solicitudes[k].fechaRespuesta) == st.solicitudes[k]
              && (forall j :: j in st.solicitudes && j != k ==> r.0.solicitudes[j] == st.solicitudes[j])
              && r.0 == st.(solicitudes := r.0.solicitudes)
  {
    match Find(st, id)
    case None => (st, Err(NoEncontrada))
    case Some(k) =>
      var s := st.solicitudes[k];
      (st.(solicitudes := st.solicitudes[k := s.(estado := estado, fechaRespuesta := Some(now), idEmpleado := OrNullField(idEmpleado))]),
       Ok((id, estado)))
  }

  const ErrorActualizando: string := "Error actualizando solicitud"

  /** The named binds `actualizarEstado` passes with its UPDATE. */
  const BindsActualizar: set<string> := {"id", "estado", "motivo", "id_empleado"}

  /** The bind placeholders the UPDATE's SQL text names: there is no `:motivo`. */
  const PlaceholdersActualizar: set<string> := {"estado", "id_empleado", "id"}

  /**
   * The driver executes a statement only when each named bind it is given
   * has a placeholder in the SQL text; otherwise it refuses the call before
   * anything runs (NJS-097 in node-oracledb's Thin mode, ORA-01036 in Thick
   * mode).
   */
  predicate BindsResuelven(binds: set<string>, placeholders: set<string>) {
    binds <= placeholders
  }

  /**
   * `actualizarEstado` executed with the named binds `binds`: a bind without
   * a placeholder makes the driver refuse the call with `rechazoBind`, which
   * the catch block rethrows (or replaces by its fallback when empty);
   * otherwise the UPDATE runs as `ActualizarEstado` states.
   */
  function ActualizarEstadoCon(st: Store, id: Num, estado: SolicitudEstado, motivo: Option<string>, idEmpleado: Field<int>, now: int,
                               binds: set<string>, rechazoBind: string)
    : (r: (Store, Result<(Num, SolicitudEstado), string>))
    ensures !BindsResuelven(binds, PlaceholdersActualizar) ==> r == (st, Err(MessageOr(rechazoBind, ErrorActualizando)))
    ensures BindsResuelven(binds, PlaceholdersActualizar) ==> r == ActualizarEstado(st, id, estado, motivo, idEmpleado, now)
  {
    if BindsResuelven(binds, PlaceholdersActualizar) then ActualizarEstado(st, id, estado, motivo, idEmpleado, now)
    else (st, Err(MessageOr(rechazoBind, ErrorActualizando)))
  }

  /**
   * `actualizarEstado` as written: it binds `motivo`, which its UPDATE never
   * names, so every call fails and no request ever changes.
   */
  function ActualizarEstadoAsWritten(st: Store, id: Num, estado: SolicitudEstado, motivo: Option<string>, idEmpleado: Field<int>, now: int,
                                     rechazoBind: string)
    : (r: (Store, Result<(Num, SolicitudEstado), string>))
    ensures r.0 == st
    ensures r.1 == Err(MessageOr(rechazoBind, ErrorActualizando))
  {
    assert "motivo" in BindsActualizar && "motivo" !in PlaceholdersActualizar;
    ActualizarEstadoCon(st, id, estado, motivo, idEmpleado, now, BindsActualizar, rechazoBind)
  }

  /**
   * The discrepancy: on an existing request the code as written fails and
   * leaves the row as it was, while the statement without the stray bind,
   * `ActualizarEstado`, updates it.
   */
  lemma ActualizarEstadoNeverApplies(st: Store, id: Num, estado: SolicitudEstado, motivo: Option<string>, idEmpleado: Field<int>, now: int,
                                     rechazoBind: string)
    requires Find(st, id).Some?
    ensures ActualizarEstadoAsWritten(st, id, estado, motivo, idEmpleado, now, rechazoBind).1.Err?
    ensures ActualizarEstado(st, id, estado, motivo, idEmpleado, now).1.Ok?
    ensures BindsResuelven(BindsActualizar - {"motivo"}, PlaceholdersActualizar)
    ensures ActualizarEstadoCon(st, id, estado, motivo, idEmpleado, now, BindsActualizar - {"motivo"}, rechazoBind)
         == ActualizarEstado(st, id, estado, motivo, idEmpleado, now)
  {
  }

  /** The reason passed to `actualizarEstado` never reaches the store. */
  lemma ActualizarEstadoIgnoresMotivo(st: Store, id: Num, estado: SolicitudEstado, m1: Option<string>, m2: Option<string>, idEmpleado: Field<int>, now: int)
    ensures ActualizarEstado(st, id, estado, m1, idEmpleado, now) == ActualizarEstado(st, id, estado, m2, idEmpleado, now)
  {
  }
}
