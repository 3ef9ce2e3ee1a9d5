/**
 * The database procedures the workflows call but whose code is not part of
 * this model: the manual loan creator (`createPrestamoManualTransactional`)
 * and the installment generator (`generateCuotasTransactional`). Both are
 * parameters of the workflows, so every property proved about a workflow
 * holds for every creator and every generator. What the model assumes of
 * them is stated here, once:
 *  - the creator, given a payload, either fails with a message or reports
 *    the key and the computed columns of the one PRESTAMOS row it inserts
 *    for that payload;
 *  - the generator, given a loan, either fails with a message or yields
 *    the new CUOTAS rows keyed by their ids, and those rows belong to the
 *    loan and borrower it was given.
 * No split, rounding rule or interest rate is assumed.
 */
module Collaborators {
  import opened Wrappers
  import opened Entities

  /** What the approval passes to the loan creator. */
  datatype LoanPayload = LoanPayload(
    idSolicitud: int,
    idPrestatario: int,
    monto: real,
    nroCuotas: int,
    tipoInteres: Tier)

  /** What the loan creator reports about the loan it inserted. */
  datatype LoanDraft = LoanDraft(
    idPrestamo: int,
    totalPrestado: real,
    interes: Option<real>,
    fechaEmision: int,
    fechaVencimiento: int,
    estado: PrestamoEstado)

  type LoanCreator = LoanPayload -> Result<LoanDraft, string>

  /** What a workflow passes to the installment generator. */
  datatype GenArgs = GenArgs(idPrestamo: int, idPrestatario: int, totalPrestado: real, nroCuotas: int)

  /** The columns of one generated installment that the generator decides. */
  datatype CuotaDraft = CuotaDraft(nroCuota: int, valorCuota: real, fechaVencimiento: int, estado: CuotaEstado)

  type CuotaGenerator = GenArgs -> Result<map<int, CuotaDraft>, string>

  /** The database's answer to an insert whose primary key is taken. */
  const UniqueViolation: string := "ORA-00001: restricción única violada"

  /** A generated installment as a CUOTAS row of the loan it was generated for. */
  function Stamp(args: GenArgs, d: CuotaDraft): (c: Cuota)
    ensures c.idPrestamo == args.idPrestamo && c.idPrestatario == args.idPrestatario
  {
    Cuota(args.idPrestamo, args.idPrestatario, d.nroCuota, d.valorCuota, d.fechaVencimiento, d.estado)
  }

  /**
   * Runs the generator and inserts what it produced. A generator failure
   * or a taken installment key fails the whole insert.
   */
  function Generate(cuotas: map<int, Cuota>, gen: CuotaGenerator, args: GenArgs): (r: Result<map<int, Cuota>, string>)
    ensures gen(args).Err? ==> r == Err(gen(args).error)
    ensures r.Ok? <==> gen(args).Ok? && gen(args).value.Keys !! cuotas.Keys
    ensures r.Ok? ==> r.value.Keys == cuotas.Keys + gen(args).value.Keys
    ensures r.Ok? ==> forall k :: k in cuotas ==> r.value[k] == cuotas[k]
    ensures r.Ok? ==> forall k :: k in gen(args).value ==> r.value[k] == Stamp(args, gen(args).value[k])
  {
    match gen(args)
    case Err(e) => Err(e)
    case Ok(drafts) =>
      if drafts.Keys !! cuotas.Keys then
        Ok(cuotas + map k | k in drafts :: Stamp(args, drafts[k]))
      else
        Err(UniqueViolation)
  }

  /** The keys of a loan's installments. */
  function CuotasDe(cuotas: map<int, Cuota>, idPrestamo: int): set<int> {
    set k | k in cuotas && cuotas[k].idPrestamo == idPrestamo
  }

  /** `DELETE FROM CUOTAS WHERE id_prestamo = :id_prestamo`. */
  function DeleteCuotas(cuotas: map<int, Cuota>, idPrestamo: int): (r: map<int, Cuota>)
    ensures r.Keys == cuotas.Keys - CuotasDe(cuotas, idPrestamo)
    ensures forall k :: k in r ==> r[k] == cuotas[k]
    ensures CuotasDe(r, idPrestamo) == {}
  {
    map k | k in cuotas && cuotas[k].idPrestamo != idPrestamo :: cuotas[k]
  }

  /** The generator succeeded for `args` and its installments, for that loan and borrower, were added to the kept ones. */
  ghost predicate CuotasAdded(before: map<int, Cuota>, after: map<int, Cuota>, gen: CuotaGenerator, args: GenArgs) {
    && gen(args).Ok?
    && after.Keys == before.Keys + gen(args).value.Keys
    && (forall j :: j in before ==> after[j] == before[j])
    && (forall j :: j in gen(args).value ==> after[j].idPrestamo == args.idPrestamo && after[j].idPrestatario == args.idPrestatario)
  }
}
