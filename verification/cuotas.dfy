/**
 * The installment controller's own decisions: the delinquency status
 * derived from the count of overdue unpaid installments, and the guard that
 * keeps the development-only overdue sweep out of production. The count and
 * the sweep are database procedures, given here as parameters.
 */
module Cuotas {
  import opened Wrappers
  import opened Js
  import opened Http
  import opened Entities

  const NoEnProduccion: string := "No disponible en producción"

  datatype EstadoDerivado = Moroso | Activo {
    function Name(): string {
      match this
      case Moroso => "MOROSO"
      case Activo => "ACTIVO"
    }
  }

  /** The threshold: two or more overdue unpaid installments make a borrower MOROSO. */
  function Derivar(vencidasImpagas: int): (r: EstadoDerivado)
    ensures r == Moroso <==> vencidasImpagas >= 2
  {
    if vencidasImpagas >= 2 then Moroso else EstadoDerivado.Activo
  }

  /** More overdue installments never turn MOROSO back into ACTIVO. */
  lemma DerivarMonotone(n: int, m: int)
    requires n <= m && Derivar(n) == Moroso
    ensures Derivar(m) == Moroso
  {
  }

  datatype Morosidad = Morosidad(idPrestatario: Num, vencidasImpagas: int, estado: EstadoDerivado)

  /**
   * `estadoMorosoDerivado`: `contar` is `contarVencidasImpagas`. The reply
   * echoes the borrower id and the count unchanged, with the derived state;
   * a failing count answers 400 with its message.
   */
  function EstadoMorosoDerivado(id: Num, contar: Num -> Result<int, string>): (r: Reply<Morosidad>)
    ensures contar(id).Err? ==> r == Fail(400, contar(id).error)
    ensures contar(id).Ok? ==> r.status == 200 && r.body.Ok?
    ensures r.body.Ok? ==>
              && r.body.value.idPrestatario == id
              && r.body.value.vencidasImpagas == contar(id).value
              && (r.body.value.estado == Moroso <==> contar(id).value >= 2)
  {
    match contar(id)
    case Err(e) => Fail(400, e)
    case Ok(n) => Reply(200, Ok(Morosidad(id, n, Derivar(n))))
  }

  /** `process.env.NODE_ENV || 'development'`: an unset or empty environment is development. */
  function Entorno(nodeEnv: Option<string>): (r: string)
    ensures TruthyStr(nodeEnv) ==> r == nodeEnv.value
    ensures !TruthyStr(nodeEnv) ==> r == "development"
  {
    if TruthyStr(nodeEnv) then nodeEnv.value else "development"
  }

  /**
   * `marcarVencidasDev`: refused with 403 in production, where the sweep
   * does not run; elsewhere the sweep runs and its failure answers 400.
   */
  function MarcarVencidasDev<T>(st: Store, nodeEnv: Option<string>, sweep: Store -> Result<(Store, T), string>): (r: (Store, Reply<T>))
    ensures r.1.status == 403 <==> nodeEnv == Some("production")
    ensures r.1.status == 403 ==> r == (st, Fail(403, NoEnProduccion))
    ensures nodeEnv.None? ==> r.1.status != 403
    ensures nodeEnv != Some("production") && sweep(st).Ok? ==> r == (sweep(st).value.0, Reply(200, Ok(sweep(st).value.1)))
    ensures nodeEnv != Some("production") && sweep(st).Err? ==> r == (st, Fail(400, sweep(st).error))
  {
    if Entorno(nodeEnv) == "production" then (st, Fail(403, NoEnProduccion))
    else match sweep(st)
      case Ok(v) => (v.0, Reply(200, Ok(v.1)))
      case Err(e) => (st, Fail(400, e))
  }
}
