/**
 * Loan records (PRESTAMOS): lookup by id, the state-only update, the
 * cancellation, and the per-borrower projection of loans and installments.
 */
module Prestamos {
  import opened Wrappers
  import opened Js
  import opened Entities
  import opened Ordering

  /** The row key a bound loan id matches, if a row has it. */
  function FindLoan(st: Store, id: Num): (r: Option<int>)
    ensures r.Some? ==> r.value in st.prestamos && OfInt(r.value) == id
    ensures r.None? ==> forall k :: k in st.prestamos ==> OfInt(k) != id
  {
    var k := AsId(id);
    if k.Some? && k.value in st.prestamos then k else None
  }

  /** `findById`: the loan with that id, or null. */
  function FindById(st: Store, id: Num): (r: Option<Prestamo>)
    ensures r.None? <==> forall k :: k in st.prestamos ==> OfInt(k) != id
    ensures r.Some? ==> exists k :: k in st.prestamos && OfInt(k) == id && st.prestamos[k] == r.value
  {
    match FindLoan(st, id)
    case Some(k) => Some(st.prestamos[k])
    case None => None
  }

  /** Only the state of the loan `id` may differ; every other table and field is kept. */
  ghost predicate OnlyEstadoChanged(st: Store, st': Store, id: Num) {
    && st' == st.(prestamos := st'.prestamos)
    && st'.prestamos.Keys == st.prestamos.Keys
    && forall k :: k in st.prestamos ==>
         && st'.prestamos[k].(estado := st.prestamos[k].estado) == st.prestamos[k]
         && (OfInt(k) != id ==> st'.prestamos[k] == st.prestamos[k])
  }

  /**
   * `updatePrestamo`: writes the state when one is given, then answers with
   * the loan as `findById` reads it. No state means no write; an unknown id
   * writes nothing and answers null.
   */
  function UpdatePrestamo(st: Store, id: Num, estado: Option<PrestamoEstado>): (r: (Store, Option<Prestamo>))
    ensures OnlyEstadoChanged(st, r.0, id)
    ensures estado.None? ==> r.0 == st
    ensures estado.Some? && FindLoan(st, id).Some? ==> r.0.prestamos[FindLoan(st, id).value].estado == estado.value
    ensures r.1 == FindById(r.0, id)
    ensures r.1.None? <==> FindById(st, id).None?
  {
    match (estado, FindLoan(st, id))
    case (Some(e), Some(k)) =>
      var st' := st.(prestamos := st.prestamos[k := st.prestamos[k].(estado := e)]);
      (st', FindById(st', id))
    case _ => (st, FindById(st, id))
  }

  /** Setting the same state twice is setting it once. */
  lemma UpdatePrestamoIdempotent(st: Store, id: Num, estado: Option<PrestamoEstado>)
    ensures var once := UpdatePrestamo(st, id, estado).0;
            UpdatePrestamo(once, id, estado).0 == once
  {
    var once := UpdatePrestamo(st, id, estado).0;
    if estado.Some? && FindLoan(st, id).Some? {
      var k := FindLoan(st, id).value;
      assert FindLoan(once, id) == Some(k);
      assert once.prestamos[k := once.prestamos[k].(estado := estado.value)] == once.prestamos;
    }
  }

  /**
   * `deletePrestamo`: cancels the loan, whatever its state, and reports
   * CANCELADO without checking that a row was updated.
   */
  function DeletePrestamo(st: Store, id: Num): (r: (Store, (Num, PrestamoEstado)))
    ensures r.1 == (id, PrestamoEstado.Cancelado)
    ensures r.0 == UpdatePrestamo(st, id, Some(PrestamoEstado.Cancelado)).0
    ensures FindLoan(st, id).None? ==> r.0 == st
    ensures r.0.cuotas == st.cuotas
  {
    match FindLoan(st, id)
    case Some(k) => (st.(prestamos := st.prestamos[k := st.prestamos[k].(estado := PrestamoEstado.Cancelado)]), (id, PrestamoEstado.Cancelado))
    case None => (st, (id, PrestamoEstado.Cancelado))
  }

  /** A cancelled loan is no longer ACTIVO, so cancelling never adds to anyone's active loans. */
  lemma DeleteShrinksActive(st: Store, id: Num, b: int)
    ensures ActiveLoans(DeletePrestamo(st, id).0, b) <= ActiveLoans(st, b)
  {
  }

  /**
   * The state update is not guarded by the two-ACTIVO rule that approval
   * enforces: re-activating a loan can give a borrower a third ACTIVO loan.
   */
  lemma UpdateCanBreakAtMostTwo()
    ensures exists st: Store, id: Num ::
              AtMostTwoActive(st) && !AtMostTwoActive(UpdatePrestamo(st, id, Some(PrestamoEstado.Activo)).0)
  {
    var loan := Prestamo(None, 7, Some(100.0), 12, None, 0, 1, PrestamoEstado.Activo);
    var st := Store(map[], map[], map[1 := loan, 2 := loan, 3 := loan.(estado := PrestamoEstado.Cancelado)], map[], map[], map[]);
    forall b
      ensures |ActiveLoans(st, b)| <= 2
    {
      if b == 7 {
        assert ActiveLoans(st, b) == {1, 2};
      } else {
        assert ActiveLoans(st, b) == {};
      }
    }
    var st' := UpdatePrestamo(st, OfInt(3), Some(PrestamoEstado.Activo)).0;
    assert FindLoan(st, OfInt(3)) == Some(3);
    assert ActiveLoans(st', 7) == {1, 2, 3};
  }

  // ---------------------------------------------------------------------
  // Per-borrower projection

  /** Installments ordered by (loan id, installment number). */
  function CuotaRank(cuotas: map<int, Cuota>): int -> (int, int) {
    k => if k in cuotas then (cuotas[k].idPrestamo, cuotas[k].nroCuota) else (0, 0)
  }

  /** The loans of borrower `idp`. */
  function LoansOf(st: Store, idp: int): set<int> {
    set k | k in st.prestamos && st.prestamos[k].idPrestatario == idp
  }

  /** The installments of the loans of borrower `idp`. */
  function CuotasOf(st: Store, idp: int): set<int> {
    set k | k in st.cuotas && st.cuotas[k].idPrestamo in LoansOf(st, idp)
  }

  /** What `findByPrestatario` and `findByPrestatarioId` answer. */
  datatype Proyeccion = Proyeccion(prestatario: Option<(int, int)>, prestamos: seq<(int, Prestamo)>, cuotas: seq<(int, Cuota)>)

  const Vacia: Proyeccion := Proyeccion(None, [], [])

  /** The projection of borrower `idp`: their loans newest first, and those loans' installments in (loan, number) order. */
  ghost predicate ProjectionOf(st: Store, idp: int, p: Proyeccion) {
    && ListingOf(p.prestamos, st.prestamos, LoansOf(st, idp))
    && Descending(Column(p.prestamos))
    && ListingOf(p.cuotas, st.cuotas, CuotasOf(st, idp))
    && SortedBy(Column(p.cuotas), CuotaRank(st.cuotas))
  }

  method Project(st: Store, idp: int, ci: int) returns (p: Proyeccion)
    ensures p.prestatario == Some((idp, ci))
    ensures ProjectionOf(st, idp, p)
  {
    var loans := SelectDescending(st.prestamos, LoansOf(st, idp));
    var cuotas := SelectBy(st.cuotas, CuotasOf(st, idp), CuotaRank(st.cuotas));
    p := Proyeccion(Some((idp, ci)), loans, cuotas);
  }

  /** `findByPrestatario`: the borrower with that CI and their loans and installments; the empty answer for an unknown CI. */
  method FindByPrestatario(st: Store, ci: Num) returns (p: Proyeccion)
    ensures p.prestatario.None? <==> forall k :: k in st.prestatarios ==> OfInt(st.prestatarios[k].ci) != ci
    ensures p.prestatario.None? ==> p == Vacia
    ensures p.prestatario.Some? ==>
              var idp := p.prestatario.value.0;
              && idp in st.prestatarios && OfInt(st.prestatarios[idp].ci) == ci
              && OfInt(p.prestatario.value.1) == ci
              && ProjectionOf(st, idp, p)
  {
    if exists k :: k in st.prestatarios && OfInt(st.prestatarios[k].ci) == ci {
      var idp :| idp in st.prestatarios && OfInt(st.prestatarios[idp].ci) == ci;
      p := Project(st, idp, st.prestatarios[idp].ci);
    } else {
      p := Vacia;
    }
  }

  /** `findByPrestatarioId`: the same projection, found by the borrower's id. */
  method FindByPrestatarioId(st: Store, idp: int) returns (p: Proyeccion)
    ensures p.prestatario.None? <==> idp !in st.prestatarios
    ensures p.prestatario.None? ==> p == Vacia
    ensures p.prestatario.Some? ==> p.prestatario.value == (idp, st.prestatarios[idp].ci) && ProjectionOf(st, idp, p)
  {
    if idp in st.prestatarios {
      p := Project(st, idp, st.prestatarios[idp].ci);
    } else {
      p := Vacia;
    }
  }
}
