/**
 * Borrower records (PRESTATARIOS): the required-field check of the insert,
 * the whitelisted partial update, the duplicate-CI lookup, and the
 * delinquent-borrower listing built from overdue unpaid installments.
 */
module Prestatarios {
  import opened Wrappers
  import opened Js
  import opened Entities
  import opened Ordering

  /**
   * A request body as the model sees it: a name missing from the map is
   * `undefined`, `None` is `null`, and every present value is text.
   */
  type Datos = map<string, Option<string>>

  /** The fields `insertPrestatario` requires, in the order it checks them. */
  const Requeridos: seq<string> := ["ci", "nombre", "apellido", "direccion", "email", "telefono", "fecha_nacimiento", "estado_cliente", "usuario_registro"]

  /** The fields `updatePrestatario` may write; `ci` and `usuario_registro` are not among them. */
  const Editables: seq<string> := ["nombre", "apellido", "direccion", "email", "telefono", "fecha_nacimiento", "estado_cliente"]

  const CiDuplicada: string := "La cédula ya está registrada"
  const SinCampos: string := "No hay campos para actualizar"
  const CedulaNoEncontrada: string := "Cédula no encontrada"

  /** Why an insert fails: a missing field, a taken CI (code `DUP_CI`), or another database error. */
  datatype Falla = Faltante(campo: string) | DupCi | Bd(message: string) {
    function Message(): string {
      match this
      case Faltante(f) => "Campo requerido faltante: " + f
      case DupCi => CiDuplicada
      case Bd(m) => m
    }
  }

  /** A field counts as missing when it is `undefined`, `null` or the empty string. */
  predicate Falta(data: Datos, f: string) {
    f !in data || data[f].None? || data[f] == Some("")
  }

  /** Every required field is present and non-empty. */
  predicate Completo(data: Datos) {
    forall i :: 0 <= i < |Requeridos| ==> !Falta(data, Requeridos[i])
  }

  /** The text of the body's `ci`, or the empty string when it is missing. */
  function CiTexto(data: Datos): (t: string)
    ensures Completo(data) ==> "ci" in data && data["ci"] == Some(t) && t != ""
  {
    assert Requeridos[0] == "ci";
    if "ci" in data && data["ci"].Some? then data["ci"].value else ""
  }

  /** The position of the first missing field of `fields` at or after position `from`, if any. */
  function PrimerFaltante(data: Datos, fields: seq<string>, from: nat): (r: Option<nat>)
    requires from <= |fields|
    ensures r.Some? ==> from <= r.value < |fields| && Falta(data, fields[r.value])
    ensures r.Some? ==> forall j :: from <= j < r.value ==> !Falta(data, fields[j])
    ensures r.None? <==> forall j :: from <= j < |fields| ==> !Falta(data, fields[j])
    decreases |fields| - from
  {
    if from == |fields| then None
    else if Falta(data, fields[from]) then Some(from)
    else PrimerFaltante(data, fields, from + 1)
  }

  /** The keys of the borrowers whose CI a bound number matches. */
  function Registrados(st: Store, ci: Num): set<int> {
    set k | k in st.prestatarios && AsId(ci) == Some(st.prestatarios[k].ci)
  }

  lemma NonEmptyCard(s: set<int>)
    ensures |s| > 0 <==> exists k :: k in s
  {
    if k :| k in s {
      assert |s - {k}| == |s| - 1;
    } else {
      assert forall k :: k !in s;
      assert s == {};
    }
  }

  /** `checkCedula`: whether `COUNT(*)` of borrowers with that CI is positive. */
  function CheckCedula(st: Store, ci: Num): (duplicada: bool)
    ensures duplicada <==> exists k :: k in st.prestatarios && OfInt(st.prestatarios[k].ci) == ci
  {
    NonEmptyCard(Registrados(st, ci));
    assert forall k :: k in st.prestatarios && OfInt(st.prestatarios[k].ci) == ci ==> k in Registrados(st, ci) by {
      forall k | k in st.prestatarios && OfInt(st.prestatarios[k].ci) == ci
        ensures AsId(ci) == Some(st.prestatarios[k].ci)
      {
        assert IsInteger(ci);
      }
    }
    |Registrados(st, ci)| > 0
  }

  /** The row an insert writes: the CI as a number, the other eight fields as given, the registration time. */
  function Nuevo(data: Datos, ci: int, now: int): Prestatario {
    Prestatario(ci, map f | f in Requeridos[1..] && f in data :: data[f], now)
  }

  /**
   * `insertPrestatario`: the nine fields are checked in order and the first
   * missing one is named. `num` is `Number(...)`, applied to the CI; a CI
   * that is not an integer is refused by the database with `rechazoBd`.
   * The trigger gives the row the key `id`. Every unique-constraint
   * violation, of the CI or of the key, is reported as `DUP_CI`.
   */
  function InsertPrestatario(st: Store, data: Datos, id: int, now: int, num: string -> Num, rechazoBd: string): (r: (Store, Result<(), Falla>))
    ensures r.1.Err? ==> r.0 == st
    ensures !Completo(data) ==> r == (st, Err(Faltante(Requeridos[PrimerFaltante(data, Requeridos, 0).value])))
    ensures r.1.Ok? <==> Completo(data) && AsId(num(CiTexto(data))).Some? && !CheckCedula(st, num(CiTexto(data))) && id !in st.prestatarios
    ensures Completo(data) && AsId(num(CiTexto(data))).Some? && CheckCedula(st, num(CiTexto(data))) ==> r == (st, Err(DupCi))
    ensures r.1.Ok? ==> r.0 == st.(prestatarios := r.0.prestatarios) && r.0.prestatarios.Keys == st.prestatarios.Keys + {id}
    ensures r.1.Ok? ==> forall k :: k in st.prestatarios ==> r.0.prestatarios[k] == st.prestatarios[k]
  {
    match PrimerFaltante(data, Requeridos, 0)
    case Some(i) => (st, Err(Faltante(Requeridos[i])))
    case None =>
      var n := num(CiTexto(data));
      match AsId(n)
      case None => (st, Err(Bd(rechazoBd)))
      case Some(ci) =>
        if CheckCedula(st, n) || id in st.prestatarios then (st, Err(DupCi))
        else
          (st.(prestatarios := st.prestatarios[id := Nuevo(data, ci, now)]), Ok(()))
  }

  /**
   * The row an insert adds holds the CI as the number the body's text
   * reads as, the registration time and the other eight fields as given;
   * afterwards the CI counts as taken.
   */
  lemma InsertedRow(st: Store, data: Datos, id: int, now: int, num: string -> Num, rechazoBd: string)
    requires InsertPrestatario(st, data, id, now, num, rechazoBd).1.Ok?
    ensures var p := InsertPrestatario(st, data, id, now, num, rechazoBd).0.prestatarios[id];
            && OfInt(p.ci) == num(CiTexto(data))
            && p.fechaRegistro == now
            && (forall f :: f in Requeridos[1..] ==> f in p.campos && p.campos[f] == data[f])
    ensures CheckCedula(InsertPrestatario(st, data, id, now, num, rechazoBd).0, num(CiTexto(data)))
  {
    var st' := InsertPrestatario(st, data, id, now, num, rechazoBd).0;
    var ci := AsId(num(CiTexto(data))).value;
    assert st'.prestatarios[id] == Nuevo(data, ci, now);
    assert OfInt(st'.prestatarios[id].ci) == num(CiTexto(data));
  }

  /** The whitelisted fields the body carries: present, even if `null`. */
  function Cambios(data: Datos): (c: map<string, Option<string>>)
    ensures forall f :: f in c <==> f in Editables && f in data
    ensures forall f :: f in c ==> c[f] == data[f]
  {
    map f | f in Editables && f in data :: data[f]
  }

  /** A borrower row with the given columns overwritten. */
  function Editar(p: Prestatario, cambios: map<string, Option<string>>): Prestatario {
    p.(campos := p.campos + cambios)
  }

  /**
   * `updatePrestatario`: writes the whitelisted fields present in `data`
   * (a `null` included) on the rows with that CI. No such field fails
   * before the database is reached; no matching row fails afterwards.
   */
  function UpdatePrestatario(st: Store, ci: Num, data: Datos): (r: (Store, Result<(), string>))
    ensures r.1.Err? ==> r.0 == st
    ensures (forall f :: f in Editables ==> f !in data) ==> r.1 == Err(SinCampos)
    ensures (exists f :: f in Editables && f in data) && !CheckCedula(st, ci) ==> r.1 == Err(CedulaNoEncontrada)
    ensures r.1.Ok? <==> (exists f :: f in Editables && f in data) && CheckCedula(st, ci)
    ensures r.0 == st.(prestatarios := r.0.prestatarios)
    ensures r.0.prestatarios.Keys == st.prestatarios.Keys
    ensures forall k :: k in st.prestatarios ==>
              && r.0.prestatarios[k].ci == st.prestatarios[k].ci
              && r.0.prestatarios[k].fechaRegistro == st.prestatarios[k].fechaRegistro
              && (OfInt(st.prestatarios[k].ci) != ci ==> r.0.prestatarios[k] == st.prestatarios[k])
    ensures r.1.Ok? ==> forall k :: k in st.prestatarios && OfInt(st.prestatarios[k].ci) == ci ==>
              && (forall f :: f in Editables && f in data ==> f in r.0.prestatarios[k].campos && r.0.prestatarios[k].campos[f] == data[f])
              && (forall g :: g in st.prestatarios[k].campos && !(g in Editables && g in data) ==>
                    g in r.0.prestatarios[k].campos && r.0.prestatarios[k].campos[g] == st.prestatarios[k].campos[g])
  {
    var cambios := Cambios(data);
    if !exists f :: f in Editables && f in data then (st, Err(SinCampos))
    else if !CheckCedula(st, ci) then (st, Err(CedulaNoEncontrada))
    else (st.(prestatarios := EditarFilas(st.prestatarios, ci, cambios)), Ok(()))
  }

  /** `UPDATE ... WHERE ci = :ci` on the borrower table. */
  function EditarFilas(ps: map<int, Prestatario>, ci: Num, cambios: map<string, Option<string>>): map<int, Prestatario> {
    map k | k in ps :: if OfInt(ps[k].ci) == ci then Editar(ps[k], cambios) else ps[k]
  }

  /** Repeating an update changes nothing more. */
  lemma UpdatePrestatarioIdempotent(st: Store, ci: Num, data: Datos)
    ensures var once := UpdatePrestatario(st, ci, data).0;
            UpdatePrestatario(once, ci, data).0 == once
  {
    var r := UpdatePrestatario(st, ci, data);
    if r.1.Ok? {
      var c := Cambios(data);
      var ps := EditarFilas(st.prestatarios, ci, c);
      assert r.0 == st.(prestatarios := ps);
      forall k | k in ps && OfInt(ps[k].ci) == ci
        ensures Editar(ps[k], c) == ps[k]
      {
        assert ps[k].campos + c == ps[k].campos;
      }
      assert EditarFilas(ps, ci, c) == ps;
    }
  }

  /** An update neither frees nor takes a CI: the duplicate check answers as before. */
  lemma UpdateKeepsCedulas(st: Store, ci: Num, data: Datos, other: Num)
    ensures CheckCedula(UpdatePrestatario(st, ci, data).0, other) == CheckCedula(st, other)
  {
    var st' := UpdatePrestatario(st, ci, data).0;
    if CheckCedula(st, other) {
      var k :| k in st.prestatarios && OfInt(st.prestatarios[k].ci) == other;
      assert OfInt(st'.prestatarios[k].ci) == other;
    }
    if CheckCedula(st', other) {
      var k :| k in st'.prestatarios && OfInt(st'.prestatarios[k].ci) == other;
      assert OfInt(st.prestatarios[k].ci) == other;
    }
  }

  /** A second insert of the same CI is refused as a duplicate. */
  lemma InsertTwiceIsDuplicate(st: Store, data: Datos, id: int, id2: int, now: int, num: string -> Num, rechazoBd: string)
    requires InsertPrestatario(st, data, id, now, num, rechazoBd).1.Ok?
    ensures InsertPrestatario(InsertPrestatario(st, data, id, now, num, rechazoBd).0, data, id2, now, num, rechazoBd).1 == Err(DupCi)
  {
  }

  /** The installments of borrower `b` still unpaid and already due at `now`. */
  function Vencidas(st: Store, b: int, now: int): set<int> {
    set k | k in st.cuotas
      && st.cuotas[k].idPrestatario == b
      && st.cuotas[k].estado != CuotaEstado.Pagada
      && st.cuotas[k].fechaVencimiento < now
  }

  /** A text column of a borrower row; a column the row lacks reads as null. */
  function Columna(p: Prestatario, f: string): Option<string> {
    if f in p.campos then p.campos[f] else None
  }

  datatype FilaMoroso = FilaMoroso(
    ci: int,
    nombre: Option<string>,
    apellido: Option<string>,
    email: Option<string>,
    telefono: Option<string>,
    cuotasVencidas: nat)

  /** The grouped rows of the delinquency query, keyed by borrower. */
  function Morosos(st: Store, now: int): map<int, FilaMoroso> {
    map b | b in st.prestatarios && |Vencidas(st, b, now)| >= 1 ::
      var p := st.prestatarios[b];
      FilaMoroso(p.ci, Columna(p, "nombre"), Columna(p, "apellido"), Columna(p, "email"), Columna(p, "telefono"), |Vencidas(st, b, now)|)
  }

  /**
   * `listMorosos`: one row per borrower with at least one overdue unpaid
   * installment, carrying the count of them, by count descending.
   */
  method ListMorosos(st: Store, now: int) returns (rows: seq<(int, FilaMoroso)>)
    ensures forall b :: b in Column(rows) <==> b in st.prestatarios && |Vencidas(st, b, now)| >= 1
    ensures forall i :: 0 <= i < |rows| ==>
              && rows[i].0 in st.prestatarios
              && rows[i].1.cuotasVencidas == |Vencidas(st, rows[i].0, now)|
              && rows[i].1.ci == st.prestatarios[rows[i].0].ci
              && rows[i].1.nombre == Columna(st.prestatarios[rows[i].0], "nombre")
              && rows[i].1.apellido == Columna(st.prestatarios[rows[i].0], "apellido")
              && rows[i].1.email == Columna(st.prestatarios[rows[i].0], "email")
              && rows[i].1.telefono == Columna(st.prestatarios[rows[i].0], "telefono")
    ensures forall i, j :: 0 <= i < j < |rows| ==> rows[i].1.cuotasVencidas >= rows[j].1.cuotasVencidas
    ensures Distinct(Column(rows))
  {
    var m := Morosos(st, now);
    var rank := k => (-(if k in m then m[k].cuotasVencidas else 0), 0);
    rows := SelectBy(m, m.Keys, rank);
    forall i, j | 0 <= i < j < |rows|
      ensures rows[i].1.cuotasVencidas >= rows[j].1.cuotasVencidas
    {
      assert Column(rows)[i] == rows[i].0 && Column(rows)[j] == rows[j].0;
      assert LexLe(rank(rows[i].0), rank(rows[j].0));
    }
  }
}
