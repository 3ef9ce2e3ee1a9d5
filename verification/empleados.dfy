/**
 * The EMPLEADOS table operations (`createEmpleado`, `getAllEmpleados`,
 * `getEmpleadoById`, `updateEmpleado`, `deleteEmpleado`). Each workflow
 * returns the store after it and its outcome; a failing workflow leaves
 * the store as it was.
 */
module Empleados {
  import opened Wrappers
  import opened Js
  import opened Entities
  import opened Ordering
  import Collaborators

  const Obligatorios: string := "Campos obligatorios faltantes: nombre, apellido"
  const SinCampos: string := "No hay campos para actualizar"
  const NoEncontrado: string := "Empleado no encontrado"

  /** The employee properties of a request body, each absent, null or given. */
  datatype Datos = Datos(
    nombre: Field<string>,
    apellido: Field<string>,
    cargo: Field<string>,
    salario: Field<real>,
    edad: Field<int>)

  /** A given, non-empty text property: what `!x` lets through. */
  predicate Dado(f: Field<string>) {
    f.Value? && f.v != ""
  }

  /** What a successful insert answers: the stored row when the sequence gave an id, `{ inserted: true }` otherwise. */
  datatype Creado = Registro(id: int, fila: Empleado) | Insertado

  /**
   * The row `getEmpleadoById` returns: an id that is not an integer
   * matches no key.
   */
  function GetEmpleadoById(st: Store, id: Num): (r: Option<(int, Empleado)>)
    ensures r.Some? <==> AsId(id).Some? && AsId(id).value in st.empleados
    ensures r.Some? ==> OfInt(r.value.0) == id && r.value.0 in st.empleados && r.value.1 == st.empleados[r.value.0]
  {
    match AsId(id)
    case Some(k) => if k in st.empleados then Some((k, st.empleados[k])) else None
    case None => None
  }

  /**
   * `createEmpleado`: nombre and apellido must be given and non-empty;
   * cargo, salario and edad default to null; `id` is the key the table's
   * sequence hands out, and a key already taken is a unique violation.
   */
  function CreateEmpleado(st: Store, data: Datos, id: int): (r: (Store, Result<Creado, string>))
    ensures r.1.Err? ==> r.0 == st
    ensures !Dado(data.nombre) || !Dado(data.apellido) ==> r.1 == Err(Obligatorios)
    ensures Dado(data.nombre) && Dado(data.apellido) && id in st.empleados ==> r.1 == Err(Collaborators.UniqueViolation)
    ensures r.1.Ok? <==> Dado(data.nombre) && Dado(data.apellido) && id !in st.empleados
    ensures r.1.Ok? ==>
              && id in r.0.empleados && r.0 == st.(empleados := st.empleados[id := r.0.empleados[id]])
              && r.0.empleados[id] == Empleado(Some(data.nombre.v), Some(data.apellido.v),
                                               OrNullField(data.cargo), OrNullField(data.salario), OrNullField(data.edad))
              && (r.1.value.Registro? <==> id != 0)
              && (r.1.value.Registro? ==> r.1.value == Registro(id, r.0.empleados[id]))
  {
    if !Dado(data.nombre) || !Dado(data.apellido) then (st, Err(Obligatorios))
    else if id in st.empleados then (st, Err(Collaborators.UniqueViolation))
    else
      var fila := Empleado(Some(data.nombre.v), Some(data.apellido.v),
                           OrNullField(data.cargo), OrNullField(data.salario), OrNullField(data.edad));
      var st' := st.(empleados := st.empleados[id := fila]);
      if id != 0 then
        match GetEmpleadoById(st', OfInt(id))
        case Some(e) => (st', Ok(Registro(e.0, e.1)))
        case None => assert false; (st', Ok(Insertado))
      else (st', Ok(Insertado))
  }

  /** `getAllEmpleados`: every employee, newest key first. */
  method GetAllEmpleados(st: Store) returns (rows: seq<(int, Empleado)>)
    ensures ListingOf(rows, st.empleados, st.empleados.Keys)
    ensures Descending(Column(rows))
  {
    rows := SelectDescending(st.empleados, st.empleados.Keys);
  }

  /** The columns an update writes: the whitelisted properties not `undefined`; null clears a column. */
  function Editar(e: Empleado, data: Datos): (r: Empleado)
    ensures data.nombre.Absent? ==> r.nombre == e.nombre
    ensures !data.nombre.Absent? ==> r.nombre == OrNullField(data.nombre)
    ensures data.apellido.Absent? ==> r.apellido == e.apellido
    ensures !data.apellido.Absent? ==> r.apellido == OrNullField(data.apellido)
    ensures data.cargo.Absent? ==> r.cargo == e.cargo
    ensures !data.cargo.Absent? ==> r.cargo == OrNullField(data.cargo)
    ensures data.salario.Absent? ==> r.salario == e.salario
    ensures !data.salario.Absent? ==> r.salario == OrNullField(data.salario)
    ensures data.edad.Absent? ==> r.edad == e.edad
    ensures !data.edad.Absent? ==> r.edad == OrNullField(data.edad)
  {
    Empleado(
      if data.nombre.Absent? then e.nombre else OrNullField(data.nombre),
      if data.apellido.Absent? then e.apellido else OrNullField(data.apellido),
      if data.cargo.Absent? then e.cargo else OrNullField(data.cargo),
      if data.salario.Absent? then e.salario else OrNullField(data.salario),
      if data.edad.Absent? then e.edad else OrNullField(data.edad))
  }

  /** Some whitelisted property is present, so the `SET` list is not empty. */
  predicate HayCambios(data: Datos) {
    !data.nombre.Absent? || !data.apellido.Absent? || !data.cargo.Absent? || !data.salario.Absent? || !data.edad.Absent?
  }

  /**
   * `updateEmpleado`: with no property to set it fails before touching the
   * table; an id that matches no row fails with "Empleado no encontrado";
   * otherwise the row is rewritten and read back.
   */
  function UpdateEmpleado(st: Store, id: Num, data: Datos): (r: (Store, Result<(int, Empleado), string>))
    ensures r.1.Err? ==> r.0 == st
    ensures !HayCambios(data) ==> r.1 == Err(SinCampos)
    ensures HayCambios(data) && GetEmpleadoById(st, id).None? ==> r.1 == Err(NoEncontrado)
    ensures r.1.Ok? <==> HayCambios(data) && GetEmpleadoById(st, id).Some?
    ensures r.1.Ok? ==>
              && r.1.value.0 in st.empleados
              && r.0 == st.(empleados := st.empleados[r.1.value.0 := Editar(st.empleados[r.1.value.0], data)])
              && GetEmpleadoById(r.0, id) == Some(r.1.value)
  {
    if !HayCambios(data) then (st, Err(SinCampos))
    else match GetEmpleadoById(st, id)
      case None => (st, Err(NoEncontrado))
      case Some(e) =>
        var fila := Editar(e.1, data);
        (st.(empleados := st.empleados[e.0 := fila]), Ok((e.0, fila)))
  }

  /**
   * `deleteEmpleado`: removes the row and answers with the id it was
   * given; an id that matches no row fails with "Empleado no encontrado".
   */
  function DeleteEmpleado(st: Store, id: Num): (r: (Store, Result<Num, string>))
    ensures r.1.Err? ==> r.0 == st
    ensures r.1.Ok? <==> GetEmpleadoById(st, id).Some?
    ensures r.1.Err? ==> r.1.error == NoEncontrado
    ensures r.1.Ok? ==>
              && r.1.value == id
              && r.0 == st.(empleados := st.empleados - {GetEmpleadoById(st, id).value.0})
  {
    match GetEmpleadoById(st, id)
    case None => (st, Err(NoEncontrado))
    case Some(e) => (st.(empleados := st.empleados - {e.0}), Ok(id))
  }

  /** A created employee is found under its key with the columns it was created with. */
  lemma CreateThenGet(st: Store, data: Datos, id: int)
    requires CreateEmpleado(st, data, id).1.Ok?
    ensures GetEmpleadoById(CreateEmpleado(st, data, id).0, OfInt(id)).Some?
    ensures GetEmpleadoById(CreateEmpleado(st, data, id).0, OfInt(id)).value.1
            == Empleado(Some(data.nombre.v), Some(data.apellido.v), OrNullField(data.cargo), OrNullField(data.salario), OrNullField(data.edad))
  {
    assert AsId(OfInt(id)) == Some(id);
  }

  /** Applying the same update twice leaves the table as applying it once. */
  lemma UpdateEmpleadoIdempotent(st: Store, id: Num, data: Datos)
    ensures var once := UpdateEmpleado(st, id, data);
            && UpdateEmpleado(once.0, id, data).0 == once.0
            && UpdateEmpleado(once.0, id, data).1 == once.1
  {
    var once := UpdateEmpleado(st, id, data);
    if once.1.Ok? {
      var k := once.1.value.0;
      assert Editar(Editar(st.empleados[k], data), data) == Editar(st.empleados[k], data);
      assert once.0.empleados[k := Editar(once.0.empleados[k], data)] == once.0.empleados;
    }
  }

  /** Only the updated row changes: every other employee keeps its columns. */
  lemma UpdateKeepsOthers(st: Store, id: Num, data: Datos, k: int)
    requires k in st.empleados && OfInt(k) != id
    ensures k in UpdateEmpleado(st, id, data).0.empleados
    ensures UpdateEmpleado(st, id, data).0.empleados[k] == st.empleados[k]
  {
  }

  /** A deleted employee is gone: looking it up finds nothing, and deleting it again fails. */
  lemma DeleteThenGet(st: Store, id: Num)
    requires DeleteEmpleado(st, id).1.Ok?
    ensures GetEmpleadoById(DeleteEmpleado(st, id).0, id).None?
    ensures DeleteEmpleado(DeleteEmpleado(st, id).0, id).1 == Err(NoEncontrado)
  {
  }
}
