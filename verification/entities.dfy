/**
 * The rows of the loan database and the store that holds them: loan
 * requests (SOLICITUDES_PRESTAMOS), refinancing requests
 * (SOLICITUDES_REFINANCIACION), loans (PRESTAMOS), installments (CUOTAS),
 * borrowers (PRESTATARIOS) and employees (EMPLEADOS), each table a map
 * from its primary key to its row.
 */
module Entities {
  import opened Wrappers

  /** States of a loan request. */
  datatype SolicitudEstado = Pendiente | Aceptada | Rechazada {
    function Name(): string {
      match this
      case Pendiente => "PENDIENTE"
      case Aceptada => "ACEPTADA"
      case Rechazada => "RECHAZADA"
    }
  }

  /** States of a refinancing request. */
  datatype RefiEstado = Pendiente | Aprobada | Rechazada {
    function Name(): string {
      match this
      case Pendiente => "PENDIENTE"
      case Aprobada => "APROBADA"
      case Rechazada => "RECHAZADA"
    }
  }

  /** The loan states the PRESTAMOS check constraint admits. */
  datatype PrestamoEstado = Pendiente | Activo | Cancelado | Completado {
    function Name(): string {
      match this
      case Pendiente => "PENDIENTE"
      case Activo => "ACTIVO"
      case Cancelado => "CANCELADO"
      case Completado => "COMPLETADO"
    }
  }

  /** Interest tier of a loan (`tipo_interes`). */
  datatype Tier = Baja | Media | Alta {
    function Name(): string {
      match this
      case Baja => "BAJA"
      case Media => "MEDIA"
      case Alta => "ALTA"
    }
  }

  /** States of an installment; only PAGADA matters to the rules modelled here. */
  datatype CuotaEstado = Pendiente | Vencida | Pagada

  datatype Solicitud = Solicitud(
    idPrestatario: int,
    idEmpleado: Option<int>,
    nroCuotas: int,
    monto: real,
    fechaEnvio: int,
    fechaRespuesta: Option<int>,
    estado: SolicitudEstado)

  datatype Refinanciacion = Refinanciacion(
    idPrestatario: int,
    idPrestamo: int,
    nroCuotas: int,
    fechaRealizacion: int,
    estado: RefiEstado)

  datatype Prestamo = Prestamo(
    idSolicitud: Option<int>,
    idPrestatario: int,
    totalPrestado: Option<real>,
    nroCuotas: int,
    interes: Option<real>,
    fechaEmision: int,
    fechaVencimiento: int,
    estado: PrestamoEstado)

  datatype Cuota = Cuota(
    idPrestamo: int,
    idPrestatario: int,
    nroCuota: int,
    valorCuota: real,
    fechaVencimiento: int,
    estado: CuotaEstado)

  /**
   * A borrower: the national id (`ci`), the registration date and the
   * named text columns (nombre, apellido, direccion, email, telefono,
   * fecha_nacimiento, estado_cliente, usuario_registro), each possibly null.
   */
  datatype Prestatario = Prestatario(ci: int, campos: map<string, Option<string>>, fechaRegistro: int)

  datatype Empleado = Empleado(
    nombre: Option<string>,
    apellido: Option<string>,
    cargo: Option<string>,
    salario: Option<real>,
    edad: Option<int>)

  datatype Store = Store(
    solicitudes: map<int, Solicitud>,
    refinanciaciones: map<int, Refinanciacion>,
    prestamos: map<int, Prestamo>,
    cuotas: map<int, Cuota>,
    prestatarios: map<int, Prestatario>,
    empleados: map<int, Empleado>)

  /** The claims of an authenticated caller's token. */
  datatype User = User(role: string, idPrestatario: Option<int>, ci: Option<int>, id: Option<int>)

  /** An authenticated caller whose role is exactly `role`. */
  predicate IsRole(user: Option<User>, role: string) {
    user.Some? && user.value.role == role
  }

  /** The refusal of a borrower caller whose token carries no borrower id. */
  const NoVinculada: string := "Cuenta no vinculada a prestatario"

  /** The keys of a borrower's loans in state ACTIVO. */
  function ActiveLoans(st: Store, idPrestatario: int): set<int> {
    set k | k in st.prestamos
      && st.prestamos[k].idPrestatario == idPrestatario
      && st.prestamos[k].estado == PrestamoEstado.Activo
  }

  /** The business rule: no borrower has more than two ACTIVO loans. */
  ghost predicate AtMostTwoActive(st: Store) {
    forall b :: |ActiveLoans(st, b)| <= 2
  }
}
