# Banco backend: the loan-lifecycle rules, modelled in Dafny

This project models the rule layer of a small banking back end, written in
Node.js over Oracle. The layer covers:

- loan requests (`SOLICITUDES_PRESTAMOS`): creation, listing, approval into a loan with its installments, and rejection;
- refinancing requests (`SOLICITUDES_REFINANCIACION`): creation on an ACTIVO loan, approval that regenerates the loan's installments, and rejection;
- loan records (`PRESTAMOS`): the state update, cancellation and the per-borrower projections;
- delinquency: the derived MOROSO state, the list of debtors and the development sweep guard;
- borrower (`PRESTATARIOS`) and employee (`EMPLEADOS`) records, including the bulk load of borrowers from CSV/TXT text and the grouping of its logs;
- the request gates: `requireRole`, `allowEmployeeOrOwner` and `validateCedula`.

The database is an immutable `Store` record of maps keyed by primary key
(`entities.dfy`). Every workflow is a pure function from a store to the store
after it and an outcome. A failing workflow returns the store it was given,
which is how the model states commit/rollback. The two database procedures
whose code is not part of this model are parameters of the workflows:

- the loan creator (`createPrestamoManualTransactional`);
- the installment generator (`generateCuotasTransactional`).

`collaborators.dfy` states, in one place, the assumptions made about them.
Other values from outside are parameters too:

- the clock (`now`);
- sequence values (`nextval`, `triggerId`);
- `Number(...)` applied to text (`num`);
- the database's refusal messages (`rechazoBd`);
- the outcome of a notification e-mail (`aviso`).

JavaScript values are modelled explicitly:

- `Js.Num` is a finite number, NaN or an infinity, with truthiness, `isFinite` and `isInteger`.
- `Js.Field` is a body property that is absent (`undefined`), `null` or given.
- A bound number matches an integer key only when it is an integer (`Js.AsId`).

The modules follow the source files:

| file | module | source |
|---|---|---|
| solicitudes.dfy | Solicitudes | src/models/solicitudes.model.js, src/services/solicitudes.service.js |
| solicitudes_api.dfy | SolicitudesApi | src/controllers/solicitudes.controller.js |
| refinanciaciones.dfy | Refinanciaciones | src/models/refinanciaciones.model.js |
| refinanciaciones_api.dfy | RefinanciacionesApi | src/controllers/refinanciaciones.controller.js |
| prestamos.dfy | Prestamos | src/models/prestamos.model.js |
| prestamos_api.dfy | PrestamosApi | src/controllers/prestamos.controller.js |
| cuotas.dfy | Cuotas | src/controllers/cuotas.controller.js |
| prestatarios.dfy | Prestatarios | src/models/prestatarios.model.js (insert, update, checkCedula, listMorosos) |
| carga.dfy | Carga | src/models/prestatarios.model.js (bulkLoad, getLoadLogs) |
| empleados.dfy | Empleados | src/models/empleados.model.js |
| acceso.dfy | Acceso | src/middlewares/requireRole.js, allowEmployeeOrOwner.js, validateCedula.js |
| collaborators.dfy, entities.dfy, js.dfy, text.dfy, ordering.dfy, http.dfy, wrappers.dfy | support | tables, JavaScript values, string functions, `ORDER BY` |

## Model

| member | source | states |
|---|---|---|
| Solicitudes.Find | src/models/solicitudes.model.js:142-153 | the key found has the bound id; when none is found, no row has that id |
| Solicitudes.ObtenerPorId | src/models/solicitudes.model.js:139-159 | null exactly when no row has the id; otherwise the row whose key equals the id |
| Solicitudes.CrearSolicitud | src/models/solicitudes.model.js:5-108 | succeeds iff the borrower id is an integer and some candidate key is free. The request is stored under the first free candidate as PENDIENTE, answered PENDIENTE, and nothing else changes. A configured sequence answering 0 fails with the NEXTVAL message and one that errs fails with its error, even for an invalid borrower id. Otherwise an invalid borrower id fails with the database's refusal. Failure leaves the store unchanged |
| Solicitudes.FirstFree | src/models/solicitudes.model.js:36-99 | finds a key iff some candidate is not taken, and the key found is a candidate that is not taken |
| Solicitudes.FirstFreeSkips | src/models/solicitudes.model.js:56-59 | a taken or unusable key source is skipped in favour of the rest |
| Solicitudes.FirstFreeDefaultChain | src/models/solicitudes.model.js:36-99 | without a configured sequence, the key tried is the default sequence's, else the alternative sequence's, else the trigger's |
| Solicitudes.CrearSinSecuenciaFallaSoloPorTrigger | src/models/solicitudes.model.js:83-98 | without a configured sequence, creation fails only for a borrower id that is not an integer or when the trigger's key is taken |
| Solicitudes.ListarPorPrestatario | src/models/solicitudes.model.js:109-138 | a non-finite id is refused with 'id_prestatario inválido'; otherwise exactly that borrower's requests, newest id first |
| Solicitudes.Listar | src/models/solicitudes.model.js:160-196 | exactly the requests passing both given filters, newest id first; every request when neither filter is set |
| Solicitudes.Aprobar | src/services/solicitudes.service.js:16-65 | an unknown request, a non-PENDIENTE one, or a borrower with two ACTIVO loans fails with its message and the store unchanged. It succeeds iff every step can succeed. Then the request is ACEPTADA with the answer date, one loan is added for that request from its amount and count at tier MEDIA, the installments generated for it are added, and nothing else changes |
| Solicitudes.ActiveAfterAdd | src/services/solicitudes.service.js:46 | inserting one loan adds at most that loan to its borrower's ACTIVO set and nothing to anyone else's |
| Solicitudes.AprobarKeepsAtMostTwo | src/services/solicitudes.service.js:24-29 | approval preserves "no borrower has more than two ACTIVO loans" |
| Solicitudes.AprobarOnce | src/services/solicitudes.service.js:18-20 | approving an approved request again fails with the PENDIENTE message and changes nothing |
| Solicitudes.Rechazar | src/services/solicitudes.service.js:66-85 | succeeds iff the request exists and is PENDIENTE. Only that request changes, to RECHAZADA with the answer date; the reason is echoed as given or null. Failure leaves the store unchanged |
| Solicitudes.RechazarIgnoresMotivo | src/services/solicitudes.service.js:72-78 | the reason never reaches the store: two reasons give the same store and the same success |
| Solicitudes.DecisionsAreFinal | src/services/solicitudes.service.js:20 | after an approval, rejection fails; after a rejection, approval fails; both leave the store unchanged |
| Solicitudes.ActualizarEstado | src/models/solicitudes.model.js:202-227 | the update without the stray `motivo` bind (see Findings): succeeds iff the row exists, whatever its state, and writes the state, the answer date and the employee (null when absent). Every other column and row is kept. An unknown id fails with 'Solicitud no encontrada' |
| Solicitudes.ActualizarEstadoIgnoresMotivo | src/models/solicitudes.model.js:205-217 | the bound reason changes neither the store nor the reply |
| Solicitudes.ActualizarEstadoCon | src/models/solicitudes.model.js:205-226 | a bind without a placeholder fails with the driver's message, or 'Error actualizando solicitud', and the store unchanged; when every bind has its placeholder, the update is ActualizarEstado |
| Solicitudes.ActualizarEstadoAsWritten | src/models/solicitudes.model.js:205-226 | as written, the update binds `motivo`, which has no placeholder: every call fails with the store unchanged |
| Solicitudes.ActualizarEstadoNeverApplies | src/models/solicitudes.model.js:205-217 | for an existing request the code as written fails while the corrected update succeeds; dropping the `motivo` bind leaves every bind with its placeholder, and the update then is ActualizarEstado |
| SolicitudesApi.IdEfectivo | src/controllers/solicitudes.controller.js:6-9 | a borrower caller's request is for the token's borrower id (none without one); anyone else's is for the body's |
| SolicitudesApi.Validar | src/controllers/solicitudes.controller.js:11-22 | amount, then count, then an employee caller's borrower id: the first failing check names the error. It passes iff the amount is finite and positive and the count a positive integer (plus the id for employees), and forwards the coerced values |
| SolicitudesApi.Crear | src/controllers/solicitudes.controller.js:4-31 | 201 iff created, otherwise 400 with the store unchanged. A validation error is answered as is. Once validation passes, the creation runs with the effective borrower id (NaN when there is none): 201 with its store iff it creates, else 400 with its message. So a configured sequence answering 0 gives 'No se pudo obtener NEXTVAL de la secuencia …', and otherwise an id that is not an integer gives the database's refusal. The stored request is PENDIENTE, for the effective borrower, with the validated amount and count and the employee or null |
| SolicitudesApi.CrearIgnoresBodyIdForBorrower | src/controllers/solicitudes.controller.js:7-9 | for a borrower caller the body's borrower id does not affect the outcome |
| SolicitudesApi.MisSolicitudes | src/controllers/solicitudes.controller.js:32-41 | 403 'Cuenta no vinculada a prestatario' iff the token has no borrower id; otherwise 200 with exactly that borrower's requests, newest first |
| SolicitudesApi.FiltrosDe | src/controllers/solicitudes.controller.js:44-47 | a given state filter is upper-cased, an empty one is dropped; the borrower filter is passed on |
| SolicitudesApi.FiltrosCaseInsensitive | src/controllers/solicitudes.controller.js:46 | a state query and its upper-cased form build the same filters |
| SolicitudesApi.Listar | src/controllers/solicitudes.controller.js:42-53 | 200 with exactly the requests passing the filters built from the query, newest first |
| SolicitudesApi.Aprobar | src/controllers/solicitudes.controller.js:54-62 | the service's store; 200 iff the service succeeds, else 400 |
| SolicitudesApi.Rechazar | src/controllers/solicitudes.controller.js:63-72 | the service runs with the reason or null; 200 with its result, which echoes the reason, iff it succeeds, else 400 with its message |
| Refinanciaciones.CrearSolicitudRefinanciacion | src/models/refinanciaciones.model.js:12-146 | the checks run in order: loan id, borrower id, count, loan existence, ACTIVO; each failure is named and leaves the store unchanged. It succeeds iff all checks pass, the borrower id is an integer and the sequence key (when usable) or the trigger's key is free. Then one PENDIENTE request is added for that loan, borrower and count, under the sequence key when usable and free, else the trigger's |
| Refinanciaciones.CrearLeavesLoans | src/models/refinanciaciones.model.js:59-133 | creating a refinancing request changes no loan and no installment |
| Refinanciaciones.ListarSolicitudes | src/models/refinanciaciones.model.js:148-211 | exactly the requests passing the upper-cased state filter and the truthy finite borrower filter, newest first |
| Refinanciaciones.ListarPorPrestatario | src/models/refinanciaciones.model.js:213-219 | a non-finite id is refused; a non-zero id lists exactly that borrower's requests; id 0 lists exactly every request, each with its own row |
| Refinanciaciones.ObtenerPorId | src/models/refinanciaciones.model.js:221-249 | a non-finite id is refused; otherwise null iff no row has the id, else that row |
| Refinanciaciones.TotalAsWritten | src/models/refinanciaciones.model.js:325-329 | the guard as written accepts every total, and a NULL total becomes 0 |
| Refinanciaciones.TotalChecked | src/models/refinanciaciones.model.js:325-329 | the intended guard accepts a total iff there is one, and refuses NULL with the total message |
| Refinanciaciones.AprobarCon | src/models/refinanciaciones.model.js:259-403 | the request id, existence, PENDIENTE, loan existence, loan ACTIVO and total checks each fail with their message and leave the store unchanged. It succeeds iff every step can succeed, the generator included. On success the request is APROBADA; the loan keeps its state and total and gets the new count; its installments are replaced by the generated ones; nothing else changes |
| Refinanciaciones.AprobarSolicitudAsWritten | src/models/refinanciaciones.model.js:259-403 | approval with the guard as written: it succeeds iff every step can succeed, with no total check. On success the request is APROBADA and the installments are regenerated from the loan's total, or from 0 when it is NULL; failures leave the store unchanged |
| Refinanciaciones.AprobarSolicitud | src/models/refinanciaciones.model.js:259-403 | approval with the intended guard: a NULL total refuses the approval with the total message; it succeeds iff every step can succeed, and then as AprobarCon |
| Refinanciaciones.NullTotalRefinancedAsZero | src/models/refinanciaciones.model.js:325-344 | there is a store where the code as written regenerates from a total of 0 while the intended guard refuses |
| Refinanciaciones.AsWrittenAgreesOnTotals | src/models/refinanciaciones.model.js:325-329 | the two guards differ only for a PENDIENTE request on an ACTIVO loan with a NULL total; every other approval is the same under both |
| Refinanciaciones.RegeneratedExactly | src/models/refinanciaciones.model.js:331-344 | after an approval, the loan's installments are exactly those the generator produced |
| Refinanciaciones.AprobarKeepsActiveLoans | src/models/refinanciaciones.model.js:346-356 | approval changes no borrower's set of ACTIVO loans |
| Refinanciaciones.AprobarOnce | src/models/refinanciaciones.model.js:285-288 | an approved refinancing cannot be approved again, with any generator |
| Refinanciaciones.RechazarSolicitud | src/models/refinanciaciones.model.js:405-469 | succeeds iff the request exists and is PENDIENTE; only its state changes, to RECHAZADA. Loans and installments are never touched, and failure leaves the store unchanged |
| Refinanciaciones.DecisionsAreFinal | src/models/refinanciaciones.model.js:433-436 | after an approval, rejection fails, and the other way round |
| RefinanciacionesApi.Crear | src/controllers/refinanciaciones.controller.js:10-97 | the checks run in order: token 400, loan id 400, count 400, unknown loan 404, another borrower's loan 403, non-ACTIVO loan 400. Once they pass: 201 with the creation's store iff the model creates, else 500 'Error interno' with the store unchanged. The loan is the caller's and ACTIVO, the new PENDIENTE request is the caller's, and loans and installments are unchanged |
| RefinanciacionesApi.OwnershipBeforeState | src/controllers/refinanciaciones.controller.js:56-74 | another borrower's loan is answered 403 whatever its state |
| RefinanciacionesApi.MisSolicitudes | src/controllers/refinanciaciones.controller.js:99-138 | 400 iff the token has no usable borrower id; otherwise 200 with exactly that borrower's requests |
| RefinanciacionesApi.Listar | src/controllers/refinanciaciones.controller.js:140-166 | 200 with exactly the requests passing the query's filters, newest first |
| RefinanciacionesApi.Aprobar | src/controllers/refinanciaciones.controller.js:168-223 | a non-finite or non-positive id is 400 before the model runs. Otherwise the model's store; 200 with its result on success, else 400 with its message |
| RefinanciacionesApi.Rechazar | src/controllers/refinanciaciones.controller.js:225-272 | the same id check and replies; loans and installments never change |
| RefinanciacionesApi.NotificationIsBestEffort | src/controllers/refinanciaciones.controller.js:183-208 | the notification's outcome changes neither the reply nor the store |
| Prestamos.FindLoan | src/models/prestamos.model.js:171-177 | the key found has the bound id; when none is found, no loan has it |
| Prestamos.FindById | src/models/prestamos.model.js:168-183 | null iff no loan has the id, otherwise that loan |
| Prestamos.UpdatePrestamo | src/models/prestamos.model.js:186-208 | only the state of the loan may change, and only when a state is given. The reply is the loan as read afterwards, null iff the id is unknown |
| Prestamos.UpdatePrestamoIdempotent | src/models/prestamos.model.js:190-198 | setting the same state twice is setting it once |
| Prestamos.DeletePrestamo | src/models/prestamos.model.js:211-225 | answers CANCELADO for any id; the loan's state becomes CANCELADO whatever it was; an unknown id changes nothing; installments are untouched |
| Prestamos.DeleteShrinksActive | src/models/prestamos.model.js:214-219 | cancelling never adds to a borrower's ACTIVO loans |
| Prestamos.UpdateCanBreakAtMostTwo | src/models/prestamos.model.js:192-198 | the state update is unguarded: re-activating a loan can give a borrower a third ACTIVO loan |
| Prestamos.Project | src/models/prestamos.model.js:66-89 | the borrower's loans newest first and their installments by (loan, number) |
| Prestamos.FindByPrestatario | src/models/prestamos.model.js:55-95 | the empty answer iff no borrower has the CI; otherwise a borrower with that CI and exactly their loans and installments, in order |
| Prestamos.FindByPrestatarioId | src/models/prestamos.model.js:98-147 | the empty answer iff the id is unknown; otherwise the borrower, their CI and their projection |
| PrestamosApi.InferTipoInteres | src/controllers/prestamos.controller.js:3-9 | none iff the count is not finite; BAJA iff at most 12, MEDIA iff in (12, 24], ALTA iff above 24 |
| PrestamosApi.InferMonotone | src/controllers/prestamos.controller.js:6-8 | more installments never give a lower tier |
| PrestamosApi.CrearPayload | src/controllers/prestamos.controller.js:12-28 | a non-borrower's body is forwarded unchanged. A borrower's loan is their own (token borrower id, else user id), with the tier inferred from the count (none when not finite); every other field is kept |
| PrestamosApi.CrearPayloadIgnoresBorrowerFields | src/controllers/prestamos.controller.js:18-21 | a borrower's body values for the borrower and the tier do not matter |
| PrestamosApi.ParseEstado | src/controllers/prestamos.controller.js:116-118 | what the whitelist accepts is the name of a loan state |
| PrestamosApi.ParseEstadoName | src/controllers/prestamos.controller.js:116-118 | every loan state's name is accepted as that state |
| PrestamosApi.Actualizar | src/controllers/prestamos.controller.js:110-132 | a given state off the whitelist, after upper-casing, is 400 with the store unchanged. A whitelisted one is written through the model. No state (absent or null) reads the loan back |
| PrestamosApi.ActualizarCaseInsensitive | src/controllers/prestamos.controller.js:117 | a state and its upper-cased form give the same outcome |
| PrestamosApi.ElegirConsulta | src/controllers/prestamos.controller.js:39-58 | a borrower's CI comes from the token, else their borrower id is used; anyone else's comes from the path; a zero or NaN CI is refused |
| PrestamosApi.BorrowerCiIgnoresPath | src/controllers/prestamos.controller.js:46-49 | a borrower with a CI in the token sees the same projection whatever the path says |
| PrestamosApi.ObtenerPorPrestatario | src/controllers/prestamos.controller.js:37-70 | 400 'Cédula inválida' iff the chosen CI is invalid; otherwise 200 with the projection of the borrower with that CI (the empty answer iff no borrower has it) or with that id (the empty answer iff the id is unknown), holding exactly their loans newest first and their installments in order |
| PrestamosApi.MisPrestamos | src/controllers/prestamos.controller.js:71-92 | 400 iff the token has no borrower id; otherwise 200 with that borrower's projection: the empty answer iff the id is unknown, else the borrower, their CI and exactly their loans and installments in order |
| Cuotas.Derivar | src/controllers/cuotas.controller.js:85 | MOROSO iff the overdue unpaid count is at least 2 |
| Cuotas.DerivarMonotone | src/controllers/cuotas.controller.js:85 | more overdue installments never turn MOROSO back into ACTIVO |
| Cuotas.EstadoMorosoDerivado | src/controllers/cuotas.controller.js:81-90 | echoes the borrower id and the count unchanged, with MOROSO iff the count is at least 2; a failing count is 400 with its message |
| Cuotas.Entorno | src/controllers/cuotas.controller.js:71 | an unset or empty NODE_ENV counts as "development" |
| Cuotas.MarcarVencidasDev | src/controllers/cuotas.controller.js:69-79 | 403 iff NODE_ENV is "production", and then the sweep does not run; otherwise the sweep's store and result, or 400 with its error |
| Prestatarios.CiTexto | src/models/prestatarios.model.js:24 | for a complete body, the CI's text is present and not empty |
| Prestatarios.PrimerFaltante | src/models/prestatarios.model.js:8-13 | the first missing field in list order: every earlier field is present; none iff all are present |
| Prestatarios.CheckCedula | src/models/prestatarios.model.js:109-122 | duplicate iff some borrower has that CI |
| Prestatarios.InsertPrestatario | src/models/prestatarios.model.js:5-51 | an incomplete body fails naming the first missing required field. A taken CI fails with DUP_CI. It succeeds iff the body is complete, the CI is an integer, and the CI and key are free; then only the new row is added. Failure leaves the store unchanged |
| Prestatarios.InsertedRow | src/models/prestatarios.model.js:15-36 | the new row holds the CI as a number, the registration time and the fields as given; afterwards the CI counts as taken |
| Prestatarios.InsertTwiceIsDuplicate | src/models/prestatarios.model.js:38-43 | inserting the same CI a second time fails with DUP_CI |
| Prestatarios.Cambios | src/models/prestatarios.model.js:55-68 | exactly the whitelisted fields the body carries (null included), with their values |
| Prestatarios.UpdatePrestatario | src/models/prestatarios.model.js:52-78 | no whitelisted field fails 'No hay campos para actualizar'; an unknown CI fails 'Cédula no encontrada'. Otherwise the rows with that CI get the present whitelisted fields and keep every other column; CI, registration date and other rows never change |
| Prestatarios.UpdatePrestatarioIdempotent | src/models/prestatarios.model.js:58-72 | repeating an update changes nothing more |
| Prestatarios.UpdateKeepsCedulas | src/models/prestatarios.model.js:55 | an update neither frees nor takes a CI |
| Prestatarios.ListMorosos | src/models/prestatarios.model.js:464-482 | a borrower is listed iff they have at least one overdue unpaid installment, once, with that count and their CI, name, surname, e-mail and telephone, by count descending |
| Carga.Partes | src/models/prestatarios.model.js:239 | one more field than separators, each trimmed |
| Carga.Clasificar | src/models/prestatarios.model.js:228-317 | the verdict carries its line number, its loader (accepted) or its raw content (rejected) |
| Carga.ClasificarAcepta | src/models/prestatarios.model.js:239-317 | a line is accepted iff it has nine fields, a non-empty numeric CI, a non-empty telephone of at most 20 characters and a YYYY-MM-DD date |
| Carga.ClasificarMotivo | src/models/prestatarios.model.js:240-303 | the reason is the first check failed: column count iff not exactly 8 separators, CI iff nine fields with an empty or NaN CI, then telephone, then date; the reported CI and telephone are never empty text |
| Carga.Veredictos | src/models/prestatarios.model.js:228-229 | one verdict per line, numbered from 1, accepted rows carrying the loader |
| Carga.VeredictoDe | src/models/prestatarios.model.js:228-229 | the verdict at position n is the classification of line n as line n + 1 |
| Carga.PartirCuenta | src/models/prestatarios.model.js:237 | every verdict lands in exactly one of the two lists: accepted + rejected = total |
| Carga.AceptadasOrdenadas | src/models/prestatarios.model.js:306-317 | each accepted row sits at its own line's verdict, and they come in strict line order |
| Carga.RechazadasOrdenadas | src/models/prestatarios.model.js:242-302 | each rejected row sits at its own line's verdict, and they come in strict line order |
| Carga.Partir | src/models/prestatarios.model.js:228-318 | the loop skips the header verdicts and sorts the rest into the accepted and rejected lists; total counts the rest |
| Carga.Desplazados | src/models/prestatarios.model.js:229 | dropping the header keeps the line numbering |
| Carga.RepartoAceptadas | src/models/prestatarios.model.js:232-317 | after the header, accepted rows sit at their line's verdict past the header, in line order |
| Carga.RepartoRechazadas | src/models/prestatarios.model.js:232-302 | after the header, rejected rows sit at their line's verdict past the header, in line order |
| Carga.RepartoCompleto | src/models/prestatarios.model.js:237-317 | no verdict after the header is lost |
| Carga.ReparteTodo | src/models/prestatarios.model.js:237-317 | every verdict's row is in the list of its kind |
| Carga.Primero | src/models/prestatarios.model.js:200-202 | `a \|\| b \|\| fallback` on optional text |
| Carga.DetalleDeAceptada | src/models/prestatarios.model.js:351-361 | ACEPTADA, no error text, the log id, the line, the CI as a number and the telephone |
| Carga.DetalleDeRechazada | src/models/prestatarios.model.js:371-389 | RECHAZADA with the reason text. The CI is 0 when missing or NaN and never NaN. The telephone is a prefix of at most 20 characters, unchanged when it already fits |
| Carga.Registros | src/models/prestatarios.model.js:325-390 | one detail row per accepted line, then one per rejected line, in order |
| Carga.Observaciones | src/models/prestatarios.model.js:411-416 | one reported entry per rejected line, in order, with its line, CI, reason and content |
| Carga.Informe | src/models/prestatarios.model.js:392-418 | total = accepted + rejected = the lines after the header. The log row holds the two counts. There is one detail row per line, ACEPTADA exactly for the first `accepted` ones; rejected detail CIs are never NaN |
| Carga.InformeFilas | src/models/prestatarios.model.js:306-362 | each row to insert is the accepted verdict of a line past the header, carries the loader, matches the detail row at its position, and rows come in line order |
| Carga.InformeRechazos | src/models/prestatarios.model.js:371-416 | each reported rejection is a rejected line past the header, in line order, matching the detail row after the accepted ones |
| Carga.InformeCompleto | src/models/prestatarios.model.js:237-418 | every accepted line past the header is inserted and every rejected one is reported |
| Carga.CargaMasiva | src/models/prestatarios.model.js:197-426 | assuming every insert succeeds: fails with the content message iff neither content nor texto is given. Otherwise the load of the non-blank lines, under the loader (usuario, usuario_registro or "system") and the file name (nombre_archivo, filename or "carga.csv") |
| Carga.Cargar | src/models/prestatarios.model.js:218-418 | the load of the lines is the report of their verdicts after the header |
| Carga.Grupo | src/models/prestatarios.model.js:447-452 | exactly the detail rows of that log, in listing order |
| Carga.GrupoOrdenado | src/models/prestatarios.model.js:439-452 | listed by (log, line), a log's rows come in line order |
| Carga.LoadLogs | src/models/prestatarios.model.js:427-463 | each log, in order, paired with exactly its detail rows (empty when it has none) |
| Empleados.GetEmpleadoById | src/models/empleados.model.js:58-68 | a row iff the id is an integer key of the table, and then that row |
| Empleados.CreateEmpleado | src/models/empleados.model.js:10-42 | a missing or empty nombre or apellido fails; a taken key is a unique violation. Otherwise one row is added with cargo, salario and edad null when not given, answered as the row read back iff the id is non-zero |
| Empleados.GetAllEmpleados | src/models/empleados.model.js:45-55 | every employee, newest id first |
| Empleados.Editar | src/models/empleados.model.js:74-82 | a property not given keeps its column; a given one (null included) overwrites it |
| Empleados.UpdateEmpleado | src/models/empleados.model.js:71-92 | no property fails 'No hay campos para actualizar'; an unknown id fails 'Empleado no encontrado'. Otherwise only that row changes, and the reply is the row read back |
| Empleados.DeleteEmpleado | src/models/empleados.model.js:95-108 | succeeds iff the id is found, removing only that row and answering the id; otherwise 'Empleado no encontrado' |
| Empleados.CreateThenGet | src/models/empleados.model.js:31-38 | a created employee is found under its key with the columns it was created with |
| Empleados.UpdateEmpleadoIdempotent | src/models/empleados.model.js:74-87 | applying the same update twice gives the store and reply of applying it once |
| Empleados.UpdateKeepsOthers | src/models/empleados.model.js:83-87 | every other employee keeps its columns |
| Empleados.DeleteThenGet | src/models/empleados.model.js:95-108 | a deleted employee is not found, and deleting it again fails |
| Acceso.RequireRole | src/middlewares/requireRole.js:4-10 | no user 401, another role 403, next iff the role is exactly the required one |
| Acceso.NoRoleHierarchy | src/middlewares/requireRole.js:7 | an ADMIN does not pass the EMPLEADO gate |
| Acceso.OneRolePasses | src/middlewares/requireRole.js:7-8 | a caller passes the gate of one role only |
| Acceso.AllowEmployeeOrOwner | src/middlewares/allowEmployeeOrOwner.js:6-20 | no user 401; staff pass; a failing owner lookup 500; no borrower link 403 'Cuenta no vinculada a prestatario'; next iff staff or the owner is the caller; 403 'No autorizado' only for another owner |
| Acceso.StaffIgnoresOwner | src/middlewares/allowEmployeeOrOwner.js:9 | for staff the owner lookup's answer does not matter |
| Acceso.LookupBeforeLink | src/middlewares/allowEmployeeOrOwner.js:11-13 | the owner lookup runs before the link check: its failure is 500 even for an unlinked caller |
| Acceso.CiDe | src/middlewares/validateCedula.js:6 | the body's non-empty CI, else the path parameter's, else NaN |
| Acceso.ValidateCedula | src/middlewares/validateCedula.js:4-14 | a missing, zero or NaN CI is 400; a registered one 409; a failing lookup 500; next iff the lookup says it is free |
| Acceso.MissingCiSkipsLookup | src/middlewares/validateCedula.js:7 | a missing CI is refused whatever the lookup would answer |
| Acceso.GatePassedMeansInsertable | src/middlewares/validateCedula.js:8-10 | a CI that passes the gate, checked against the borrower table, is not refused as DUP_CI by the insert, which succeeds for a complete body with an integer CI |
| Collaborators.Generate | src/services/solicitudes.service.js:49-54 | the generator's error is passed on. It succeeds iff the generator succeeds and its keys are free; then the old installments are kept and the new ones belong to the loan and borrower it was given |
| Collaborators.DeleteCuotas | src/models/refinanciaciones.model.js:331-336 | exactly that loan's installments are removed; the others are kept |
| Js.AsId | src/models/solicitudes.model.js:142-152 | a bound number matches an integer key iff it is an integer, and then that key |
| Js.OrNull | src/controllers/solicitudes.controller.js:66 | `x \|\| null`: present iff given and non-empty |
| Js.OrNullField | src/models/solicitudes.model.js:29 | `x ?? null`: present iff given |
| Text.Trim | src/models/prestatarios.model.js:239 | the input with its leading and trailing whitespace removed: a slice of it whose outside is all whitespace, with no outer whitespace left; empty iff the input is all whitespace |
| Text.TrimIdempotent | src/models/prestatarios.model.js:255-258 | trimming twice is trimming once |
| Text.ToUpper | src/controllers/prestamos.controller.js:117 | same length, each ASCII letter upper-cased |
| Text.ToUpperIdempotent | src/models/refinanciaciones.model.js:156 | upper-casing twice is upper-casing once |
| Text.Split | src/models/prestatarios.model.js:239 | one more piece than separators, none containing a separator |
| Text.SplitJoin | src/models/prestatarios.model.js:239 | the pieces and the separators rebuild the line |
| Text.SplitFree | src/models/prestatarios.model.js:239 | a line without separators is one piece |
| Text.SplitLines | src/models/prestatarios.model.js:218 | one more line than line feeds, none containing one |
| Text.SplitLinesJoin | src/models/prestatarios.model.js:218 | the lines, rejoined with line feeds (a carriage return put back where one was dropped), rebuild the text |
| Text.NonBlank | src/models/prestatarios.model.js:218 | exactly the lines that are not blank |
| Text.NonBlankAppend | src/models/prestatarios.model.js:218 | filtering a concatenation is concatenating the filtered parts |
| Text.NonBlankOne | src/models/prestatarios.model.js:218 | a single line is kept iff it is not blank |
| Ordering.SortByRank | src/models/prestamos.model.js:82 | each key once, every key listed, in non-decreasing rank |
| Ordering.SelectDescending | src/models/solicitudes.model.js:130 | exactly the kept rows with their contents, in descending key order |

## Left out

- Solicitudes.Aprobar: the request is read outside the transaction and rows are locked `FOR UPDATE`; the model is sequential, so atomicity is "a failure returns the store it was given".
- Solicitudes.Payload: the tier is always MEDIA because the row read by `obtenerPorId` has no `tipo_interes` column; the model passes MEDIA directly.
- Collaborators: `createPrestamoManualTransactional` and `generateCuotasTransactional` are not part of this model (no shown file defines them). They are parameters, and the model assumes of them only what `collaborators.dfy` states. No split, rounding rule or interest rate is modelled. A stored `monto` or `nro_cuotas` of 0, which the service would pass as undefined, is passed as 0.
- The PL/SQL packages `PAK_PRESTAMOS` and `PAK_CUOTAS`, `createPrestamo`, `createRefinanciacion`, `findAll`, and the cuotas, reportes and notificaciones models: thin wrappers over stored code.
- `contarVencidasImpagas` and `marcarVencidasDev` of the installment service are parameters of `Cuotas.EstadoMorosoDerivado` and `Cuotas.MarcarVencidasDev`.
- E-mail notification: its outcome is the parameter `aviso`, and it never changes the store.
- Authentication (JWT, bcrypt), the audit middleware, routes, `app.js`, `server.js`, the Oracle pool and `uploadPhoto`: plumbing. Token claims are modelled as already-decoded optional integers and strings, and the `ID_PRESTATARIO` and `idPrestatario` claim aliases are folded into one claim.
- The HTTP status mapping of the borrower, employee, report and notification controllers: the models answer `Result` values.
- Concurrency, connections and `FOR UPDATE` locks: not modelled.
- Sequence and trigger key generation: the keys are parameters (`nextval`, `triggerId`, `id`). A failing sequence query and a sequence answering null are both "not usable".
- `Number(...)` on arbitrary text (for example "1e3" or " 12 "): the parameter `num`, with no property assumed. `Number("Infinity")` is therefore accepted as a CI exactly as the code accepts it.
- Binding NaN or an infinity to an Oracle NUMBER column: modelled as matching no row, and as an insert the database refuses with the message `rechazoBd`.
- Prestatarios.InsertPrestatario: a finite fractional CI is modelled as refused with `rechazoBd`; an Oracle NUMBER column would store it, or round it to the column's scale.
- SolicitudesApi.Crear: a finite fractional borrower id is modelled as refused with `rechazoBd`; Oracle would round it to the integer column instead.
- Refinanciaciones.CrearSolicitudRefinanciacion: a finite fractional borrower id is modelled as refused with `rechazoBd`; Oracle would round it to the integer column instead.
- Oracle's treatment of the empty string as NULL: not modelled; an empty text column is stored as empty text.
- Request body values: borrower body fields are modelled as text (or null), employee body fields as typed values; a body value of another JSON type is not modelled.
- JavaScript `trim` and `toUpperCase` beyond ASCII: `Text.Trim` removes ASCII whitespace and `Text.ToUpper` changes ASCII letters only.
- Carga.ClasificarAcepta: the telephone's length of at most 20 counts characters; JavaScript's `.length` counts UTF-16 code units, which differ for characters outside the Basic Multilingual Plane.
- Carga.DetalleDeRechazada: the telephone is cut to 20 characters, where JavaScript's `.slice` cuts 20 UTF-16 code units.
- Dates are integer timestamps; `SYSDATE` is the parameter `now`; `TO_DATE` format errors are not modelled beyond the bulk load's `YYYY-MM-DD` check.
- Carga.CargaMasiva: the inserts into PRESTATARIOS and CARGA_CLIENTES_DETALLE are returned as rows to insert, not applied to the store, so an insert the database refuses is not modelled. For an accepted line whose CI is already registered or repeated in the file (a unique violation), or whose date has the YYYY-MM-DD shape but is not a date `TO_DATE` accepts (such as 2023-13-45), the source fails with 'Error insertando registros de carga masiva' where the model answers Ok. The partial commit of the rows inserted before such a failure is not modelled either.
- Carga.LoadLogs: the `ORDER BY` of the two queries is taken as the order of its inputs.
- Refinanciaciones.ListarSolicitudes: the `LEFT JOIN` on borrower id or CI can list a request twice when two borrowers match; the model lists each request once, with the request's own columns only.
- Solicitudes.Listar: the `LEFT JOIN EMPLEADOS` columns `empleado_decisor_nombre` and `empleado_decisor_apellido` (and the `id_empleado_decisor` alias) are not part of the listed rows; the model lists the request's own columns.
- Solicitudes.ListarPorPrestatario: the same `LEFT JOIN EMPLEADOS` columns are left out.
- Prestamos.FindByPrestatario: the installments come from the table of installments, not from the view `vw_resumen_cuotas` with its `valor_cuota` and `saldo` columns, whose definition is not part of this model; Prestamos.FindByPrestatarioId likewise.
- RefinanciacionesApi.Aprobar: calls the corrected approval (Refinanciaciones.AprobarSolicitud); the code as written answers 200 and regenerates from a total of 0 when the loan's total is NULL (see Findings).
- Solicitudes.ActualizarEstado: the state is typed as a request state; the column's check constraint on other text is not modelled.
- `deletePrestatario`, `updateFoto`, `getByCedula`, `getById` and `listAll` of the borrower model: outside the rule layer.
- Foreign keys: a request, loan or installment may name a borrower or loan that does not exist, as the model does not enforce referential integrity.

## Findings

| source | as written | input that shows it | evidently intended | confidence | as-written member | corrected member |
|---|---|---|---|---|---|---|
| src/models/refinanciaciones.model.js:325-329 | `Number(total_prestado ?? null)` is `Number(null)`, which is 0 and finite, so a loan whose `TOTAL_PRESTADO` is NULL passes the guard and its installments are regenerated from a total of 0 | a PENDIENTE refinancing request for an ACTIVO loan whose `TOTAL_PRESTADO` is NULL | a loan without a total is refused with 'total_prestado inválido en el préstamo asociado' | not executed | Refinanciaciones.AprobarSolicitudAsWritten | Refinanciaciones.AprobarSolicitud |
| src/models/solicitudes.model.js:205-217 | the bind object passes `motivo`, but the UPDATE has no `:motivo` placeholder; node-oracledb refuses a named bind without a placeholder (NJS-097 in Thin mode, ORA-01036 in Thick mode), so every call fails before any row changes | any existing request id, with any state and reason | the update runs: the `motivo` bind is dropped, or a reason column is added to the UPDATE | not executed | Solicitudes.ActualizarEstadoAsWritten | Solicitudes.ActualizarEstado |
